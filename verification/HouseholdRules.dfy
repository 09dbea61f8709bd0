/** What a household gets, in terms of the rows of its tables and the clock alone. */
module HouseholdRules {
  import opened Basics
  import opened Schedule
  import opened Policy
  import opened PolicyAgreement

  // ----- clocks

  /** Minutes since the last time it was `start` o'clock on that day of the week (Monday is 1). */
  function MinutesSince(day: nat, start: nat, local: Local): int {
    (local.weekday * 1440 + local.minute - day * 1440 - start) % 10080
  }

  /** The local clock stands in a window that began on one of the chosen days. */
  predicate InChosenWindow(days: seq<string>, start: nat, end: nat, local: Local) {
    exists day: nat :: 1 <= day <= 7 && [(48 + day) as char] in days &&
      MinutesSince(day, start, local) < if start < end then end - start else end + 1440 - start
  }

  /** The plan is switched off, or its zone and times can be read and the clock of the zone stands in one of its windows. */
  predicate PlanHolds(plan: Plan, now: Instant) {
    || !plan.enabled
    || (&& now.zones(plan.zone).Some? && now.zones(plan.zone).value.Valid() && plan.start.Some? && plan.end.Some?
        && InChosenWindow(plan.days, plan.start.value, plan.end.value, now.zones(plan.zone).value))
  }

  lemma WindowIs(day: nat, start: nat, end: nat, local: Local)
    requires 1 <= day <= 7 && start < 1440 && end < 1440 && local.Valid()
    ensures InWindow(day, start, end, MinuteOfWeek(local)) <==>
      MinutesSince(day, start, local) < if start < end then end - start else end + 1440 - start
  {
  }

  /** Times of day, as they are read from HH:MM. */
  predicate ReadTimes(plan: Plan) {
    (plan.start.Some? ==> plan.start.value < 1440) && (plan.end.Some? ==> plan.end.value < 1440)
  }

  lemma PlanHoldsIs(plan: Plan, now: Instant)
    requires ReadTimes(plan)
    ensures ActiveAt(plan, now) <==> PlanHolds(plan, now)
  {
    var local := now.zones(plan.zone);
    if plan.enabled && local.Some? && local.value.Valid() && plan.start.Some? && plan.end.Some? {
      ActiveIsUnionOfWindows(plan.days, plan.start.value, plan.end.value, local.value);
      forall day: nat | 1 <= day <= 7
        ensures ContainsDay(plan.days, day) <==> [(48 + day) as char] in plan.days
        ensures InWindow(day, plan.start.value, plan.end.value, MinuteOfWeek(local.value)) <==>
          MinutesSince(day, plan.start.value, local.value) <
            if plan.start.value < plan.end.value then plan.end.value - plan.start.value
            else plan.end.value + 1440 - plan.start.value
      {
        assert Itoa(day) == [(48 + day) as char];
        WindowIs(day, plan.start.value, plan.end.value, local.value);
      }
    }
  }

  /** The profile is not paused any more, and its plan holds. */
  predicate InForce(p: Profile, now: Instant) {
    (p.pausedUntil.None? || p.pausedUntil.value <= now.at) && PlanHolds(p.plan, now)
  }

  lemma InForceIs(p: Profile, now: Instant)
    requires ReadTimes(p.plan)
    ensures Active(p, now) <==> InForce(p, now)
  {
    PlanHoldsIs(p.plan, now);
  }

  // ----- pauses

  /** Some pause of the device that owns the address ends later than now. */
  predicate DeviceIsPaused(db: Database, client: Address, now: Instant) {
    exists row :: row in db.pauses && client in db.addresses && row.device == db.addresses[client] &&
      row.until.Some? && now.at < row.until.value
  }

  /** Until the pause ends, and no longer, the explainer says so and the configuration refuses the device. */
  lemma PauseIs(db: Database, client: Address, now: Instant)
    ensures PauseApplies(db, client, now) <==> DeviceIsPaused(db, client, now)
    ensures FirstMatch(PausedDevices(db, db.pauses, now), client).Some? <==> DeviceIsPaused(db, client, now)
  {
    PausedMatch(db, db.pauses, now, client);
    if DeviceIsPaused(db, client, now) {
      var row :| row in db.pauses && client in db.addresses && row.device == db.addresses[client] &&
        row.until.Some? && now.at < row.until.value;
      var i :| 0 <= i < |db.pauses| && db.pauses[i] == row;
    }
  }

  // ----- rules

  /** An entry of the profile's allow list, or a trial of it that has not ended. */
  predicate Excepted(db: Database, now: Instant, id: ProfileId, n: Domain) {
    (id, n) in db.allow || exists t :: t in db.trials && t.profile == id && t.domain == n && now.at < t.expires
  }

  /** An entry of the profile's block list, or of a list that is enabled and that the profile uses. */
  predicate Listed(db: Database, id: ProfileId, n: Domain) {
    (id, n) in db.block || exists l :: l in db.enabledLists && (id, l) in db.profileLists && (l, n) in db.listEntries
  }

  predicate RulesBlock(db: Database, now: Instant, p: Profile, n: Domain) {
    InForce(p, now) && !Excepted(db, now, p.id, n) && Listed(db, p.id, n)
  }

  lemma ExceptedIs(db: Database, now: Instant, id: ProfileId, n: Domain)
    ensures HasException(db, now, id, n) <==> Excepted(db, now, id, n)
    ensures n in Allowed(db, now, id) <==> Excepted(db, now, id, n)
  {
    AllowedIsException(db, now, id, n);
    if t :| t in db.trials && t.profile == id && t.domain == n && now.at < t.expires {
      var i :| 0 <= i < |db.trials| && db.trials[i] == t;
    }
  }

  lemma ListedIs(db: Database, id: ProfileId, n: Domain)
    ensures n in Blocked(db, id) <==> Listed(db, id, n)
    ensures (id, n) !in db.block ==> (|MatchingLists(db, id, n)| >= 1 <==> Listed(db, id, n))
  {
    BlockedIsMatched(db, id, n);
    var lists := MatchingLists(db, id, n);
    if l :| l in db.enabledLists && (id, l) in db.profileLists && (l, n) in db.listEntries {
      assert (l, n).0 in lists;
    }
    if |lists| >= 1 {
      var l := AnyElement(lists);
      assert (l, n) in db.listEntries;
    }
  }

  /** The explainer's answer, once the profile is known: what decides it, in this order. */
  lemma DecisionIs(db: Database, now: Instant, p: Profile, n: Domain)
    requires ReadTimes(p.plan)
    ensures var d := Decide(db, now, p, n);
      && d.profile == Some(p.id) && (d.blocked <==> RulesBlock(db, now, p, n))
      && d.reason ==
        if !InForce(p, now) then Bypassed
        else if Excepted(db, now, p.id, n) then Exception
        else if (p.id, n) in db.block then CustomBlock
        else if Listed(db, p.id, n) then
          Blocklists(|set l | l in db.enabledLists && (p.id, l) in db.profileLists && (l, n) in db.listEntries|)
        else if exists line :: line in db.records && line.host == n then LocalRecord
        else NoRule
  {
    InForceIs(p, now);
    ExceptedIs(db, now, p.id, n);
    ListedIs(db, p.id, n);
    var lists := set l | l in db.enabledLists && (p.id, l) in db.profileLists && (l, n) in db.listEntries;
    forall l
      ensures l in MatchingLists(db, p.id, n) <==> l in lists
    {
      assert (l, n).0 == l;
    }
    assert MatchingLists(db, p.id, n) == lists;
  }

  /** A hosts file holds every local record, the blocked names of the profile at the block address, and nothing else. */
  lemma HostsFileIs(db: Database, norm: Normalizer, now: Instant, p: Profile, line: HostLine)
    requires Normalized(db, norm) && ReadTimes(p.plan)
    ensures Active(p, now) ==> BlockHosts(db, norm, now, p.id).Some?
    ensures line in HostsFile(db, norm, now, p) <==>
      line in db.records || (line.ip == "0.0.0.0" && RulesBlock(db, now, p, line.host))
  {
    BlockLineOf(db, norm, now, p, line.host);
    DecisionIs(db, now, p, line.host);
    assert line.ip == "0.0.0.0" ==> line == HostLine(BLOCK_IP, line.host);
  }

  /** Blocked names as stored are normalized before the allowed ones are taken away. */
  lemma BlockLinesAre(db: Database, norm: Normalizer, now: Instant, id: ProfileId, line: HostLine)
    requires BlockHosts(db, norm, now, id).Some?
    ensures line in BlockHosts(db, norm, now, id).value <==>
      && line.ip == "0.0.0.0"
      && (exists text :: Listed(db, id, text) && norm(text) == Some(line.host))
      && !(exists text :: Excepted(db, now, id, text) && norm(text) == Some(line.host))
  {
    var allowed, blocked := Allowed(db, now, id), Blocked(db, id);
    forall text
      ensures text in allowed <==> Excepted(db, now, id, text)
      ensures text in blocked <==> Listed(db, id, text)
    {
      ExceptedIs(db, now, id, text);
      ListedIs(db, id, text);
    }
    NormalizedAre(norm, allowed, line.host);
    NormalizedAre(norm, blocked, line.host);
    var domains := NormalizeAll(norm, blocked) - NormalizeAll(norm, allowed);
    assert line.host in domains && line.ip == "0.0.0.0" ==> HostLine(BLOCK_IP, line.host) in BlockHosts(db, norm, now, id).value;
  }

  lemma NormalizedAre(norm: Normalizer, domains: set<string>, n: Domain)
    requires AllNormalize(norm, domains)
    ensures n in NormalizeAll(norm, domains) <==> exists text :: text in domains && norm(text) == Some(n)
  {
    if text :| text in domains && norm(text) == Some(n) {
      assert norm(text).value in NormalizeAll(norm, domains);
    }
  }

  // ----- the profile of a client

  /** The profile of the client's device, else the one its address is assigned to, else the default. */
  predicate ProfileOf(db: Database, client: Address, p: Profile) {
    && p in db.profiles
    && if client in db.addresses && db.addresses[client] in db.memberships then p.id == db.memberships[db.addresses[client]]
       else if client in db.assignments then p.id == db.assignments[client]
       else p.isDefault
  }

  lemma SelectedIs(db: Database, client: Address, p: Profile)
    requires WellFormed(db)
    ensures Selects(db, client, p) <==> ProfileOf(db, client, p)
  {
    if client in db.addresses && db.addresses[client] in db.memberships {
      var device := db.addresses[client];
      assert exists q :: q in db.profiles && q.id == db.memberships[device];
      var q :| q in db.profiles && q.id == db.memberships[device];
      assert IsMember(db, client, q.id);
    } else if client in db.assignments {
      var q :| q in db.profiles && q.id == db.assignments[client];
      assert IsAssigned(db, client, q.id);
    }
  }

  /** A conflict: the device of the client belongs to one profile, and its address is assigned to another that is rendered
      before it, which is by id, with the default profile last. */
  lemma ConflictIs(db: Database, client: Address)
    requires WellFormed(db)
    ensures Conflict(db, client) <==>
      && client in db.addresses && db.addresses[client] in db.memberships && client in db.assignments
      && exists m, a ::
          && m in db.profiles && a in db.profiles
          && m.id == db.memberships[db.addresses[client]] && a.id == db.assignments[client]
          && ((m.isDefault && !a.isDefault) || (m.isDefault == a.isDefault && a.id < m.id))
  {
  }

  // ----- the whole

  /** What is to happen to a query, by the tables: the device is paused, or the rules of its profile block the name. */
  predicate IsToBeBlocked(db: Database, now: Instant, client: Address, p: Profile, n: Domain) {
    DeviceIsPaused(db, client, now) || RulesBlock(db, now, p, n)
  }

  /** The explainer answers what the tables say. */
  lemma ExplainedIs(db: Database, norm: Normalizer, now: Instant, domain: string, client: Address, p: Profile, d: Decision)
    requires WellFormed(db) && ProfileOf(db, client, p) && ReadTimes(p.plan)
    requires norm(domain).Some? && Explains(db, norm, now, domain, client, d)
    ensures d.blocked <==> IsToBeBlocked(db, now, client, p, norm(domain).value)
    ensures d.reason == DevicePaused <==> DeviceIsPaused(db, client, now)
    ensures !DeviceIsPaused(db, client, now) ==> d == Decide(db, now, p, norm(domain).value)
  {
    PauseIs(db, client, now);
    SelectedIs(db, client, p);
    DecisionIs(db, now, p, norm(domain).value);
    if !PauseApplies(db, client, now) {
      var q :| Selects(db, client, q) && d == Decide(db, now, q, norm(domain).value);
      SelectedIs(db, client, q);
      OneProfile(db, client, p, q);
    }
  }

  lemma OneProfile(db: Database, client: Address, p: Profile, q: Profile)
    requires WellFormed(db) && ProfileOf(db, client, p) && ProfileOf(db, client, q)
    ensures p == q
  {
    if p.id == q.id {
      SameProfile(db, p, q);
    }
  }

  /** The rendered configuration does what the tables say, for every client without a conflict; only a local record at the
      block address looks like a block too. */
  lemma ServedIs(db: Database, norm: Normalizer, now: Instant, domain: string, client: Address, p: Profile)
    requires WellFormed(db) && Normalized(db, norm) && !Conflict(db, client) && ProfileOf(db, client, p) && ReadTimes(p.plan)
    requires norm(domain).Some?
    ensures Render(db, norm, now).Some?
    ensures var n := norm(domain).value;
      ServedBlocked(Render(db, norm, now).value, client, n) <==>
        IsToBeBlocked(db, now, client, p, n) || HostLine("0.0.0.0", n) in db.records
  {
    var n := norm(domain).value;
    SelectedIs(db, client, p);
    var d := if PauseApplies(db, client, now) then Decision(true, DevicePaused, None) else Decide(db, now, p, n);
    ExplainerAgreesWithCompiler(db, norm, now, domain, client, d);
    ExplainedIs(db, norm, now, domain, client, p, d);
  }
}
