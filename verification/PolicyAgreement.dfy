/** The explainer and the compiler give the same answer, and exactly when they do not. */
module PolicyAgreement {
  import opened Basics
  import opened Schedule
  import opened Policy

  /** What the schema's keys, its unique default and its foreign keys guarantee. */
  predicate WellFormed(db: Database) {
    && (forall i, j :: 0 <= i < j < |db.profiles| ==> db.profiles[i].id < db.profiles[j].id)
    && (exists p :: p in db.profiles && p.isDefault)
    && (forall p, q :: p in db.profiles && q in db.profiles && p.isDefault && q.isDefault ==> p == q)
    && (forall d :: d in db.memberships ==> exists p :: p in db.profiles && p.id == db.memberships[d])
    && (forall a :: a in db.assignments ==> exists p :: p in db.profiles && p.id == db.assignments[a])
  }

  predicate IsNormal(norm: Normalizer, text: string) {
    norm(text) == Some(text)
  }

  /** Every stored domain is in normal form. */
  predicate Normalized(db: Database, norm: Normalizer) {
    && (forall e :: e in db.allow ==> IsNormal(norm, e.1))
    && (forall e :: e in db.block ==> IsNormal(norm, e.1))
    && (forall e :: e in db.listEntries ==> IsNormal(norm, e.1))
    && (forall i :: 0 <= i < |db.trials| ==> IsNormal(norm, db.trials[i].domain))
  }

  // ----- which block serves a client

  predicate Covers(db: Database, client: Address, p: Profile) {
    p.isDefault || IsMember(db, client, p.id) || IsAssigned(db, client, p.id)
  }

  /** p is rendered before q. */
  predicate Before(p: Profile, q: Profile) {
    if p.isDefault != q.isDefault then q.isDefault else p.id < q.id
  }

  predicate Ordered(profiles: seq<Profile>) {
    forall i, j :: 0 <= i < j < |profiles| ==> Before(profiles[i], profiles[j])
  }

  lemma {:induction false} WhereSelects(profiles: seq<Profile>, isDefault: bool)
    requires forall i, j :: 0 <= i < j < |profiles| ==> profiles[i].id < profiles[j].id
    ensures Ordered(Where(profiles, isDefault))
    ensures forall p :: p in Where(profiles, isDefault) <==> p in profiles && p.isDefault == isDefault
  {
    if profiles != [] {
      WhereSelects(profiles[1..], isDefault);
      assert forall p :: p in profiles <==> p == profiles[0] || p in profiles[1..];
      assert forall i :: 0 <= i < |profiles[1..]| ==> profiles[1..][i] == profiles[i + 1];
      var rest := Where(profiles[1..], isDefault);
      forall i | 0 <= i < |rest|
        ensures profiles[0].id < rest[i].id && rest[i].isDefault == isDefault
      {
        assert rest[i] in rest;
        assert rest[i] in profiles[1..];
      }
    }
  }

  lemma RenderOrderIsOrdered(db: Database)
    requires WellFormed(db)
    ensures Ordered(RenderOrder(db))
    ensures forall p :: p in RenderOrder(db) <==> p in db.profiles
  {
    WhereSelects(db.profiles, false);
    WhereSelects(db.profiles, true);
    var a, b := Where(db.profiles, false), Where(db.profiles, true);
    forall i, j | 0 <= i < |a| && 0 <= j < |b|
      ensures Before(a[i], b[j])
    {
      assert a[i] in a && b[j] in b;
    }
  }

  /** A client is served by the first rendered profile that covers it. */
  lemma {:induction false} FirstCovering(db: Database, profiles: seq<Profile>, client: Address) returns (p: Profile)
    requires Ordered(profiles) && exists q :: q in profiles && Covers(db, client, q)
    ensures p in profiles && Covers(db, client, p)
    ensures FirstMatch(PolicyBlocks(db, profiles), client).Some?
    ensures FirstMatch(PolicyBlocks(db, profiles), client).value.Policy?
    ensures FirstMatch(PolicyBlocks(db, profiles), client).value.profile == p.id
    ensures forall q :: q in profiles && Covers(db, client, q) ==> q == p || Before(p, q)
    decreases |profiles|
  {
    var head, rest := profiles[0], profiles[1..];
    assert client in ClientAddresses(db, head.id) <==> IsMember(db, client, head.id) || IsAssigned(db, client, head.id);
    assert forall q :: q in profiles <==> q == head || q in rest;
    if Covers(db, client, head) {
      p := head;
      forall q | q in profiles && q != head
        ensures Before(head, q)
      {
        var i :| 0 <= i < |profiles| && profiles[i] == q;
      }
    } else {
      p := FirstCovering(db, rest, client);
      var blocks := PolicyBlocks(db, profiles);
      if ClientAddresses(db, head.id) != {} {
        assert blocks[1..] == PolicyBlocks(db, rest);
      }
    }
  }

  lemma {:induction false} FirstMatchOfTwo(a: seq<ServerBlock>, b: seq<ServerBlock>, client: Address)
    ensures FirstMatch(a + b, client) == if FirstMatch(a, client).Some? then FirstMatch(a, client) else FirstMatch(b, client)
    decreases |a|
  {
    if a == [] {
      assert a + b == b;
    } else {
      FirstMatchOfTwo(a[1..], b, client);
      assert (a + b)[1..] == a[1..] + b;
    }
  }

  lemma {:induction false} PausedMatch(db: Database, pauses: seq<Pause>, now: Instant, client: Address)
    ensures var first := FirstMatch(PausedDevices(db, pauses, now), client);
      && (first.Some? ==> first.value.Refuse?)
      && (first.Some? <==> (client in db.addresses &&
          exists i :: 0 <= i < |pauses| && pauses[i].device == db.addresses[client] && PausedAt(pauses[i].until, now)))
    decreases |pauses|
  {
    if pauses != [] {
      PausedMatch(db, pauses[1..], now, client);
      var blocks, rest := PausedDevices(db, pauses, now), PausedDevices(db, pauses[1..], now);
      var clients := DeviceAddresses(db, pauses[0].device);
      assert client in clients <==> client in db.addresses && db.addresses[client] == pauses[0].device;
      assert forall i :: 0 < i < |pauses| ==> pauses[i] == pauses[1..][i - 1];
      if PausedAt(pauses[0].until, now) && clients != {} {
        assert blocks[1..] == rest;
      }
    }
  }

  // ----- the profile both use

  /** The client's device belongs to one profile while its address is assigned to another that is rendered first. */
  predicate Conflict(db: Database, client: Address) {
    exists m, a :: m in db.profiles && a in db.profiles && IsMember(db, client, m.id) && IsAssigned(db, client, a.id) && Before(a, m)
  }

  /** The profile that serves a client: what the first matching policy block names. */
  predicate Serves(db: Database, client: Address, p: Profile) {
    && p in db.profiles
    && FirstMatch(PolicyBlocks(db, RenderOrder(db)), client).Some?
    && FirstMatch(PolicyBlocks(db, RenderOrder(db)), client).value.Policy?
    && FirstMatch(PolicyBlocks(db, RenderOrder(db)), client).value.profile == p.id
  }

  lemma SameProfile(db: Database, p: Profile, q: Profile)
    requires WellFormed(db) && p in db.profiles && q in db.profiles && p.id == q.id
    ensures p == q
  {
    var i :| 0 <= i < |db.profiles| && db.profiles[i] == p;
    var j :| 0 <= j < |db.profiles| && db.profiles[j] == q;
    assert i == j;
  }

  lemma OneMember(db: Database, client: Address, m: Profile, m': Profile)
    requires WellFormed(db) && m in db.profiles && m' in db.profiles
    requires (IsMember(db, client, m.id) && IsMember(db, client, m'.id)) || (IsAssigned(db, client, m.id) && IsAssigned(db, client, m'.id))
    ensures m == m'
  {
    SameProfile(db, m, m');
  }

  /** Serving is being the first in rendering order that covers the client. */
  lemma ServesIsFirst(db: Database, client: Address, serving: Profile)
    requires WellFormed(db) && Serves(db, client, serving)
    ensures IsFirst(db, client, serving)
  {
    RenderOrderIsOrdered(db);
    var default :| default in db.profiles && default.isDefault;
    assert default in RenderOrder(db) && Covers(db, client, default);
    var p := FirstCovering(db, RenderOrder(db), client);
    SameProfile(db, p, serving);
  }

  /** The compiler serves a client by the profile the explainer selects if and only if there is no conflict. */
  lemma SelectionAgreesExactlyWhen(db: Database, client: Address, selected: Profile, serving: Profile)
    requires WellFormed(db) && Selects(db, client, selected) && Serves(db, client, serving)
    ensures selected == serving <==> !Conflict(db, client)
  {
    ServesIsFirst(db, client, serving);
    FirstAgreesExactlyWhen(db, client, selected, serving);
  }

  predicate IsFirst(db: Database, client: Address, serving: Profile) {
    && serving in db.profiles && Covers(db, client, serving)
    && forall q :: q in db.profiles && Covers(db, client, q) ==> q == serving || Before(serving, q)
  }

  lemma FirstAgreesExactlyWhen(db: Database, client: Address, selected: Profile, serving: Profile)
    requires WellFormed(db) && Selects(db, client, selected) && IsFirst(db, client, serving)
    ensures selected == serving <==> !Conflict(db, client)
  {
    if Conflict(db, client) {
      var m, a :| m in db.profiles && a in db.profiles && IsMember(db, client, m.id) && IsAssigned(db, client, a.id) && Before(a, m);
      OneMember(db, client, m, selected);
      assert Covers(db, client, a);
    } else if selected != serving {
      assert Covers(db, client, selected);
      NoConflictAgrees(db, client, selected, serving);
    }
  }

  lemma NoConflictAgrees(db: Database, client: Address, selected: Profile, serving: Profile)
    requires WellFormed(db) && Selects(db, client, selected) && serving in db.profiles && Covers(db, client, serving)
    requires Before(serving, selected)
    ensures Conflict(db, client)
  {
    if IsMember(db, client, serving.id) {
      OneMember(db, client, serving, selected);
    } else if IsAssigned(db, client, serving.id) && !IsMember(db, client, selected.id) {
      OneMember(db, client, serving, selected);
    }
  }

  // ----- the answer of one profile

  lemma NormalMembers(norm: Normalizer, domains: set<string>, n: Domain)
    requires forall d :: d in domains ==> IsNormal(norm, d)
    requires AllNormalize(norm, domains)
    ensures n in NormalizeAll(norm, domains) <==> n in domains
  {
    assert n in domains ==> norm(n).value in NormalizeAll(norm, domains);
  }

  lemma AllowedIsException(db: Database, now: Instant, id: ProfileId, n: Domain)
    ensures n in Allowed(db, now, id) <==> HasException(db, now, id, n)
  {
    assert (id, n) in db.allow <==> n in (set e | e in db.allow && e.0 == id :: e.1) by {
      assert (id, n).1 == n;
    }
    assert (exists i :: 0 <= i < |db.trials| && db.trials[i].profile == id && db.trials[i].domain == n && LiveTrial(db.trials[i], now))
      <==> n in (set i | 0 <= i < |db.trials| && db.trials[i].profile == id && LiveTrial(db.trials[i], now) :: db.trials[i].domain);
  }

  lemma BlockedIsMatched(db: Database, id: ProfileId, n: Domain)
    ensures n in Blocked(db, id) <==> (id, n) in db.block || |MatchingLists(db, id, n)| >= 1
  {
    var lists := MatchingLists(db, id, n);
    assert (id, n).1 == n;
    if e :| e in db.listEntries && e.0 in db.enabledLists && (id, e.0) in db.profileLists && e.1 == n {
      assert e.0 in lists;
    }
    if |lists| >= 1 {
      var l := AnyElement(lists);
      assert (l, n) in db.listEntries;
      assert (l, n).1 == n;
    }
  }

  lemma BlockLineOf(db: Database, norm: Normalizer, now: Instant, p: Profile, n: Domain)
    requires Normalized(db, norm)
    ensures Active(p, now) ==> BlockHosts(db, norm, now, p.id).Some?
    ensures HostLine(BLOCK_IP, n) in HostsFile(db, norm, now, p) <==> HostLine(BLOCK_IP, n) in db.records || Decide(db, now, p, n).blocked
  {
    var allowed, blocked := Allowed(db, now, p.id), Blocked(db, p.id);
    forall d | d in allowed + blocked
      ensures IsNormal(norm, d)
    {
    }
    NormalMembers(norm, allowed, n);
    NormalMembers(norm, blocked, n);
    AllowedIsException(db, now, p.id, n);
    BlockedIsMatched(db, p.id, n);
    var lines := BlockHosts(db, norm, now, p.id).value;
    var domains := NormalizeAll(norm, blocked) - NormalizeAll(norm, allowed);
    assert n in domains ==> HostLine(BLOCK_IP, n) in lines;
  }

  lemma {:induction false} HostsFileOf(db: Database, norm: Normalizer, now: Instant, n: nat, i: nat)
    requires WellFormed(db) && Renderable(db, norm, now) && i < n <= |db.profiles|
    ensures db.profiles[i].id in HostsFiles(db, norm, now, n)
    ensures HostsFiles(db, norm, now, n)[db.profiles[i].id] == HostsFile(db, norm, now, db.profiles[i])
    decreases n
  {
    if i < n - 1 {
      HostsFileOf(db, norm, now, n - 1, i);
    }
  }

  // ----- the two evaluators

  /** For every database the schema admits whose domains are in normal form, every client without a conflict and every
      valid domain: what the explainer answers is what the rendered configuration does, except that a local record
      which itself points at the block address looks like a block. */
  lemma ExplainerAgreesWithCompiler(db: Database, norm: Normalizer, now: Instant, domain: string, client: Address, d: Decision)
    requires WellFormed(db) && Normalized(db, norm) && !Conflict(db, client)
    requires norm(domain).Some? && Explains(db, norm, now, domain, client, d)
    ensures Render(db, norm, now).Some?
    ensures var n := norm(domain).value;
      ServedBlocked(Render(db, norm, now).value, client, n) <==> d.blocked || HostLine(BLOCK_IP, n) in db.records
  {
    var n := norm(domain).value;
    if PauseApplies(db, client, now) {
      RendersAlways(db, norm, now);
      PausedMatch(db, db.pauses, now, client);
      FirstMatchOfTwo(PausedDevices(db, db.pauses, now), PolicyBlocks(db, RenderOrder(db)), client);
    } else {
      var p := ServingProfile(db, client);
      ServedAsDecided(db, norm, now, client, p, n);
      var q :| Selects(db, client, q) && d == Decide(db, now, q, n);
      SelectionAgreesExactlyWhen(db, client, q, p);
    }
  }

  lemma RendersAlways(db: Database, norm: Normalizer, now: Instant)
    requires WellFormed(db) && Normalized(db, norm)
    ensures Render(db, norm, now).Some?
  {
    forall i | 0 <= i < |db.profiles| && Active(db.profiles[i], now)
      ensures BlockHosts(db, norm, now, db.profiles[i].id).Some?
    {
      BlockLineOf(db, norm, now, db.profiles[i], "");
    }
  }

  /** A client whose device is not paused is served as the rules of its serving profile decide. */
  lemma ServedAsDecided(db: Database, norm: Normalizer, now: Instant, client: Address, p: Profile, n: Domain)
    requires WellFormed(db) && Normalized(db, norm) && Serves(db, client, p) && !PauseApplies(db, client, now)
    ensures Render(db, norm, now).Some?
    ensures ServedBlocked(Render(db, norm, now).value, client, n) <==> Decide(db, now, p, n).blocked || HostLine(BLOCK_IP, n) in db.records
  {
    RendersAlways(db, norm, now);
    PausedMatch(db, db.pauses, now, client);
    FirstMatchOfTwo(PausedDevices(db, db.pauses, now), PolicyBlocks(db, RenderOrder(db)), client);
    BlockLineOf(db, norm, now, p, n);
    var i :| 0 <= i < |db.profiles| && db.profiles[i] == p;
    HostsFileOf(db, norm, now, |db.profiles|, i);
  }

  /** Some profile serves every client, and the explainer selects one. */
  lemma ServingProfile(db: Database, client: Address) returns (p: Profile)
    requires WellFormed(db)
    ensures Serves(db, client, p)
    ensures exists q :: Selects(db, client, q)
  {
    RenderOrderIsOrdered(db);
    var default :| default in db.profiles && default.isDefault;
    assert default in RenderOrder(db) && Covers(db, client, default);
    p := FirstCovering(db, RenderOrder(db), client);
    if m :| m in db.profiles && IsMember(db, client, m.id) {
      assert Selects(db, client, m);
    } else if a :| a in db.profiles && IsAssigned(db, client, a.id) {
      assert Selects(db, client, a);
    } else {
      assert Selects(db, client, default);
    }
  }

  // ----- a conflict

  const ALWAYS: Plan := Plan(false, [], None, None, "")

  /** A device that belongs to profile 2, which blocks "x", while its address is assigned to profile 1, which does not. */
  const CONFLICTED: Database := Database(
    [Profile(1, false, None, ALWAYS), Profile(2, false, None, ALWAYS), Profile(3, true, None, ALWAYS)],
    map["a" := 7], map[7 := 2], map["a" := 1], [], [], {}, {(2, "x")}, {}, {}, {}, {})

  lemma ConflictedIsAdmitted()
    ensures WellFormed(CONFLICTED) && Normalized(CONFLICTED, name => Some(name)) && Conflict(CONFLICTED, "a")
  {
    var profiles := CONFLICTED.profiles;
    assert profiles[0] in profiles && profiles[1] in profiles && profiles[2] in profiles;
    assert IsMember(CONFLICTED, "a", profiles[1].id) && IsAssigned(CONFLICTED, "a", profiles[0].id);
  }

  /** The explainer says that "x" is blocked for this client, and the rendered configuration serves it. */
  lemma ExplainerMayDisagree(now: Instant, d: Decision)
    requires Explains(CONFLICTED, name => Some(name), now, "x", "a", d)
    ensures d.blocked
    ensures Render(CONFLICTED, name => Some(name), now).Some? && !ServedBlocked(Render(CONFLICTED, name => Some(name), now).value, "a", "x")
  {
    ConflictedIsAdmitted();
    var p := ServingProfile(CONFLICTED, "a");
    var q := SelectedProfile(CONFLICTED, name => Some(name), now, "x", "a", d);
    ConflictedServes(p);
    ConflictedSelects(q);
    ConflictedDecides(now, p, q);
    ServedAsDecided(CONFLICTED, name => Some(name), now, "a", p, "x");
  }

  lemma SelectedProfile(db: Database, norm: Normalizer, now: Instant, domain: string, client: Address, d: Decision) returns (q: Profile)
    requires WellFormed(db) && norm(domain).Some? && !PauseApplies(db, client, now) && Explains(db, norm, now, domain, client, d)
    ensures Selects(db, client, q) && d == Decide(db, now, q, norm(domain).value)
  {
    var p := ServingProfile(db, client);
    q :| Selects(db, client, q) && d == Decide(db, now, q, norm(domain).value);
  }

  lemma ConflictedDecides(now: Instant, p: Profile, q: Profile)
    requires p == CONFLICTED.profiles[0] && q == CONFLICTED.profiles[1]
    ensures !Decide(CONFLICTED, now, p, "x").blocked && Decide(CONFLICTED, now, q, "x").blocked
    ensures HostLine(BLOCK_IP, "x") !in CONFLICTED.records && !PauseApplies(CONFLICTED, "a", now)
  {
    assert |MatchingLists(CONFLICTED, 1, "x")| == 0;
  }

  lemma ConflictedServes(p: Profile)
    requires Serves(CONFLICTED, "a", p)
    ensures p == CONFLICTED.profiles[0]
  {
    ConflictedIsAdmitted();
    ServesIsFirst(CONFLICTED, "a", p);
    assert CONFLICTED.profiles[0] in CONFLICTED.profiles && Covers(CONFLICTED, "a", CONFLICTED.profiles[0]);
  }

  lemma ConflictedSelects(q: Profile)
    requires Selects(CONFLICTED, "a", q)
    ensures q == CONFLICTED.profiles[1]
  {
    ConflictedIsAdmitted();
    assert CONFLICTED.profiles[1] in CONFLICTED.profiles && IsMember(CONFLICTED, "a", CONFLICTED.profiles[1].id);
    OneMember(CONFLICTED, "a", CONFLICTED.profiles[1], q);
  }

  // ----- a record at the block address

  /** One profile without a rule, and a local record that points "x" at the block address. */
  const POINTED: Database := Database(
    [Profile(1, true, None, ALWAYS)], map[], map[], map[], [], [], {}, {}, {}, {}, {}, {HostLine(BLOCK_IP, "x")})

  lemma PointedIsAdmitted()
    ensures WellFormed(POINTED) && Normalized(POINTED, name => Some(name)) && !Conflict(POINTED, "a")
  {
    assert POINTED.profiles[0] in POINTED.profiles;
  }

  /** The explainer says that nothing blocks "x", and the rendered configuration answers with the block address. */
  lemma RecordLooksLikeBlock(now: Instant, d: Decision)
    requires Explains(POINTED, name => Some(name), now, "x", "a", d)
    ensures !d.blocked
    ensures Render(POINTED, name => Some(name), now).Some? && ServedBlocked(Render(POINTED, name => Some(name), now).value, "a", "x")
  {
    PointedIsAdmitted();
    ExplainerAgreesWithCompiler(POINTED, name => Some(name), now, "x", "a", d);
    var q := SelectedProfile(POINTED, name => Some(name), now, "x", "a", d);
    assert |MatchingLists(POINTED, q.id, "x")| == 0;
  }
}
