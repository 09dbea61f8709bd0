/** DNS policy: the compiler that renders server blocks and hosts files, and the explainer beside it. */
module Policy {
  import opened Basics
  import opened Schedule

  type Domain = string
  type Address = string
  type ProfileId = int
  type DeviceId = int

  /** db.NormalizeDomain: None for a name it rejects. */
  type Normalizer = string -> Option<Domain>

  datatype Profile = Profile(id: ProfileId, isDefault: bool, pausedUntil: Option<int>, plan: Plan)
  datatype Pause = Pause(device: DeviceId, until: Option<int>)
  datatype Trial = Trial(id: int, profile: ProfileId, domain: string, expires: int)
  datatype HostLine = HostLine(ip: string, host: Domain)

  const BLOCK_IP: string := "0.0.0.0"

  /** The tables the policy depends on. Rows of profiles, pauses and trials are in primary-key order. */
  datatype Database = Database(
    profiles: seq<Profile>,
    addresses: map<Address, DeviceId>,
    memberships: map<DeviceId, ProfileId>,
    assignments: map<Address, ProfileId>,
    pauses: seq<Pause>,
    trials: seq<Trial>,
    allow: set<(ProfileId, string)>,
    block: set<(ProfileId, string)>,
    enabledLists: set<int>,
    profileLists: set<(ProfileId, int)>,
    listEntries: set<(int, string)>,
    records: set<HostLine>)

  predicate Active(p: Profile, now: Instant) {
    !PausedAt(p.pausedUntil, now) && ActiveAt(p.plan, now)
  }

  predicate LiveTrial(t: Trial, now: Instant) {
    now.at < t.expires
  }

  // ----- the compiler

  /** A view restricts a block to its clients; the default profile's block has none. */
  datatype ServerBlock = Refuse(device: DeviceId, clients: set<Address>) | Policy(profile: ProfileId, view: Option<set<Address>>)

  datatype Rendered = Rendered(blocks: seq<ServerBlock>, hosts: map<ProfileId, set<HostLine>>)

  function DeviceAddresses(db: Database, device: DeviceId): set<Address> {
    set a | a in db.addresses && db.addresses[a] == device
  }

  function PausedDevices(db: Database, pauses: seq<Pause>, now: Instant): seq<ServerBlock> {
    if pauses == [] then []
    else
      var rest := PausedDevices(db, pauses[1..], now);
      var clients := DeviceAddresses(db, pauses[0].device);
      if PausedAt(pauses[0].until, now) && clients != {} then [Refuse(pauses[0].device, clients)] + rest else rest
  }

  predicate IsMember(db: Database, a: Address, id: ProfileId) {
    a in db.addresses && db.addresses[a] in db.memberships && db.memberships[db.addresses[a]] == id
  }

  predicate IsAssigned(db: Database, a: Address, id: ProfileId) {
    a in db.assignments && db.assignments[a] == id
  }

  /** Addresses of member devices, and addresses assigned directly. */
  function ClientAddresses(db: Database, id: ProfileId): set<Address> {
    (set a | a in db.addresses && IsMember(db, a, id)) + (set a | a in db.assignments && IsAssigned(db, a, id))
  }

  /** ORDER BY is_default, id */
  function Where(profiles: seq<Profile>, isDefault: bool): seq<Profile> {
    if profiles == [] then []
    else (if profiles[0].isDefault == isDefault then [profiles[0]] else []) + Where(profiles[1..], isDefault)
  }

  function RenderOrder(db: Database): seq<Profile> {
    Where(db.profiles, false) + Where(db.profiles, true)
  }

  /** A profile other than the default that has no clients gets no block. */
  function PolicyBlocks(db: Database, profiles: seq<Profile>): seq<ServerBlock> {
    if profiles == [] then []
    else
      var p, rest := profiles[0], PolicyBlocks(db, profiles[1..]);
      var clients := ClientAddresses(db, p.id);
      if p.isDefault then [Policy(p.id, None)] + rest
      else if clients == {} then rest
      else [Policy(p.id, Some(clients))] + rest
  }

  function Allowed(db: Database, now: Instant, id: ProfileId): set<string> {
    (set e | e in db.allow && e.0 == id :: e.1)
    + (set i | 0 <= i < |db.trials| && db.trials[i].profile == id && LiveTrial(db.trials[i], now) :: db.trials[i].domain)
  }

  function Blocked(db: Database, id: ProfileId): set<string> {
    (set e | e in db.block && e.0 == id :: e.1)
    + (set e | e in db.listEntries && e.0 in db.enabledLists && (id, e.0) in db.profileLists :: e.1)
  }

  predicate AllNormalize(norm: Normalizer, domains: set<string>) {
    forall d :: d in domains ==> norm(d).Some?
  }

  function NormalizeAll(norm: Normalizer, domains: set<string>): set<Domain>
    requires AllNormalize(norm, domains)
  {
    set d | d in domains :: norm(d).value
  }

  /** None when a stored domain is invalid: the whole render then fails. */
  function BlockHosts(db: Database, norm: Normalizer, now: Instant, id: ProfileId): Option<set<HostLine>> {
    if AllNormalize(norm, Allowed(db, now, id)) && AllNormalize(norm, Blocked(db, id)) then
      var domains := NormalizeAll(norm, Blocked(db, id)) - NormalizeAll(norm, Allowed(db, now, id));
      Some(set d | d in domains :: HostLine(BLOCK_IP, d))
    else None
  }

  predicate Renderable(db: Database, norm: Normalizer, now: Instant) {
    db.profiles != [] && forall i :: 0 <= i < |db.profiles| && Active(db.profiles[i], now) ==>
      BlockHosts(db, norm, now, db.profiles[i].id).Some?
  }

  /** Local records come first in every hosts file; an inactive profile blocks nothing. */
  function HostsFile(db: Database, norm: Normalizer, now: Instant, p: Profile): set<HostLine>
    requires Active(p, now) ==> BlockHosts(db, norm, now, p.id).Some?
  {
    db.records + if Active(p, now) then BlockHosts(db, norm, now, p.id).value else {}
  }

  function HostsFiles(db: Database, norm: Normalizer, now: Instant, n: nat): map<ProfileId, set<HostLine>>
    requires Renderable(db, norm, now) && n <= |db.profiles|
  {
    if n == 0 then map[]
    else HostsFiles(db, norm, now, n - 1)[db.profiles[n - 1].id := HostsFile(db, norm, now, db.profiles[n - 1])]
  }

  function Render(db: Database, norm: Normalizer, now: Instant): Option<Rendered> {
    if !Renderable(db, norm, now) then None
    else Some(Rendered(PausedDevices(db, db.pauses, now) + PolicyBlocks(db, RenderOrder(db)),
                       HostsFiles(db, norm, now, |db.profiles|)))
  }

  // ----- what the rendered configuration does to a query

  /** CoreDNS serves a query from the first block whose view admits the client. */
  function FirstMatch(blocks: seq<ServerBlock>, client: Address): Option<ServerBlock> {
    if blocks == [] then None
    else if Admits(blocks[0], client) then Some(blocks[0])
    else FirstMatch(blocks[1..], client)
  }

  predicate Admits(block: ServerBlock, client: Address) {
    match block
    case Refuse(_, clients) => client in clients
    case Policy(_, view) => view.None? || client in view.value
  }

  /** The query is refused, or its hosts file answers it with the block address. */
  predicate ServedBlocked(r: Rendered, client: Address, domain: Domain) {
    match FirstMatch(r.blocks, client)
    case None => false
    case Some(Refuse(_, _)) => true
    case Some(Policy(id, _)) => id in r.hosts && HostLine(BLOCK_IP, domain) in r.hosts[id]
  }

  // ----- the explainer

  datatype Reason = NoRule | InvalidDomain | DevicePaused | Bypassed | Exception | CustomBlock | Blocklists(count: nat) | LocalRecord

  datatype Decision = Decision(blocked: bool, reason: Reason, profile: Option<ProfileId>)

  /** The pause row of the device that owns the address; both columns are keys, so there is at most one. */
  predicate PauseApplies(db: Database, client: Address, now: Instant) {
    client in db.addresses &&
    exists i :: 0 <= i < |db.pauses| && db.pauses[i].device == db.addresses[client] && PausedAt(db.pauses[i].until, now)
  }

  /** ORDER BY membership, assignment, default LIMIT 1 */
  predicate Selects(db: Database, client: Address, p: Profile) {
    && p in db.profiles
    && if exists q :: q in db.profiles && IsMember(db, client, q.id) then IsMember(db, client, p.id)
       else if exists q :: q in db.profiles && IsAssigned(db, client, q.id) then IsAssigned(db, client, p.id)
       else p.isDefault
  }

  predicate HasRecord(db: Database, domain: Domain) {
    exists line :: line in db.records && line.host == domain
  }

  function MatchingLists(db: Database, id: ProfileId, domain: Domain): set<int> {
    set e | e in db.listEntries && e.1 == domain && e.0 in db.enabledLists && (id, e.0) in db.profileLists :: e.0
  }

  predicate HasException(db: Database, now: Instant, id: ProfileId, domain: Domain) {
    || (id, domain) in db.allow
    || exists i :: 0 <= i < |db.trials| && db.trials[i].profile == id && db.trials[i].domain == domain && LiveTrial(db.trials[i], now)
  }

  /** ExplainDomainForClient, once the profile is selected. */
  function Decide(db: Database, now: Instant, p: Profile, domain: Domain): Decision {
    var lists := MatchingLists(db, p.id, domain);
    if !Active(p, now) then Decision(false, Bypassed, Some(p.id))
    else if HasException(db, now, p.id, domain) then Decision(false, Exception, Some(p.id))
    else if (p.id, domain) in db.block then Decision(true, CustomBlock, Some(p.id))
    else if |lists| >= 1 then Decision(true, Blocklists(|lists|), Some(p.id))
    else Decision(false, if HasRecord(db, domain) then LocalRecord else NoRule, Some(p.id))
  }

  /** d is what the explainer may answer. */
  ghost predicate Explains(db: Database, norm: Normalizer, now: Instant, domain: string, client: Address, d: Decision) {
    if norm(domain).None? then d == Decision(false, InvalidDomain, None)
    else if PauseApplies(db, client, now) then d == Decision(true, DevicePaused, None)
    else if exists p :: Selects(db, client, p) then
      exists p :: Selects(db, client, p) && d == Decide(db, now, p, norm(domain).value)
    else !d.blocked && d.profile.None?
  }

  /** ExplainDomainForClient for a client address. */
  method Explain(db: Database, norm: Normalizer, now: Instant, domain: string, client: Address) returns (d: Decision)
    ensures Explains(db, norm, now, domain, client, d)
  {
    var normalized := norm(domain);
    if normalized.None? {
      return Decision(false, InvalidDomain, None);
    }
    if PauseApplies(db, client, now) {
      return Decision(true, DevicePaused, None);
    }
    var best: Option<Profile> := None;
    var rank := 3;
    for i := 0 to |db.profiles|
      invariant best.Some? ==> best.value in db.profiles[..i] && rank == Rank(db, client, best.value) < 3
      invariant best.None? ==> rank == 3
      invariant forall j :: 0 <= j < i ==> Rank(db, client, db.profiles[j]) >= rank
    {
      assert db.profiles[..i + 1] == db.profiles[..i] + [db.profiles[i]];
      var here := Rank(db, client, db.profiles[i]);
      if here < rank {
        best, rank := Some(db.profiles[i]), here;
      }
    }
    assert db.profiles[..|db.profiles|] == db.profiles;
    BestIsSelected(db, client, best, rank);
    if best.None? {
      return Decision(false, if HasRecord(db, normalized.value) then LocalRecord else NoRule, None);
    }
    d := Decide(db, now, best.value, normalized.value);
  }

  function Rank(db: Database, client: Address, p: Profile): nat {
    if IsMember(db, client, p.id) then 0 else if IsAssigned(db, client, p.id) then 1 else if p.isDefault then 2 else 3
  }

  lemma BestIsSelected(db: Database, client: Address, best: Option<Profile>, rank: nat)
    requires best.Some? ==> best.value in db.profiles && rank == Rank(db, client, best.value) < 3
    requires best.None? ==> rank == 3
    requires forall p :: p in db.profiles ==> Rank(db, client, p) >= rank
    ensures best.Some? ==> Selects(db, client, best.value)
    ensures best.None? ==> forall p :: !Selects(db, client, p)
  {
  }
}
