/** Device identity: addresses and identifiers gather under devices, and devices merge when evidence says they are one. */
module Devices {
  import opened Basics

  type DeviceId = nat
  type Address = string
  type ProtectionId = int

  datatype Identifier = Identifier(kind: string, value: string)
  datatype Device = Device(name: string, location: string, notes: string, confirmed: bool)
  datatype Query = Query(client: string, text: string, device: DeviceId)

  datatype Tables = Tables(
    devices: map<DeviceId, Device>,
    addresses: map<Address, DeviceId>,
    identifiers: map<Identifier, DeviceId>,
    memberships: map<DeviceId, ProtectionId>,
    queries: seq<Query>,
    nextId: DeviceId)

  /** Text comparisons of the surroundings: blank after trimming, and equal up to case. */
  datatype Words = Words(blank: string -> bool, same: (string, string) -> bool)

  /** Every address and every identifier belongs to one existing device; identifiers of devices are not reused. */
  predicate Valid(t: Tables) {
    && t.nextId >= 1
    && (forall d :: d in t.devices ==> 1 <= d < t.nextId)
    && (forall a :: a in t.addresses ==> t.addresses[a] in t.devices)
    && (forall i :: i in t.identifiers ==> t.identifiers[i] in t.devices)
    && (forall d :: d in t.memberships ==> d in t.devices)
    && (forall i :: 0 <= i < |t.queries| ==> t.queries[i].device < t.nextId)
  }

  /** No query row names a device that does not exist. */
  predicate NoDangling(t: Tables) {
    forall i :: 0 <= i < |t.queries| ==> t.queries[i].device in t.devices
  }

  // ----- merging two devices

  predicate CanMerge(t: Tables, target: DeviceId, source: DeviceId, words: Words)
    requires target in t.devices && source in t.devices
  {
    var a, b := t.devices[target], t.devices[source];
    && !(a.confirmed && b.confirmed && !words.blank(a.name) && !words.same(a.name, b.name))
    && !(target in t.memberships && source in t.memberships && t.memberships[target] != t.memberships[source])
  }

  function Moved(d: DeviceId, target: DeviceId, source: DeviceId): DeviceId {
    if d == source then target else d
  }

  function MovedAll<K>(m: map<K, DeviceId>, target: DeviceId, source: DeviceId): map<K, DeviceId> {
    map k | k in m :: Moved(m[k], target, source)
  }

  function MovedRows(queries: seq<Query>, target: DeviceId, source: DeviceId): seq<Query> {
    seq(|queries|, i requires 0 <= i < |queries| => queries[i].(device := Moved(queries[i].device, target, source)))
  }

  function Filled(a: Device, b: Device, words: Words): Device {
    Device(if words.blank(a.name) then b.name else a.name,
           if words.blank(a.location) then b.location else a.location,
           if words.blank(a.notes) then b.notes else a.notes,
           a.confirmed || b.confirmed)
  }

  function MergedMemberships(m: map<DeviceId, ProtectionId>, target: DeviceId, source: DeviceId): map<DeviceId, ProtectionId> {
    (if target !in m && source in m then m[target := m[source]] else m) - {source}
  }

  /** Everything of the source becomes the target's, and the source is gone. */
  function Merged(t: Tables, target: DeviceId, source: DeviceId, words: Words): Tables
    requires target in t.devices && source in t.devices
  {
    Tables(
      t.devices[target := Filled(t.devices[target], t.devices[source], words)] - {source},
      MovedAll(t.addresses, target, source),
      MovedAll(t.identifiers, target, source),
      MergedMemberships(t.memberships, target, source),
      MovedRows(t.queries, target, source),
      t.nextId)
  }

  // ----- how tables may change

  /** Where each device of the old tables went. */
  type Renaming = map<DeviceId, DeviceId>

  function Renamed(f: Renaming, d: DeviceId): DeviceId {
    if d in f then f[d] else d
  }

  /** Old rows are kept in order, each with its device renamed. */
  predicate RowsFollow(before: seq<Query>, after: seq<Query>, f: Renaming) {
    |before| <= |after| && forall i :: 0 <= i < |before| ==> after[i] == before[i].(device := Renamed(f, before[i].device))
  }

  /** A device either stays or was merged away for good; new devices have new ids. */
  predicate DevicesFollow(t: Tables, u: Tables, f: Renaming) {
    && f.Keys == t.devices.Keys
    && (forall d :: d in f ==> f[d] in u.devices && (f[d] == d <==> d in u.devices))
    && (forall d :: d in u.devices ==> d in t.devices || d >= t.nextId)
    && t.nextId <= u.nextId
  }

  predicate OwnersFollow<K>(before: map<K, DeviceId>, after: map<K, DeviceId>, f: Renaming) {
    forall k :: k in before ==> k in after && after[k] == Renamed(f, before[k])
  }

  predicate ProtectionsFollow(before: map<DeviceId, ProtectionId>, after: map<DeviceId, ProtectionId>, f: Renaming) {
    forall d :: d in before ==> Renamed(f, d) in after && after[Renamed(f, d)] == before[d]
  }

  /** Devices were only merged or added, and the addresses, identifiers, protection and query rows of a device went to the
      device it was merged into. */
  predicate Follows(t: Tables, u: Tables, f: Renaming) {
    && DevicesFollow(t, u, f)
    && OwnersFollow(t.addresses, u.addresses, f)
    && OwnersFollow(t.identifiers, u.identifiers, f)
    && ProtectionsFollow(t.memberships, u.memberships, f)
    && RowsFollow(t.queries, u.queries, f)
  }

  /** A field that says something is kept; a blank one may be filled in. */
  predicate FieldsKept(a: Device, b: Device, words: Words) {
    && (!words.blank(a.name) ==> b.name == a.name)
    && (!words.blank(a.location) ==> b.location == a.location)
    && (!words.blank(a.notes) ==> b.notes == a.notes)
  }

  /** A device that is still there keeps what its fields say, and confirmation goes with a device wherever it went. */
  predicate FieldsFollow(t: Tables, u: Tables, f: Renaming, words: Words) {
    forall d :: d in t.devices ==>
      && d in f && f[d] in u.devices && (t.devices[d].confirmed ==> u.devices[f[d]].confirmed)
      && (d in u.devices ==> FieldsKept(t.devices[d], u.devices[d], words))
  }

  function Same(t: Tables): Renaming {
    map d | d in t.devices :: d
  }

  function Then(f: Renaming, g: Renaming): Renaming {
    map d | d in f :: Renamed(g, f[d])
  }

  lemma FollowsSame(t: Tables)
    requires Valid(t)
    ensures Follows(t, t, Same(t))
  {
  }

  lemma DevicesFollowThen(t: Tables, u: Tables, v: Tables, f: Renaming, g: Renaming)
    requires Valid(t) && DevicesFollow(t, u, f) && DevicesFollow(u, v, g)
    ensures DevicesFollow(t, v, Then(f, g))
    ensures forall d: DeviceId :: d < t.nextId ==> Renamed(Then(f, g), d) == Renamed(g, Renamed(f, d))
  {
  }

  lemma FollowsThen(t: Tables, u: Tables, v: Tables, f: Renaming, g: Renaming)
    requires Valid(t) && Follows(t, u, f) && Follows(u, v, g)
    ensures Follows(t, v, Then(f, g))
  {
    DevicesFollowThen(t, u, v, f, g);
    var h := Then(f, g);
    forall i | 0 <= i < |t.queries|
      ensures v.queries[i] == t.queries[i].(device := Renamed(h, t.queries[i].device))
    {
      assert u.queries[i] == t.queries[i].(device := Renamed(f, t.queries[i].device));
    }
    assert forall d :: d in t.memberships ==> d < t.nextId && Renamed(h, d) == Renamed(g, Renamed(f, d));
  }

  lemma FieldsFollowThen(t: Tables, u: Tables, v: Tables, f: Renaming, g: Renaming, words: Words)
    requires Valid(t) && DevicesFollow(t, u, f) && DevicesFollow(u, v, g) && FieldsFollow(t, u, f, words) && FieldsFollow(u, v, g, words)
    ensures FieldsFollow(t, v, Then(f, g), words)
  {
    forall d | d in t.devices
      ensures d in Then(f, g) && Then(f, g)[d] in v.devices && (t.devices[d].confirmed ==> v.devices[Then(f, g)[d]].confirmed)
      ensures d in v.devices ==> FieldsKept(t.devices[d], v.devices[d], words)
    {
      assert Then(f, g)[d] == g[f[d]];
      if d in v.devices {
        assert d in u.devices || d >= u.nextId;
        assert d in u.devices;
      }
    }
  }

  lemma BothFollowThen(t: Tables, u: Tables, v: Tables, f: Renaming, g: Renaming, words: Words)
    requires Valid(t) && Follows(t, u, f) && Follows(u, v, g) && FieldsFollow(t, u, f, words) && FieldsFollow(u, v, g, words)
    ensures Follows(t, v, Then(f, g)) && FieldsFollow(t, v, Then(f, g), words)
  {
    FollowsThen(t, u, v, f, g);
    FieldsFollowThen(t, u, v, f, g, words);
  }

  /** The target keeps every field that says something and fills the others from the source, confirmation is never lost, all
      of the source is the target's now, and nothing else changes. */
  lemma MergeIs(t: Tables, target: DeviceId, source: DeviceId, words: Words)
    requires Valid(t) && target in t.devices && source in t.devices && target != source
    ensures var u, a, b := Merged(t, target, source, words), t.devices[target], t.devices[source];
      && u.devices.Keys == t.devices.Keys - {source} && u.nextId == t.nextId
      && (forall d :: d in u.devices && d != target ==> u.devices[d] == t.devices[d])
      && var c := u.devices[target];
      && c.name == (if words.blank(a.name) then b.name else a.name)
      && c.location == (if words.blank(a.location) then b.location else a.location)
      && c.notes == (if words.blank(a.notes) then b.notes else a.notes)
      && (c.confirmed <==> a.confirmed || b.confirmed)
      && u.addresses.Keys == t.addresses.Keys && u.identifiers.Keys == t.identifiers.Keys && |u.queries| == |t.queries|
      && (forall x :: x in t.addresses ==> u.addresses[x] == if t.addresses[x] == source then target else t.addresses[x])
      && (forall x :: x in t.identifiers ==> u.identifiers[x] == if t.identifiers[x] == source then target else t.identifiers[x])
      && (forall i :: 0 <= i < |t.queries| ==>
            && u.queries[i].client == t.queries[i].client && u.queries[i].text == t.queries[i].text
            && u.queries[i].device == if t.queries[i].device == source then target else t.queries[i].device)
      && (forall d :: d in u.memberships <==> d != source && (d in t.memberships || (d == target && source in t.memberships)))
      && (forall d :: d in u.memberships ==>
            u.memberships[d] == if d in t.memberships then t.memberships[d] else t.memberships[source])
  {
  }

  /** Two devices may be merged unless both are confirmed and the target has a name that is not the source's, or both have a
      protection and not the same one. */
  lemma CanMergeIs(t: Tables, target: DeviceId, source: DeviceId, words: Words)
    requires target in t.devices && source in t.devices
    ensures var a, b := t.devices[target], t.devices[source];
      CanMerge(t, target, source, words) <==>
        && (a.confirmed && b.confirmed ==> words.blank(a.name) || words.same(a.name, b.name))
        && (target in t.memberships && source in t.memberships ==> t.memberships[target] == t.memberships[source])
  {
  }

  /** A confirmed name survives the merge of its device exactly when the target has no name of its own, or the same. */
  lemma ConfirmedNameIsKeptExactlyWhen(t: Tables, target: DeviceId, source: DeviceId, words: Words)
    requires Valid(t) && target in t.devices && source in t.devices && target != source && CanMerge(t, target, source, words)
    requires t.devices[source].confirmed && !words.blank(t.devices[source].name)
    ensures Merged(t, target, source, words).devices[target].name == t.devices[source].name <==>
      words.blank(t.devices[target].name) || t.devices[target].name == t.devices[source].name
  {
  }

  /** The name the owner gave to a device is lost when the device is merged into one that only has a name from elsewhere. */
  lemma ConfirmedNameMayBeLost(words: Words, x: Identifier)
    requires !words.blank("tablet") && !words.blank("Anna")
    ensures
      var t := Tables(map[1 := Device("Anna", "", "", true), 2 := Device("tablet", "", "", false)],
                      map["a" := 1], map[x := 2], map[], [], 3);
      Valid(t) && SeenOne(t, 1, x, words).1 == 2 && SeenOne(t, 1, x, words).0.devices == map[2 := SeenOne(t, 1, x, words).0.devices[2]]
      && SeenOne(t, 1, x, words).0.devices[2].name == "tablet" && SeenOne(t, 1, x, words).0.devices[2].confirmed
  {
  }

  lemma MergeKeepsValid(t: Tables, target: DeviceId, source: DeviceId, words: Words)
    requires Valid(t) && target in t.devices && source in t.devices && target != source
    ensures Valid(Merged(t, target, source, words))
    ensures NoDangling(t) ==> NoDangling(Merged(t, target, source, words))
  {
  }

  /** A merge moves everything of the source to the target; a protection is never replaced or dropped. */
  lemma MergeFollows(t: Tables, target: DeviceId, source: DeviceId, words: Words)
    requires Valid(t) && target in t.devices && source in t.devices && target != source && CanMerge(t, target, source, words)
    ensures Follows(t, Merged(t, target, source, words), Same(t)[source := target])
  {
    var u, f := Merged(t, target, source, words), Same(t)[source := target];
    assert DevicesFollow(t, u, f);
    assert forall d :: d in t.devices ==> Renamed(f, d) == Moved(d, target, source);
    assert ProtectionsFollow(t.memberships, u.memberships, f);
    forall i | 0 <= i < |t.queries|
      ensures u.queries[i] == t.queries[i].(device := Renamed(f, t.queries[i].device))
    {
      assert Moved(t.queries[i].device, target, source) == Renamed(f, t.queries[i].device);
    }
  }

  lemma MergeKeepsFields(t: Tables, target: DeviceId, source: DeviceId, words: Words)
    requires Valid(t) && target in t.devices && source in t.devices && target != source
    ensures FieldsFollow(t, Merged(t, target, source, words), Same(t)[source := target], words)
  {
  }

  // ----- observing identifiers

  /** One identifier seen with device d: it joins d, or d is merged into its owner, or the conflict is left alone. */
  function SeenOne(t: Tables, d: DeviceId, id: Identifier, words: Words): (Tables, DeviceId)
    requires Valid(t) && d in t.devices
  {
    if id !in t.identifiers then (t.(identifiers := t.identifiers[id := d]), d)
    else
      var owner := t.identifiers[id];
      if owner != d && CanMerge(t, owner, d, words) then (Merged(t, owner, d, words), owner) else (t, d)
  }

  function SeenOneRenaming(t: Tables, d: DeviceId, id: Identifier, words: Words): Renaming
    requires Valid(t) && d in t.devices
  {
    if id in t.identifiers && t.identifiers[id] != d && CanMerge(t, t.identifiers[id], d, words) then Same(t)[d := t.identifiers[id]]
    else Same(t)
  }

  lemma SeenOneFollows(t: Tables, d: DeviceId, id: Identifier, words: Words)
    requires Valid(t) && d in t.devices
    ensures var r, f := SeenOne(t, d, id, words), SeenOneRenaming(t, d, id, words);
      && Valid(r.0) && Follows(t, r.0, f) && f[d] == r.1 && id in r.0.identifiers
      && |r.0.queries| == |t.queries| && (NoDangling(t) ==> NoDangling(r.0))
  {
    if id in t.identifiers && t.identifiers[id] != d && CanMerge(t, t.identifiers[id], d, words) {
      MergeKeepsValid(t, t.identifiers[id], d, words);
      MergeFollows(t, t.identifiers[id], d, words);
    } else {
      FollowsSame(t);
    }
  }

  lemma SeenOneKeepsFields(t: Tables, d: DeviceId, id: Identifier, words: Words)
    requires Valid(t) && d in t.devices
    ensures FieldsFollow(t, SeenOne(t, d, id, words).0, SeenOneRenaming(t, d, id, words), words)
  {
    if id in t.identifiers && t.identifiers[id] != d && CanMerge(t, t.identifiers[id], d, words) {
      MergeKeepsFields(t, t.identifiers[id], d, words);
    }
  }

  /** The identifiers from position k on. */
  function SeenAll(t: Tables, d: DeviceId, ids: seq<Identifier>, k: nat, words: Words): (Tables, DeviceId)
    requires Valid(t) && d in t.devices && k <= |ids|
    decreases |ids| - k
  {
    if k == |ids| then (t, d)
    else
      var r := SeenOne(t, d, ids[k], words);
      SeenOneFollows(t, d, ids[k], words);
      SeenAll(r.0, r.1, ids, k + 1, words)
  }

  lemma {:induction false} SeenAllFollows(t: Tables, d: DeviceId, ids: seq<Identifier>, k: nat, words: Words) returns (f: Renaming)
    requires Valid(t) && d in t.devices && k <= |ids|
    ensures var r := SeenAll(t, d, ids, k, words);
      && Valid(r.0) && Follows(t, r.0, f) && FieldsFollow(t, r.0, f, words) && f[d] == r.1
      && |r.0.queries| == |t.queries| && (NoDangling(t) ==> NoDangling(r.0))
    decreases |ids| - k
  {
    if k == |ids| {
      f := Same(t);
      FollowsSame(t);
    } else {
      var r := SeenOne(t, d, ids[k], words);
      SeenOneFollows(t, d, ids[k], words);
      var g := SeenAllFollows(r.0, r.1, ids, k + 1, words);
      SeenOneKeepsFields(t, d, ids[k], words);
      BothFollowThen(t, r.0, SeenAll(r.0, r.1, ids, k + 1, words).0, SeenOneRenaming(t, d, ids[k], words), g, words);
      f := Then(SeenOneRenaming(t, d, ids[k], words), g);
    }
  }

  // ----- observing an address

  /** Two of the identifiers belong to different devices. */
  predicate Conflicting(t: Tables, ids: seq<Identifier>) {
    exists i, j :: 0 <= i < |ids| && 0 <= j < |ids| && ids[i] in t.identifiers && ids[j] in t.identifiers &&
      t.identifiers[ids[i]] != t.identifiers[ids[j]]
  }

  /** The owner of the first identifier that has one. */
  function OwnerFrom(t: Tables, ids: seq<Identifier>, k: nat): (owner: Option<DeviceId>)
    requires k <= |ids|
    ensures owner.Some? ==> exists i :: k <= i < |ids| && ids[i] in t.identifiers && t.identifiers[ids[i]] == owner.value
    ensures owner.None? ==> forall i :: k <= i < |ids| ==> ids[i] !in t.identifiers
    decreases |ids| - k
  {
    if k == |ids| then None
    else if ids[k] in t.identifiers then Some(t.identifiers[ids[k]])
    else OwnerFrom(t, ids, k + 1)
  }

  /** The device of an address: the one it has, the one the identifiers name, or a new one. */
  function Placed(t: Tables, a: Address, matched: Option<DeviceId>): (Tables, DeviceId) {
    if a in t.addresses then (t, t.addresses[a])
    else if matched.Some? then (t.(addresses := t.addresses[a := matched.value]), matched.value)
    else
      var devices := t.devices[t.nextId := Device("", "", "", false)];
      (t.(devices := devices, addresses := t.addresses[a := t.nextId], nextId := t.nextId + 1), t.nextId)
  }

  lemma PlacedFollows(t: Tables, a: Address, matched: Option<DeviceId>)
    requires Valid(t) && (matched.Some? ==> matched.value in t.devices)
    ensures var r := Placed(t, a, matched);
      && Valid(r.0) && Follows(t, r.0, Same(t)) && r.1 in r.0.devices && a in r.0.addresses && r.0.addresses[a] == r.1
      && (NoDangling(t) ==> NoDangling(r.0))
  {
    FollowsSame(t);
    if a !in t.addresses && matched.None? {
      assert DevicesFollow(t, Placed(t, a, matched).0, Same(t));
    }
  }

  lemma PlacedKeepsFields(t: Tables, a: Address, matched: Option<DeviceId>, words: Words)
    requires Valid(t)
    ensures FieldsFollow(t, Placed(t, a, matched).0, Same(t), words)
  {
  }

  function Matched(t: Tables, ids: seq<Identifier>): (matched: Option<DeviceId>)
    requires Valid(t)
    ensures matched.Some? ==> matched.value in t.devices
  {
    if Conflicting(t, ids) then None else OwnerFrom(t, ids, 0)
  }

  function Observed(t: Tables, a: Address, ids: seq<Identifier>, words: Words): (Tables, DeviceId)
    requires Valid(t)
  {
    var r := Placed(t, a, Matched(t, ids));
    PlacedFollows(t, a, Matched(t, ids));
    if Conflicting(t, ids) then r else SeenAll(r.0, r.1, ids, 0, words)
  }

  /** An observation only merges and adds: every address and identifier still belongs to one existing device, the observed
      address to the device returned, and conflicting identifiers merge and move nothing. */
  lemma ObservationFollows(t: Tables, a: Address, ids: seq<Identifier>, words: Words) returns (f: Renaming)
    requires Valid(t)
    ensures var r := Observed(t, a, ids, words);
      && Valid(r.0) && Follows(t, r.0, f) && FieldsFollow(t, r.0, f, words) && a in r.0.addresses && r.0.addresses[a] == r.1
      && |r.0.queries| == |t.queries| && (NoDangling(t) ==> NoDangling(r.0))
      && (Conflicting(t, ids) ==> f == Same(t) && r.0.identifiers == t.identifiers && r.0.queries == t.queries)
  {
    var p := Placed(t, a, Matched(t, ids));
    PlacedFollows(t, a, Matched(t, ids));
    PlacedKeepsFields(t, a, Matched(t, ids), words);
    f := Same(t);
    if !Conflicting(t, ids) {
      var g := SeenAllFollows(p.0, p.1, ids, 0, words);
      BothFollowThen(t, p.0, SeenAll(p.0, p.1, ids, 0, words).0, Same(t), g, words);
      f := Then(Same(t), g);
    }
  }

  /** Addresses and identifiers of one device stay on one device, and an address keeps its protection. */
  predicate OnlyCoarser(t: Tables, u: Tables) {
    && (forall a :: a in t.addresses ==> a in u.addresses)
    && (forall i :: i in t.identifiers ==> i in u.identifiers)
    && (forall a, b :: a in t.addresses && b in t.addresses && t.addresses[a] == t.addresses[b] ==> u.addresses[a] == u.addresses[b])
    && (forall i, j :: i in t.identifiers && j in t.identifiers && t.identifiers[i] == t.identifiers[j] ==>
          u.identifiers[i] == u.identifiers[j])
    && (forall a, i :: a in t.addresses && i in t.identifiers && t.addresses[a] == t.identifiers[i] ==> u.addresses[a] == u.identifiers[i])
    && (forall a :: a in t.addresses && t.addresses[a] in t.memberships ==>
          u.addresses[a] in u.memberships && u.memberships[u.addresses[a]] == t.memberships[t.addresses[a]])
  }

  lemma FollowsIsCoarser(t: Tables, u: Tables, f: Renaming)
    requires Follows(t, u, f)
    ensures OnlyCoarser(t, u)
  {
  }

  // ----- exactly when an observation merges

  /** The identifiers from k on belong to d, to the owner, or to nobody yet. */
  predicate OwnedBy(t: Tables, ids: seq<Identifier>, k: nat, d: DeviceId, owner: DeviceId) {
    forall i :: k <= i < |ids| && ids[i] in t.identifiers ==> t.identifiers[ids[i]] == d || t.identifiers[ids[i]] == owner
  }

  lemma {:induction false} StaysApart(t: Tables, d: DeviceId, ids: seq<Identifier>, k: nat, owner: DeviceId, words: Words)
    requires Valid(t) && d in t.devices && owner in t.devices && k <= |ids| && OwnedBy(t, ids, k, d, owner)
    requires d != owner ==> !CanMerge(t, owner, d, words)
    ensures SeenAll(t, d, ids, k, words).1 == d && SeenAll(t, d, ids, k, words).0.devices == t.devices
    decreases |ids| - k
  {
    if k < |ids| {
      var r := SeenOne(t, d, ids[k], words);
      SeenOneFollows(t, d, ids[k], words);
      assert r.1 == d && r.0.devices == t.devices && r.0.memberships == t.memberships;
      StaysApart(r.0, d, ids, k + 1, owner, words);
    }
  }

  lemma OwnedAfterMerge(t: Tables, d: DeviceId, ids: seq<Identifier>, k: nat, owner: DeviceId, words: Words)
    requires d in t.devices && owner in t.devices && d != owner && k < |ids| && OwnedBy(t, ids, k, d, owner)
    ensures OwnedBy(Merged(t, owner, d, words), ids, k + 1, owner, owner)
    ensures owner in Merged(t, owner, d, words).devices && d !in Merged(t, owner, d, words).devices
  {
  }

  lemma {:induction false} JoinsOwner(t: Tables, d: DeviceId, ids: seq<Identifier>, k: nat, j: nat, owner: DeviceId, words: Words)
    requires Valid(t) && d in t.devices && owner in t.devices && d != owner && OwnedBy(t, ids, k, d, owner)
    requires k <= j < |ids| && ids[j] in t.identifiers && t.identifiers[ids[j]] == owner && CanMerge(t, owner, d, words)
    ensures SeenAll(t, d, ids, k, words).1 == owner && d !in SeenAll(t, d, ids, k, words).0.devices
    decreases |ids| - k
  {
    var r := SeenOne(t, d, ids[k], words);
    SeenOneFollows(t, d, ids[k], words);
    if ids[k] in t.identifiers && t.identifiers[ids[k]] == owner {
      assert r == (Merged(t, owner, d, words), owner);
      OwnedAfterMerge(t, d, ids, k, owner, words);
      StaysApart(r.0, owner, ids, k + 1, owner, words);
    } else {
      assert r.1 == d && r.0.devices == t.devices && r.0.memberships == t.memberships;
      JoinsOwner(r.0, d, ids, k + 1, j, owner, words);
    }
  }

  /** A known address whose device is not the owner of the identifiers moves to that owner exactly when the two devices
      may be merged; otherwise no device changes. */
  lemma MergesExactlyWhen(t: Tables, a: Address, ids: seq<Identifier>, words: Words)
    requires Valid(t) && a in t.addresses && Matched(t, ids).Some? && Matched(t, ids).value != t.addresses[a]
    ensures var owner, r := Matched(t, ids).value, Observed(t, a, ids, words);
      && (r.1 == owner <==> CanMerge(t, owner, t.addresses[a], words))
      && (r.1 == owner ==>
            var x, y := t.devices[owner], t.devices[t.addresses[a]];
            x.confirmed && y.confirmed ==> words.blank(x.name) || words.same(x.name, y.name))
      && (r.1 != owner ==> r.1 == t.addresses[a] && r.0.devices == t.devices)
  {
    var owner, d := Matched(t, ids).value, t.addresses[a];
    PlacedFollows(t, a, Matched(t, ids));
    var j :| 0 <= j < |ids| && ids[j] in t.identifiers && t.identifiers[ids[j]] == owner;
    assert OwnedBy(t, ids, 0, d, owner);
    if CanMerge(t, owner, d, words) {
      JoinsOwner(t, d, ids, 0, j, owner, words);
    } else {
      StaysApart(t, d, ids, 0, owner, words);
    }
  }

  predicate BelongTo(t: Tables, ids: seq<Identifier>, n: nat, d: DeviceId)
    requires n <= |ids|
  {
    forall i :: 0 <= i < n ==> ids[i] in t.identifiers && t.identifiers[ids[i]] == d
  }

  /** The identifiers before k belong to d, the others to d, to the owner or to nobody, and d may be merged into the owner. */
  predicate Gathering(t: Tables, d: DeviceId, ids: seq<Identifier>, k: nat, owner: DeviceId, words: Words) {
    && Valid(t) && d in t.devices && owner in t.devices && k <= |ids| && OwnedBy(t, ids, k, d, owner)
    && BelongTo(t, ids, k, d) && (d != owner ==> CanMerge(t, owner, d, words))
  }

  lemma OneJoins(t: Tables, d: DeviceId, ids: seq<Identifier>, k: nat, owner: DeviceId, words: Words)
    requires Gathering(t, d, ids, k, owner, words) && k < |ids|
    ensures var r := SeenOne(t, d, ids[k], words);
      Gathering(r.0, r.1, ids, k + 1, owner, words)
  {
    SeenOneFollows(t, d, ids[k], words);
    if d != owner && ids[k] in t.identifiers && t.identifiers[ids[k]] == owner {
      OwnedAfterMerge(t, d, ids, k, owner, words);
    }
  }

  lemma {:induction false} AllJoin(t: Tables, d: DeviceId, ids: seq<Identifier>, k: nat, owner: DeviceId, words: Words)
    requires Gathering(t, d, ids, k, owner, words)
    ensures BelongTo(SeenAll(t, d, ids, k, words).0, ids, |ids|, SeenAll(t, d, ids, k, words).1)
    decreases |ids| - k
  {
    if k < |ids| {
      var r := SeenOne(t, d, ids[k], words);
      OneJoins(t, d, ids, k, owner, words);
      AllJoin(r.0, r.1, ids, k + 1, owner, words);
    }
  }

  /** Evidence gathers: unless the identifiers conflict, or a known address is on a device that may not be merged into their
      owner, the address and every identifier seen with it end on one device. */
  lemma EvidenceGathers(t: Tables, a: Address, ids: seq<Identifier>, words: Words)
    requires Valid(t) && !Conflicting(t, ids)
    requires a in t.addresses && Matched(t, ids).Some? && Matched(t, ids).value != t.addresses[a] ==>
      CanMerge(t, Matched(t, ids).value, t.addresses[a], words)
    ensures var r := Observed(t, a, ids, words);
      && BelongTo(r.0, ids, |ids|, r.1) && a in r.0.addresses && r.0.addresses[a] == r.1
      && (a !in t.addresses && Matched(t, ids).Some? ==> r.1 == Matched(t, ids).value)
      && (a !in t.addresses && Matched(t, ids).None? ==> r.1 == t.nextId)
  {
    var matched := Matched(t, ids);
    var p := Placed(t, a, matched);
    PlacedFollows(t, a, matched);
    var owner := if matched.Some? then matched.value else p.1;
    AllJoin(p.0, p.1, ids, 0, owner, words);
    var f := ObservationFollows(t, a, ids, words);
    if p.1 == owner {
      StaysApart(p.0, p.1, ids, 0, owner, words);
    }
  }

  // ----- runs

  /** An observation, or a query row stored for a device that was resolved earlier. */
  datatype Event = Observation(address: Address, ids: seq<Identifier>) | Row(query: Query)

  predicate Possible(t: Tables, e: Event) {
    e.Row? ==> e.query.device < t.nextId
  }

  function After(t: Tables, e: Event, words: Words): Tables
    requires Valid(t)
  {
    match e
    case Observation(a, ids) => Observed(t, a, ids, words).0
    case Row(q) => t.(queries := t.queries + [q])
  }

  ghost predicate IsRun(run: seq<Tables>, events: seq<Event>, words: Words) {
    && |run| == |events| + 1 && Valid(run[0])
    && (forall i :: 0 <= i < |events| && Valid(run[i]) ==> Possible(run[i], events[i]) && run[i + 1] == After(run[i], events[i], words))
  }

  /** Every address and every identifier belongs to one existing device throughout a run. */
  lemma {:induction false} RunIsValid(run: seq<Tables>, events: seq<Event>, words: Words, j: nat)
    requires IsRun(run, events, words) && j < |run|
    ensures Valid(run[j])
    decreases j
  {
    if j > 0 {
      RunIsValid(run, events, words, j - 1);
      var f := EventFollows(run[j - 1], events[j - 1], words);
    }
  }

  lemma EventFollows(t: Tables, e: Event, words: Words) returns (f: Renaming)
    requires Valid(t) && Possible(t, e)
    ensures Valid(After(t, e, words)) && Follows(t, After(t, e, words), f) && FieldsFollow(t, After(t, e, words), f, words)
    ensures NoDangling(t) && (e.Row? ==> e.query.device in t.devices) ==> NoDangling(After(t, e, words))
  {
    match e
    case Observation(a, ids) => f := ObservationFollows(t, a, ids, words);
    case Row(q) => f := Same(t);
  }

  lemma OneEventMore(t: Tables, u: Tables, f: Renaming, e: Event, words: Words) returns (h: Renaming)
    requires Valid(t) && Valid(u) && Follows(t, u, f) && FieldsFollow(t, u, f, words) && Possible(u, e)
    ensures Follows(t, After(u, e, words), h) && FieldsFollow(t, After(u, e, words), h, words)
  {
    var g := EventFollows(u, e, words);
    BothFollowThen(t, u, After(u, e, words), f, g, words);
    h := Then(f, g);
  }

  /** Between any two points of a run, devices were only merged and added. */
  lemma {:induction false} RunFollows(run: seq<Tables>, events: seq<Event>, words: Words, i: nat, j: nat) returns (f: Renaming)
    requires IsRun(run, events, words) && i <= j < |run|
    ensures Follows(run[i], run[j], f) && FieldsFollow(run[i], run[j], f, words)
    decreases j
  {
    RunIsValid(run, events, words, i);
    if i == j {
      f := Same(run[i]);
      FollowsSame(run[i]);
    } else {
      RunIsValid(run, events, words, j - 1);
      f := RunFollows(run, events, words, i, j - 1);
      f := OneEventMore(run[i], run[j - 1], f, events[j - 1], words);
    }
  }

  /** Over a whole run: what shared a device still does, an address keeps its protection, a device that is still there keeps
      what its fields say, the device of an address stays confirmed, and no query row is lost, changed or moved. */
  lemma RunOnlyCoarsens(run: seq<Tables>, events: seq<Event>, words: Words, i: nat, j: nat)
    requires IsRun(run, events, words) && i <= j < |run|
    ensures OnlyCoarser(run[i], run[j])
    ensures |run[i].queries| <= |run[j].queries|
    ensures forall k :: 0 <= k < |run[i].queries| ==>
      run[j].queries[k].client == run[i].queries[k].client && run[j].queries[k].text == run[i].queries[k].text
    ensures forall d :: d in run[i].devices && d in run[j].devices ==> FieldsKept(run[i].devices[d], run[j].devices[d], words)
    ensures forall a :: a in run[i].addresses && run[i].addresses[a] in run[i].devices && run[i].devices[run[i].addresses[a]].confirmed ==>
      a in run[j].addresses && run[j].addresses[a] in run[j].devices && run[j].devices[run[j].addresses[a]].confirmed
  {
    var f := RunFollows(run, events, words, i, j);
    FollowsIsCoarser(run[i], run[j], f);
  }

  /** Exactly when no row of a run ends up without its device: every row must be stored while its device exists. */
  lemma {:induction false} RunDanglesExactlyWhen(run: seq<Tables>, events: seq<Event>, words: Words, j: nat)
    requires IsRun(run, events, words) && j < |run| && NoDangling(run[0])
    ensures NoDangling(run[j]) <==> forall k :: 0 <= k < j && events[k].Row? ==> events[k].query.device in run[k].devices
    decreases j
  {
    if j > 0 {
      RunDanglesExactlyWhen(run, events, words, j - 1);
      RunIsValid(run, events, words, j - 1);
      var f := EventFollows(run[j - 1], events[j - 1], words);
      if !NoDangling(run[j - 1]) {
        DanglingStays(run[j - 1], run[j], f);
      } else if events[j - 1].Row? {
        var n := |run[j - 1].queries|;
        assert run[j].queries[n] == events[j - 1].query;
      }
    }
  }

  /** A row that names no existing device never gets one again. */
  lemma DanglingStays(t: Tables, u: Tables, f: Renaming)
    requires Valid(t) && Follows(t, u, f) && !NoDangling(t)
    ensures !NoDangling(u)
  {
    var i :| 0 <= i < |t.queries| && t.queries[i].device !in t.devices;
    assert u.queries[i].device == t.queries[i].device;
  }

  /** Two addresses of one device, resolved one after the other, the second with evidence for another device: the answer
      for the first no longer names a device when the rows are stored. */
  lemma ResolvedDeviceMayVanish(words: Words, x: Identifier)
    ensures
      var d := Device("", "", "", false);
      var t := Tables(map[1 := d, 2 := d], map["a" := 1, "b" := 1], map[x := 2], map[], [], 3);
      Valid(t) && Observed(t, "a", [], words) == (t, 1) && 1 !in Observed(t, "b", [x], words).0.devices
  {
    var d := Device("", "", "", false);
    var t := Tables(map[1 := d, 2 := d], map["a" := 1, "b" := 1], map[x := 2], map[], [], 3);
    PlacedFollows(t, "a", None);
    PlacedFollows(t, "b", Some(2));
    assert [x][0] == x && OwnedBy(t, [x], 0, 1, 2);
    JoinsOwner(t, 1, [x], 0, 0, 2, words);
    assert !Conflicting(t, [x]) && Matched(t, [x]) == Some(2);
  }
}
