/** The tables of device identity, changed in place by observations and by batches of query rows. */
module DeviceRegistry {
  import opened Basics
  import opened Devices

  datatype Entry = Entry(client: string, text: string)

  class Registry {
    var devices: map<DeviceId, Device>
    var addresses: map<Address, DeviceId>
    var identifiers: map<Identifier, DeviceId>
    var memberships: map<DeviceId, ProtectionId>
    var queries: seq<Query>
    var nextId: DeviceId
    const words: Words

    function Now(): Tables
      reads this
    {
      Tables(devices, addresses, identifiers, memberships, queries, nextId)
    }

    constructor (words: Words)
      ensures Valid(Now()) && NoDangling(Now()) && this.words == words
    {
      devices, addresses, identifiers, memberships, queries, nextId := map[], map[], map[], map[], [], 1;
      this.words := words;
    }

    // ----- merging

    method SafeMerge(target: DeviceId, source: DeviceId) returns (merged: bool)
      requires Valid(Now()) && target in devices && source in devices && target != source
      modifies this
      ensures merged <==> CanMerge(old(Now()), target, source, words)
      ensures Now() == if merged then Merged(old(Now()), target, source, words) else old(Now())
    {
      var a, b := devices[target], devices[source];
      if a.confirmed && b.confirmed && !words.blank(a.name) && !words.same(a.name, b.name) {
        return false;
      }
      if target in memberships && source in memberships && memberships[target] != memberships[source] {
        return false;
      }
      MergeProtection(target, source);
      MergeDeviceData(target, source);
      merged := true;
    }

    method MergeProtection(target: DeviceId, source: DeviceId)
      modifies this`memberships
      ensures memberships ==
        if target !in old(memberships) && source in old(memberships) then old(memberships)[target := old(memberships)[source]]
        else old(memberships)
    {
      if target !in memberships && source in memberships {
        memberships := memberships[target := memberships[source]];
      }
    }

    method MergeDeviceData(target: DeviceId, source: DeviceId)
      requires target in devices && source in devices
      modifies this
      ensures devices == old(devices)[target := Filled(old(devices)[target], old(devices)[source], words)] - {source}
      ensures addresses == MovedAll(old(addresses), target, source) && identifiers == MovedAll(old(identifiers), target, source)
      ensures queries == MovedRows(old(queries), target, source)
      ensures memberships == old(memberships) - {source} && nextId == old(nextId)
    {
      devices := devices[target := Filled(devices[target], devices[source], words)];
      addresses := MovedAll(addresses, target, source);
      queries := MovedRows(queries, target, source);
      identifiers := MovedAll(identifiers, target, source);
      memberships := memberships - {source};
      devices := devices - {source};
    }

    // ----- observing

    /** The one device the identifiers belong to, none, or a conflict. */
    method DeviceForIdentifiers(ids: seq<Identifier>) returns (found: Option<DeviceId>, conflicting: bool)
      requires Valid(Now())
      ensures conflicting <==> Conflicting(Now(), ids)
      ensures found == Matched(Now(), ids)
      ensures conflicting <==> exists x, y :: x in ids && y in ids && x in identifiers && y in identifiers && identifiers[x] != identifiers[y]
      ensures !conflicting ==> forall x :: x in ids && x in identifiers ==> found == Some(identifiers[x])
      ensures found.Some? ==> exists x :: x in ids && x in identifiers && identifiers[x] == found.value
    {
      found, conflicting := None, false;
      ghost var first := 0;
      for k := 0 to |ids|
        invariant found.Some? ==> first < k && ids[first] in identifiers && identifiers[ids[first]] == found.value
        invariant forall i :: 0 <= i < k && ids[i] in identifiers ==> found == Some(identifiers[ids[i]])
        invariant OwnerFrom(Now(), ids, 0) == if found.Some? then found else OwnerFrom(Now(), ids, k)
      {
        if ids[k] in identifiers {
          var candidate := identifiers[ids[k]];
          if found.Some? && found.value != candidate {
            return None, true;
          }
          if found.None? {
            first := k;
          }
          found := Some(candidate);
        }
      }
    }

    /** The device an observed address belongs to from now on: the one it had, else the matched one, else a new one. */
    method DeviceForAddress(a: Address, matched: Option<DeviceId>) returns (d: DeviceId)
      requires Valid(Now()) && (matched.Some? ==> matched.value in devices)
      modifies this
      ensures (Now(), d) == Placed(old(Now()), a, matched)
      ensures Valid(Now()) && Follows(old(Now()), Now(), Same(old(Now())))
      ensures d in devices && addresses == old(addresses)[a := d] && (a in old(addresses) ==> d == old(addresses)[a])
      ensures d !in old(devices) <==> a !in old(addresses) && matched.None?
      ensures identifiers == old(identifiers) && memberships == old(memberships) && queries == old(queries)
    {
      PlacedFollows(Now(), a, matched);
      assert a in addresses ==> addresses == addresses[a := addresses[a]];
      if a in addresses {
        return addresses[a];
      }
      if matched.Some? {
        d := matched.value;
      } else {
        d := nextId;
        devices := devices[d := Device("", "", "", false)];
        nextId := nextId + 1;
      }
      addresses := addresses[a := d];
    }

    method ObserveIdentifier(d: DeviceId, id: Identifier) returns (resolved: DeviceId)
      requires Valid(Now()) && d in devices
      modifies this
      ensures (Now(), resolved) == SeenOne(old(Now()), d, id, words)
    {
      if id !in identifiers {
        identifiers := identifiers[id := d];
        return d;
      }
      var owner := identifiers[id];
      if owner == d {
        return d;
      }
      var merged := SafeMerge(owner, d);
      resolved := if merged then owner else d;
    }

    method ObserveIdentifiers(d: DeviceId, ids: seq<Identifier>) returns (resolved: DeviceId)
      requires Valid(Now()) && d in devices
      modifies this
      ensures (Now(), resolved) == SeenAll(old(Now()), d, ids, 0, words)
    {
      resolved := d;
      for k := 0 to |ids|
        invariant Valid(Now()) && resolved in devices
        invariant SeenAll(Now(), resolved, ids, k, words) == SeenAll(old(Now()), d, ids, 0, words)
      {
        SeenOneFollows(Now(), resolved, ids[k], words);
        resolved := ObserveIdentifier(resolved, ids[k]);
      }
    }

    /** Record an address with its identifiers; None for a text that is no address. */
    method ObserveAddress(raw: string, normalize: string -> Option<Address>, ids: seq<Identifier>) returns (d: Option<DeviceId>)
      requires Valid(Now())
      modifies this
      ensures d.Some? <==> normalize(raw).Some?
      ensures d.None? ==> Now() == old(Now())
      ensures d.Some? ==> (Now(), d.value) == Observed(old(Now()), normalize(raw).value, ids, words)
    {
      if normalize(raw).None? {
        return None;
      }
      var a := normalize(raw).value;
      var matched, conflicting := DeviceForIdentifiers(ids);
      var resolved := DeviceForAddress(a, matched);
      if !conflicting {
        resolved := ObserveIdentifiers(resolved, ids);
      }
      d := Some(resolved);
    }

    // ----- query rows

    /** Resolve every client once, remembering the answers for the rest of the batch. The database may fail unless all is
        calm; what was resolved until then stays. */
    method Resolve(entries: seq<Entry>, normalize: string -> Option<Address>, evidence: string -> seq<Identifier>, calm: bool)
        returns (ok: bool, identities: map<string, DeviceId>, ghost f: Renaming, ghost steps: seq<Resolution>)
      requires Valid(Now())
      modifies this
      ensures AreResolved(steps, entries, normalize, evidence, words) && (ok ==> |steps| == |entries| + 1)
      ensures steps[0] == Resolution(old(Now()), map[]) && steps[|steps| - 1] == Resolution(Now(), identities)
      ensures Valid(Now()) && Follows(old(Now()), Now(), f) && |queries| == |old(queries)|
      ensures NoDangling(old(Now())) ==> NoDangling(Now())
      ensures Remembered(Now(), identities, normalize)
      ensures ok ==> AllNormal(entries, normalize)
      ensures calm && AllNormal(entries, normalize) ==> ok
      ensures ok ==> identities.Keys == Clients(entries, |entries|)
      ensures ok ==> (Undisturbed(old(Now()), entries, 0, map[], normalize, evidence, words) <==> AllAlive(Now(), identities))
    {
      ok, identities, f := true, map[], Same(Now());
      steps := [Resolution(Now(), identities)];
      ghost var t := Now();
      NothingResolved(t, entries, normalize, evidence, words);
      for k := 0 to |entries|
        invariant ok && ResolvedUpto(t, Now(), identities, entries, k, normalize, evidence, words, f, steps)
      {
        ok, identities, f, steps := ResolveStep(entries, k, normalize, evidence, calm, identities, t, f, steps);
        if !ok {
          return;
        }
      }
    }

    method ResolveStep(entries: seq<Entry>, k: nat, normalize: string -> Option<Address>, evidence: string -> seq<Identifier>, calm: bool,
                       identities: map<string, DeviceId>, ghost t: Tables, ghost f: Renaming, ghost steps: seq<Resolution>)
        returns (ok: bool, more: map<string, DeviceId>, ghost h: Renaming, ghost further: seq<Resolution>)
      requires k < |entries| && ResolvedUpto(t, Now(), identities, entries, k, normalize, evidence, words, f, steps)
      modifies this
      ensures ResolvedUpto(t, Now(), more, entries, if ok then k + 1 else k, normalize, evidence, words, h, further)
      ensures calm && normalize(entries[k].client).Some? ==> ok
    {
      ghost var g;
      ok, more, g := ResolveNext(entries, k, normalize, evidence, calm, identities);
      h, further := f, steps;
      if ok {
        FollowsThen(t, old(Now()), Now(), f, g);
        OneMoreResolved(steps, Resolution(Now(), more), entries, normalize, evidence, words);
        h, further := Then(f, g), steps + [Resolution(Now(), more)];
      }
    }

    method ResolveNext(entries: seq<Entry>, k: nat, normalize: string -> Option<Address>, evidence: string -> seq<Identifier>, calm: bool,
                       identities: map<string, DeviceId>) returns (ok: bool, more: map<string, DeviceId>, ghost f: Renaming)
      requires k < |entries| && Valid(Now()) && Remembered(Now(), identities, normalize) && identities.Keys == Clients(entries, k)
      modifies this
      ensures Valid(Now()) && Follows(old(Now()), Now(), f) && |queries| == |old(queries)|
      ensures NoDangling(old(Now())) ==> NoDangling(Now())
      ensures Remembered(Now(), more, normalize)
      ensures ok ==> normalize(entries[k].client).Some? && more.Keys == Clients(entries, k + 1)
      ensures calm && normalize(entries[k].client).Some? ==> ok
      ensures if ok then IsNext(Resolution(old(Now()), identities), entries[k].client, Resolution(Now(), more), normalize, evidence, words)
              else Now() == old(Now()) && more == identities
      ensures ok && AllNormal(entries, normalize) ==>
        (AllAlive(old(Now()), identities) && Undisturbed(old(Now()), entries, k, identities, normalize, evidence, words) <==>
          AllAlive(Now(), more) && Undisturbed(Now(), entries, k + 1, more, normalize, evidence, words))
    {
      var client := entries[k].client;
      var fails: bool := *;
      if client in identities || (fails && !calm) {
        f := Same(Now());
        FollowsSame(Now());
        ok, more := client in identities, identities;
        if ok {
          KnownClient(entries, k);
        }
        return;
      }
      ok, more, f := ResolveOne(client, normalize, evidence(client), identities);
      if ok {
        NewClient(entries, k);
        OneMoreAnswer(old(Now()), Now(), f, entries, k, identities, more[client], normalize, evidence, words);
      }
    }

    method ResolveOne(client: string, normalize: string -> Option<Address>, ids: seq<Identifier>, identities: map<string, DeviceId>)
        returns (ok: bool, more: map<string, DeviceId>, ghost f: Renaming)
      requires Valid(Now()) && Remembered(Now(), identities, normalize)
      modifies this
      ensures Valid(Now()) && Follows(old(Now()), Now(), f) && |queries| == |old(queries)|
      ensures NoDangling(old(Now())) ==> NoDangling(Now())
      ensures Remembered(Now(), more, normalize)
      ensures ok <==> normalize(client).Some?
      ensures ok ==>
        client in more && (Now(), more[client]) == Observed(old(Now()), normalize(client).value, ids, words) && more[client] in devices
      ensures if ok then more == identities[client := more[client]] else more == identities && Now() == old(Now())
    {
      var d := ObserveAddress(client, normalize, ids);
      ok, more := d.Some?, identities;
      if ok {
        f := ObservationFollows(old(Now()), normalize(client).value, ids, words);
        StillRemembered(old(Now()), Now(), f, identities, normalize);
        more := identities[client := d.value];
      } else {
        f := Same(Now());
        FollowsSame(Now());
      }
    }

    /** Store a batch: resolve the clients one by one, then insert all rows in one transaction. A row is left without its
        device exactly when resolving a later client of the batch merges that device away. */
    method InsertBatch(entries: seq<Entry>, normalize: string -> Option<Address>, evidence: string -> seq<Identifier>, calm: bool)
        returns (ok: bool, identities: map<string, DeviceId>, ghost f: Renaming, ghost steps: seq<Resolution>)
      requires Valid(Now()) && NoDangling(Now())
      modifies this
      ensures AreResolved(steps, entries, normalize, evidence, words) && (ok ==> |steps| == |entries| + 1)
      ensures steps[0] == Resolution(old(Now()), map[])
      ensures var resolved := steps[|steps| - 1];
        && identities == resolved.answers && Now() == resolved.tables.(queries := queries)
        && resolved.tables.queries <= queries && (!ok ==> queries == resolved.tables.queries)
      ensures Valid(Now()) && Follows(old(Now()), Now(), f)
      ensures ok ==> AllNormal(entries, normalize)
      ensures calm && AllNormal(entries, normalize) ==> ok
      ensures ok ==> identities.Keys == Clients(entries, |entries|) && Remembered(Now(), identities, normalize)
      ensures ok ==> |queries| == |old(queries)| + |entries| && RowsOf(queries[|old(queries)|..], entries, identities)
      ensures ok ==> (NoDangling(Now()) <==> Undisturbed(old(Now()), entries, 0, map[], normalize, evidence, words))
      ensures !ok ==> NoDangling(Now()) && |queries| == |old(queries)|
    {
      ok, identities, f, steps := Resolve(entries, normalize, evidence, calm);
      if !ok {
        return;
      }
      ghost var resolved := Now();
      ghost var g;
      ok, g := StoreRows(entries, identities, calm);
      FollowsThen(old(Now()), resolved, Now(), f, g);
      f := Then(f, g);
    }

    /** All rows in one transaction, or none. */
    method StoreRows(entries: seq<Entry>, identities: map<string, DeviceId>, calm: bool) returns (ok: bool, ghost f: Renaming)
      requires Valid(Now()) && NoDangling(Now())
      requires identities.Keys == Clients(entries, |entries|) && forall c :: c in identities ==> identities[c] < nextId
      modifies this`queries
      ensures Valid(Now()) && Follows(old(Now()), Now(), f) && (calm ==> ok) && old(queries) <= queries
      ensures ok ==> |queries| == |old(queries)| + |entries| && RowsOf(queries[|old(queries)|..], entries, identities)
      ensures ok ==> (NoDangling(Now()) <==> AllAlive(Now(), identities))
      ensures !ok ==> Now() == old(Now())
    {
      f := Same(Now());
      var fails: bool := *;
      ok := !fails || calm;
      if !ok {
        FollowsSame(Now());
        return;
      }
      InsertRows(entries, identities);
      RowsAdded(old(Now()), Now());
      DanglesExactlyWhen(old(Now()), Now(), entries, identities);
    }

    method InsertRows(entries: seq<Entry>, identities: map<string, DeviceId>)
      requires Valid(Now()) && identities.Keys == Clients(entries, |entries|) && forall c :: c in identities ==> identities[c] < nextId
      modifies this`queries
      ensures Valid(Now()) && |queries| == |old(queries)| + |entries|
      ensures queries[..|old(queries)|] == old(queries) && RowsOf(queries[|old(queries)|..], entries, identities)
    {
      for k := 0 to |entries|
        invariant |queries| == |old(queries)| + k && queries[..|old(queries)|] == old(queries)
        invariant Valid(Now()) && RowsOf(queries[|old(queries)|..], entries[..k], identities)
      {
        assert entries[k].client in Clients(entries, |entries|);
        queries := queries + [Query(entries[k].client, entries[k].text, identities[entries[k].client])];
      }
      assert entries[..|entries|] == entries;
    }
  }

  /** One row per entry, in order, each for the remembered device of its client. */
  predicate RowsOf(rows: seq<Query>, entries: seq<Entry>, identities: map<string, DeviceId>) {
    |rows| == |entries| && forall i :: 0 <= i < |rows| ==>
      entries[i].client in identities && rows[i] == Query(entries[i].client, entries[i].text, identities[entries[i].client])
  }

  predicate AllNormal(entries: seq<Entry>, normalize: string -> Option<Address>) {
    forall i :: 0 <= i < |entries| ==> normalize(entries[i].client).Some?
  }

  /** The clients of the first n entries. */
  function Clients(entries: seq<Entry>, n: nat): set<string>
    requires n <= |entries|
  {
    set i | 0 <= i < n :: entries[i].client
  }

  lemma KnownClient(entries: seq<Entry>, k: nat)
    requires k < |entries| && entries[k].client in Clients(entries, k)
    ensures Clients(entries, k + 1) == Clients(entries, k)
  {
  }

  lemma NewClient(entries: seq<Entry>, k: nat)
    requires k < |entries|
    ensures Clients(entries, k + 1) == Clients(entries, k) + {entries[k].client}
  {
  }

  lemma RowsAdded(t: Tables, u: Tables)
    requires Valid(t) && |t.queries| <= |u.queries| && u == t.(queries := u.queries) && u.queries[..|t.queries|] == t.queries
    ensures Follows(t, u, Same(t))
  {
    forall i | 0 <= i < |t.queries|
      ensures u.queries[i] == t.queries[i]
    {
      assert u.queries[i] == u.queries[..|t.queries|][i];
    }
  }

  /** The tables, and the device remembered for each client so far. */
  datatype Resolution = Resolution(tables: Tables, answers: map<string, DeviceId>)

  /** A client that has no answer yet is observed; the answer of any other is kept. */
  ghost predicate IsNext(before: Resolution, client: string, after: Resolution, normalize: string -> Option<Address>,
                         evidence: string -> seq<Identifier>, words: Words)
  {
    if client in before.answers then after == before
    else
      && Valid(before.tables) && normalize(client).Some? && client in after.answers
      && (after.tables, after.answers[client]) == Observed(before.tables, normalize(client).value, evidence(client), words)
      && after.answers == before.answers[client := after.answers[client]]
  }

  /** The first k entries are resolved, which only merged and added, and whether all answers are alive in the end is open
      exactly as far as the other entries decide it. */
  ghost predicate ResolvedUpto(t: Tables, u: Tables, answers: map<string, DeviceId>, entries: seq<Entry>, k: nat,
                               normalize: string -> Option<Address>, evidence: string -> seq<Identifier>, words: Words,
                               f: Renaming, steps: seq<Resolution>)
  {
    && k <= |entries| && Valid(t) && Valid(u) && Follows(t, u, f) && |u.queries| == |t.queries| && (NoDangling(t) ==> NoDangling(u))
    && Remembered(u, answers, normalize) && answers.Keys == Clients(entries, k)
    && (forall i :: 0 <= i < k ==> normalize(entries[i].client).Some?)
    && (AllNormal(entries, normalize) ==>
      (Undisturbed(t, entries, 0, map[], normalize, evidence, words) <==>
        AllAlive(u, answers) && Undisturbed(u, entries, k, answers, normalize, evidence, words)))
    && AreResolved(steps, entries, normalize, evidence, words) && |steps| == k + 1
    && steps[0] == Resolution(t, map[]) && steps[k] == Resolution(u, answers)
  }

  lemma NothingResolved(t: Tables, entries: seq<Entry>, normalize: string -> Option<Address>, evidence: string -> seq<Identifier>,
                        words: Words)
    requires Valid(t)
    ensures ResolvedUpto(t, t, map[], entries, 0, normalize, evidence, words, Same(t), [Resolution(t, map[])])
  {
    FollowsSame(t);
  }

  /** The entries resolved one after the other, as far as it went. */
  ghost predicate AreResolved(steps: seq<Resolution>, entries: seq<Entry>, normalize: string -> Option<Address>,
                              evidence: string -> seq<Identifier>, words: Words)
  {
    && 1 <= |steps| <= |entries| + 1
    && forall i {:trigger entries[i]} :: 0 <= i < |steps| - 1 ==>
      IsNext(steps[i], entries[i].client, steps[i + 1], normalize, evidence, words)
  }

  lemma OneMoreResolved(steps: seq<Resolution>, next: Resolution, entries: seq<Entry>, normalize: string -> Option<Address>,
                        evidence: string -> seq<Identifier>, words: Words)
    requires AreResolved(steps, entries, normalize, evidence, words) && |steps| <= |entries|
    requires IsNext(steps[|steps| - 1], entries[|steps| - 1].client, next, normalize, evidence, words)
    ensures AreResolved(steps + [next], entries, normalize, evidence, words)
  {
  }

  ghost predicate AllAlive(t: Tables, identities: map<string, DeviceId>) {
    forall c :: c in identities ==> identities[c] in t.devices
  }

  /** Resolving the entries from k on, one client after the other, never merges a device away that was the answer for an
      earlier client. */
  ghost predicate Undisturbed(t: Tables, entries: seq<Entry>, k: nat, answers: map<string, DeviceId>,
                              normalize: string -> Option<Address>, evidence: string -> seq<Identifier>, words: Words)
    requires Valid(t) && k <= |entries| && AllNormal(entries, normalize)
    decreases |entries| - k
  {
    if k == |entries| then true
    else if entries[k].client in answers then Undisturbed(t, entries, k + 1, answers, normalize, evidence, words)
    else
      var client := entries[k].client;
      var r := Observed(t, normalize(client).value, evidence(client), words);
      ObservationIsValid(t, normalize(client).value, evidence(client), words);
      && (forall c :: c in answers && answers[c] in t.devices ==> answers[c] in r.0.devices)
      && Undisturbed(r.0, entries, k + 1, answers[client := r.1], normalize, evidence, words)
  }

  lemma ObservationIsValid(t: Tables, a: Address, ids: seq<Identifier>, words: Words)
    requires Valid(t)
    ensures Valid(Observed(t, a, ids, words).0)
  {
    var f := ObservationFollows(t, a, ids, words);
  }

  /** Answers that were dead stay dead, so all are alive afterwards exactly when all were and none was merged away. */
  lemma StillAlive(t: Tables, u: Tables, f: Renaming, identities: map<string, DeviceId>, normalize: string -> Option<Address>,
                   client: string, d: DeviceId)
    requires Valid(t) && Follows(t, u, f) && Remembered(t, identities, normalize) && client !in identities && d in u.devices
    ensures AllAlive(u, identities[client := d]) <==>
      AllAlive(t, identities) && forall c :: c in identities && identities[c] in t.devices ==> identities[c] in u.devices
  {
    forall c | c in identities && identities[c] !in t.devices
      ensures identities[c] !in u.devices
    {
      assert identities[c] < t.nextId;
    }
    if AllAlive(u, identities[client := d]) {
      forall c | c in identities
        ensures identities[c] in u.devices
      {
        assert identities[client := d][c] == identities[c];
      }
    }
  }

  lemma OneMoreAnswer(t: Tables, u: Tables, f: Renaming, entries: seq<Entry>, k: nat, identities: map<string, DeviceId>, d: DeviceId,
                      normalize: string -> Option<Address>, evidence: string -> seq<Identifier>, words: Words)
    requires k < |entries| && Valid(t) && Valid(u) && Follows(t, u, f) && Remembered(t, identities, normalize)
    requires entries[k].client !in identities && normalize(entries[k].client).Some? && d in u.devices
    requires (u, d) == Observed(t, normalize(entries[k].client).value, evidence(entries[k].client), words)
    ensures AllNormal(entries, normalize) ==>
      (AllAlive(t, identities) && Undisturbed(t, entries, k, identities, normalize, evidence, words) <==>
        && AllAlive(u, identities[entries[k].client := d])
        && Undisturbed(u, entries, k + 1, identities[entries[k].client := d], normalize, evidence, words))
  {
    StillAlive(t, u, f, identities, normalize, entries[k].client, d);
  }

  lemma DanglesExactlyWhen(t: Tables, u: Tables, entries: seq<Entry>, identities: map<string, DeviceId>)
    requires NoDangling(t) && u.devices == t.devices && |u.queries| == |t.queries| + |entries| && u.queries[..|t.queries|] == t.queries
    requires RowsOf(u.queries[|t.queries|..], entries, identities) && identities.Keys == Clients(entries, |entries|)
    ensures NoDangling(u) <==> AllAlive(u, identities)
  {
    var n := |t.queries|;
    forall i | 0 <= i < n
      ensures u.queries[i].device in u.devices
    {
      assert u.queries[i] == u.queries[..n][i];
    }
    forall i | 0 <= i < |entries|
      ensures u.queries[n + i].device == identities[entries[i].client]
    {
      assert u.queries[n + i] == u.queries[n..][i];
    }
    if NoDangling(u) {
      forall c | c in identities
        ensures identities[c] in u.devices
      {
        var i :| 0 <= i < |entries| && entries[i].client == c;
        assert u.queries[n + i].device in u.devices;
      }
    } else {
      var i :| 0 <= i < |u.queries| && u.queries[i].device !in u.devices;
      assert u.queries[n + (i - n)].device == identities[entries[i - n].client];
    }
  }

  /** Each remembered answer is the device of the client's address as long as that device exists. */
  ghost predicate Remembered(t: Tables, identities: map<string, DeviceId>, normalize: string -> Option<Address>) {
    forall c :: c in identities ==>
      && normalize(c).Some? && normalize(c).value in t.addresses && identities[c] < t.nextId
      && (identities[c] in t.devices <==> identities[c] == t.addresses[normalize(c).value])
  }

  lemma StillRemembered(t: Tables, u: Tables, f: Renaming, identities: map<string, DeviceId>, normalize: string -> Option<Address>)
    requires Valid(t) && Valid(u) && Follows(t, u, f) && Remembered(t, identities, normalize)
    ensures Remembered(u, identities, normalize)
  {
    forall c | c in identities
      ensures identities[c] in u.devices <==> identities[c] == u.addresses[normalize(c).value]
    {
      var a := normalize(c).value;
      assert u.addresses[a] == f[t.addresses[a]];
    }
  }
}
