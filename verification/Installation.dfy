/** The redundancy rows of one installation, changed by the transactions of the protocol. */
module Installation {
  import opened Basics
  import opened Corefile
  import opened Replication

  class Manager {
    const id: NodeId
    var role: Role
    var home: Option<Home>
    var secret: Option<Secret>
    var revision: nat
    var snapshots: map<nat, Snapshot>
    var peers: map<NodeId, Peer>
    var installed: Option<Snapshot>

    function Row(): Node
      reads this
    {
      Node(role, home, secret, revision, snapshots, peers, installed)
    }

    constructor (id: NodeId)
      ensures this.id == id && Row() == FRESH
    {
      this.id, role, home, secret, revision, snapshots, peers, installed := id, Standalone, None, None, 0, map[], map[], None;
    }

    method InitializeController(newHome: Home, files: Files) returns (ok: bool)
      modifies this
      ensures ok <==> old(role).Standalone?
      ensures Row() == Initialized(old(Row()), newHome, files)
      ensures ok ==> role.Controller? && home == Some(newHome) && revision == 1 && snapshots == map[1 := Snapshot(newHome, 1, files)]
      ensures secret == old(secret) && peers == old(peers) && installed == old(installed) && (!ok ==> Row() == old(Row()))
    {
      ok := role.Standalone?;
      if ok {
        role, home, revision := Controller, Some(newHome), 1;
        snapshots := map[];
        snapshots := snapshots[1 := Snapshot(newHome, 1, files)];
      }
    }

    /** The transaction at the end of a capture; `readHome` and `readRevision` are the state it was prepared from. */
    method CommitCapture(readHome: Home, readRevision: nat, files: Files) returns (ok: bool)
      modifies this
      ensures ok <==> Commits(old(Row()), readRevision)
      ensures Row() == Captured(old(Row()), readHome, readRevision, files)
      ensures ok <==> role.Controller? && old(revision) == readRevision && readRevision + 1 !in old(snapshots)
      ensures ok ==>
        revision == readRevision + 1 && snapshots == map[readRevision + 1 := Snapshot(readHome, readRevision + 1, files)]
      ensures Row() == if ok then old(Row()).(revision := revision, snapshots := snapshots) else old(Row())
    {
      var next := readRevision + 1;
      ok := role.Controller? && revision == readRevision && next !in snapshots;
      if ok {
        revision := next;
        snapshots := snapshots[next := Snapshot(readHome, next, files)];
        snapshots := map v | v in snapshots && v == next :: snapshots[v];
      }
    }

    /** Pair a replica: a fresh secret, no revision yet, and the reply sealed for the joining server. */
    method AcceptPair(peer: NodeId, drawn: Secret) returns (reply: Option<Message>)
      modifies this`peers
      ensures reply == if role.Controller? && home.Some? then Some(Pairing(peer, home.value, drawn)) else None
      ensures Row() == if reply.Some? then Paired(old(Row()), peer, drawn) else old(Row())
      ensures peers == if role.Controller? && home.Some? then old(peers)[peer := Peer(drawn, 0)] else old(peers)
    {
      reply := None;
      if role.Controller? && home.Some? {
        peers := peers[peer := Peer(drawn, 0)];
        reply := Some(Pairing(peer, home.value, drawn));
      }
    }

    method PersistReplicaState(pairing: Message)
      requires pairing.Pairing?
      modifies this
      ensures Row() == Joined(old(Row()), pairing.home, pairing.secret)
      ensures role.Replica? && home == Some(pairing.home) && secret == Some(pairing.secret) && revision == 0
      ensures snapshots == old(snapshots) && peers == old(peers) && installed == old(installed)
    {
      role, home, secret, revision := Replica, Some(pairing.home), Some(pairing.secret), 0;
    }

    /** The newest snapshot, sealed, for a replica that says it has an older one. */
    method SnapshotEnvelope(since: int, forSecret: Secret) returns (sealed: Option<Message>)
      ensures sealed.Some? <==> since < revision && revision in snapshots
      ensures sealed.Some? ==> sealed.value == Sealed(forSecret, snapshots[revision])
    {
      sealed := None;
      if since < revision && revision in snapshots {
        sealed := Some(Sealed(forSecret, snapshots[revision]));
      }
    }

    method RecordAcknowledgement(peer: NodeId, acknowledged: int, failed: bool) returns (ok: bool)
      modifies this`peers
      ensures ok <==> acknowledged >= 0
      ensures Row() == if ok then Acknowledged(old(Row()), peer, acknowledged, failed) else old(Row())
      ensures peers ==
        if acknowledged >= 0 && !failed && peer in old(peers) then old(peers)[peer := Peer(old(peers)[peer].secret, acknowledged)]
        else old(peers)
    {
      ok := acknowledged >= 0;
      if ok && peer in peers && !failed {
        peers := peers[peer := peers[peer].(revision := acknowledged)];
      }
    }

    /** Open, check and install what the controller sent, then record the revision and acknowledge it. */
    method SyncReplica(response: Option<Message>, applies: bool, records: bool) returns (ack: Option<Message>)
      modifies this`installed, this`revision
      ensures Syncs(old(Row()), response) && applies ==> Row() == Updated(old(Row()), response.value.snapshot, records)
      ensures !(Syncs(old(Row()), response) && applies) ==> Row() == old(Row())
      ensures ack.Some? <==> Syncs(old(Row()), response) && (applies ==> records)
      ensures ack.Some? ==> ack.value == Ack(id, response.value.secret, response.value.snapshot.revision, !applies)
      ensures forall k: Secret, s: Snapshot ::
        response == Some(Sealed(k, s)) && role.Replica? && secret == Some(k) && home == Some(s.home) ==>
        if old(revision) < s.revision && applies then
          && installed == Some(s) && revision == (if records then s.revision else old(revision))
          && ack == if records then Some(Ack(id, k, s.revision, false)) else None
        else
          && installed == old(installed) && revision == old(revision)
          && ack == if old(revision) < s.revision then Some(Ack(id, k, s.revision, true)) else None
      ensures !(role.Replica? && response.Some? && response.value.Sealed? && secret == Some(response.value.secret)) ==>
        installed == old(installed) && revision == old(revision) && ack.None?
      ensures response.Some? && response.value.Sealed? && home != Some(response.value.snapshot.home) ==>
        installed == old(installed) && revision == old(revision) && ack.None?
    {
      ack := None;
      if !role.Replica? || response.None? || !response.value.Sealed? || secret != Some(response.value.secret) {
        return;
      }
      var snapshot := response.value.snapshot;
      if home != Some(snapshot.home) || snapshot.revision <= revision {
        return;
      }
      if !applies {
        return Some(Ack(id, response.value.secret, snapshot.revision, true));
      }
      installed := Some(snapshot);
      if records {
        revision := snapshot.revision;
        ack := Some(Ack(id, response.value.secret, snapshot.revision, false));
      }
    }

    method RemoveNode(peer: NodeId) returns (ok: bool)
      modifies this`peers
      ensures ok <==> role.Controller? && peer in old(peers)
      ensures Row() == if ok then Removed(old(Row()), peer) else old(Row())
      ensures peers == if ok then old(peers) - {peer} else old(peers)
    {
      ok := role.Controller? && peer in peers;
      if ok {
        peers := peers - {peer};
      }
    }

    method SetStandalone()
      modifies this
      ensures Row() == Left(old(Row())).(installed := old(installed))
    {
      role, home, secret, revision, peers, snapshots := Standalone, None, None, 0, map[], map[];
    }

    /** Leave the home; a replica that cannot render its own files is put back. */
    method Leave(applies: bool) returns (ok: bool)
      modifies this
      ensures ok <==> old(role).Controller? || (old(role).Replica? && applies)
      ensures Row() ==
        if ok then Left(old(Row())) else if old(role).Replica? then Stayed(old(Row())) else old(Row())
      ensures ok ==> role.Standalone? && home.None? && secret.None? && revision == 0 && snapshots == map[] && peers == map[]
      ensures installed == if ok && old(role).Replica? then None else old(installed)
      ensures !ok ==> role == old(role) && home == old(home) && secret == old(secret) && revision == old(revision)
      ensures !ok && role.Replica? ==> snapshots == map[] && peers == map[]
    {
      if role.Standalone? {
        return false;
      }
      var previous := Row();
      SetStandalone();
      if previous.role.Replica? {
        if !applies {
          role, home, secret, revision := previous.role, previous.home, previous.secret, previous.revision;
          return false;
        }
        installed := None;
      }
      ok := true;
    }
  }

  /** The response opens under the replica's secret and carries a newer snapshot of its home. */
  predicate Syncs(n: Node, response: Option<Message>) {
    response.Some? && response.value.Sealed? && n.secret == Some(response.value.secret) && Takes(n, response.value.snapshot)
  }
}
