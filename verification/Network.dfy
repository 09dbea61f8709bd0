/** The installations of a household together: what their code does is what the protocol's steps say. */
module Network {
  import opened Basics
  import opened Corefile
  import opened Replication
  import Installation

  class Household {
    const managers: map<NodeId, Installation.Manager>
    var captures: set<Capture>
    var net: set<Message>
    ghost var homes: map<Home, NodeId>
    ghost var issued: map<Secret, NodeId>
    ghost var stored: set<Snapshot>
    ghost var installs: set<Install>

    /** Every installation is its own object and knows its id. */
    ghost predicate Valid() {
      && (forall n :: n in managers ==> managers[n].id == n)
      && (forall m, n :: m in managers && n in managers && m != n ==> managers[m] != managers[n])
    }

    ghost function Rows(): map<NodeId, Node>
      reads managers.Values
    {
      map n | n in managers :: managers[n].Row()
    }

    /** The state of the protocol. */
    ghost function View(): System
      reads this, managers.Values
    {
      System(Rows(), captures, net, homes, issued, stored, installs)
    }

    constructor (managers: map<NodeId, Installation.Manager>)
      requires forall n :: n in managers ==> managers[n].id == n && managers[n].Row() == FRESH
      requires forall m, n :: m in managers && n in managers && m != n ==> managers[m] != managers[n]
      ensures this.managers == managers && Valid() && Start(View())
    {
      this.managers := managers;
      captures, net, homes, issued, stored, installs := {}, {}, map[], map[], {}, {};
    }

    method Initialize(n: NodeId, home: Home, files: Files)
      requires Valid() && Enabled(View(), Step.Initialize(n, home, files))
      modifies this, managers[n]
      ensures Valid() && View() == Do(old(View()), Step.Initialize(n, home, files))
    {
      var ok := managers[n].InitializeController(home, files);
      homes, stored := homes[home := n], stored + {Snapshot(home, 1, files)};
      assert Rows() == old(Rows())[n := managers[n].Row()];
    }

    method BeginCapture(n: NodeId, files: Files)
      requires Valid() && Enabled(View(), Step.BeginCapture(n, files))
      modifies this
      ensures Valid() && View() == Do(old(View()), Step.BeginCapture(n, files))
    {
      captures := captures + {Capture(n, managers[n].home.value, managers[n].revision, files)};
    }

    method EndCapture(c: Capture)
      requires Valid() && Enabled(View(), Step.EndCapture(c))
      modifies this, managers[c.node]
      ensures Valid() && View() == Do(old(View()), Step.EndCapture(c))
    {
      var ok := managers[c.node].CommitCapture(c.home, c.revision, c.files);
      captures, stored := captures - {c}, stored + {Snapshot(c.home, c.revision + 1, c.files)};
      assert Rows() == old(Rows())[c.node := managers[c.node].Row()];
    }

    method Pair(n: NodeId, peer: NodeId, secret: Secret)
      requires Valid() && Enabled(View(), Step.Pair(n, peer, secret))
      modifies this, managers[n]
      ensures Valid() && View() == Do(old(View()), Step.Pair(n, peer, secret))
    {
      var reply := managers[n].AcceptPair(peer, secret);
      issued, net := issued[secret := n], net + {reply.value};
      assert Rows() == old(Rows())[n := managers[n].Row()];
    }

    method Join(m: Message)
      requires Valid() && Enabled(View(), Step.Join(m))
      modifies this, managers[m.node]
      ensures Valid() && View() == Do(old(View()), Step.Join(m))
    {
      managers[m.node].PersistReplicaState(m);
      net := net - {m};
      assert Rows() == old(Rows())[m.node := managers[m.node].Row()];
    }

    /** A signed request for what is newer than `since`, answered if there is anything. */
    method Serve(n: NodeId, since: int, secret: Secret)
      requires Valid() && n in managers && secret in issued && issued[secret] == n
      modifies this
      ensures Valid()
      ensures if since < managers[n].revision && managers[n].revision in managers[n].snapshots
        then View() == Do(old(View()), Step.Serve(n, managers[n].revision, secret)) else View() == old(View())
    {
      var sealed := managers[n].SnapshotEnvelope(since, secret);
      if sealed.Some? {
        net := net + {sealed.value};
      }
    }

    /** A reply reaches a server, which installs it, refuses it, or finds that it is not for it. */
    method Sync(n: NodeId, m: Message, applies: bool, records: bool)
      requires Valid() && n in managers && m in net
      modifies this, managers[n]
      ensures Valid()
      ensures old(Installation.Syncs(managers[n].Row(), Some(m))) && applies ==> View() == Do(old(View()), Step.Sync(n, m, records))
      ensures old(Installation.Syncs(managers[n].Row(), Some(m))) && !applies ==>
        View() == Do(old(View()), Step.Refuse(n, m.snapshot.revision))
      ensures !old(Installation.Syncs(managers[n].Row(), Some(m))) ==> View() == old(View())
    {
      if !Installation.Syncs(managers[n].Row(), Some(m)) {
        Ignore(n, m, applies, records);
      } else if applies {
        SyncIs(View(), n, m, records);
        Install(n, m, records);
      } else {
        Refuse(n, m, records);
      }
    }

    method Install(n: NodeId, m: Message, records: bool)
      requires Valid() && n in managers && m in net && Installation.Syncs(managers[n].Row(), Some(m))
      modifies this, managers[n]
      ensures Valid() && View() == Synced(old(View()), n, m, records)
    {
      var ack := TakeSnapshot(n, m, records);
      if ack.Some? {
        net := net + {ack.value};
      }
      installs := installs + {Replication.Install(n, m.secret, m.snapshot)};
    }

    method TakeSnapshot(n: NodeId, m: Message, records: bool) returns (ack: Option<Message>)
      requires Valid() && n in managers && Installation.Syncs(managers[n].Row(), Some(m))
      modifies managers[n]
      ensures Valid() && Rows() == old(Rows())[n := Updated(old(Rows())[n], m.snapshot, records)]
      ensures ack == if records then Some(Ack(n, m.secret, m.snapshot.revision, false)) else None
    {
      ack := managers[n].SyncReplica(Some(m), true, records);
    }

    method Refuse(n: NodeId, m: Message, records: bool)
      requires Valid() && n in managers && m in net && Installation.Syncs(managers[n].Row(), Some(m))
      modifies this, managers[n]
      ensures Valid() && View() == Do(old(View()), Step.Refuse(n, m.snapshot.revision))
    {
      var ack := managers[n].SyncReplica(Some(m), false, records);
      net := net + {ack.value};
      assert Rows() == old(Rows());
    }

    method Ignore(n: NodeId, m: Message, applies: bool, records: bool)
      requires Valid() && n in managers && !Installation.Syncs(managers[n].Row(), Some(m))
      modifies this, managers[n]
      ensures Valid() && View() == old(View())
    {
      var ack := managers[n].SyncReplica(Some(m), applies, records);
      assert ack.None? && Rows() == old(Rows());
    }

    method Record(n: NodeId, m: Message)
      requires Valid() && Enabled(View(), Step.Record(n, m))
      modifies this, managers[n]
      ensures Valid() && View() == Do(old(View()), Step.Record(n, m))
    {
      var ok := managers[n].RecordAcknowledgement(m.node, m.revision, m.failed);
      assert Rows() == old(Rows())[n := managers[n].Row()];
    }

    /** Removing a node that is not there is refused and changes nothing. */
    method Remove(n: NodeId, peer: NodeId)
      requires Valid() && Enabled(View(), Step.Remove(n, peer))
      modifies this, managers[n]
      ensures Valid() && View() == Do(old(View()), Step.Remove(n, peer))
    {
      var ok := managers[n].RemoveNode(peer);
      assert peer !in old(managers[n].peers) ==> old(managers[n].peers) - {peer} == old(managers[n].peers);
      assert Rows() == old(Rows())[n := managers[n].Row()];
    }

    /** Leaving succeeds, or a replica that cannot render its own files stays; a standalone server has nothing to leave. */
    method Leave(n: NodeId, applies: bool)
      requires Valid() && n in managers
      modifies this, managers[n]
      ensures Valid()
      ensures old(managers[n].role).Standalone? ==> View() == old(View())
      ensures old(managers[n].role).Controller? || (old(managers[n].role).Replica? && applies) ==> View() == Do(old(View()), Step.Leave(n))
      ensures old(managers[n].role).Replica? && !applies ==> View() == Do(old(View()), Step.LeaveFailed(n))
    {
      var ok := managers[n].Leave(applies);
      assert Rows() == old(Rows())[n := managers[n].Row()];
      assert old(managers[n].role).Standalone? ==> Rows() == old(Rows());
    }

    /** The code of one step. */
    method Act(step: Step)
      requires Valid() && Enabled(View(), step) && Occurs(View(), step)
      modifies this, managers.Values
      ensures Valid() && View() == Do(old(View()), step)
    {
      match step
      case Initialize(n, home, files) => Initialize(n, home, files);
      case BeginCapture(n, files) => BeginCapture(n, files);
      case EndCapture(c) => EndCapture(c);
      case Pair(n, peer, secret) => Pair(n, peer, secret);
      case Join(m) => Join(m);
      case Serve(n, revision, secret) => Serve(n, revision - 1, secret);
      case Sync(n, m, recorded) => Sync(n, m, true, recorded);
      case Refuse(n, revision) =>
        var m :| m in net && Installation.Syncs(managers[n].Row(), Some(m)) && m.snapshot.revision == revision;
        Refuse(n, m, false);
      case Record(n, m) => Record(n, m);
      case Remove(n, peer) => Remove(n, peer);
      case Leave(n) => Leave(n, true);
      case LeaveFailed(n) => Leave(n, false);
    }
  }

  function Synced(s: System, n: NodeId, m: Message, recorded: bool): System
    requires n in s.nodes && m.Sealed?
  {
    System(s.nodes[n := Updated(s.nodes[n], m.snapshot, recorded)], s.captures,
           if recorded then s.net + {Ack(n, m.secret, m.snapshot.revision, false)} else s.net,
           s.homes, s.issued, s.stored, s.installs + {Install(n, m.secret, m.snapshot)})
  }

  lemma SyncIs(s: System, n: NodeId, m: Message, recorded: bool)
    requires n in s.nodes && m in s.net && Installation.Syncs(s.nodes[n], Some(m))
    ensures Enabled(s, Step.Sync(n, m, recorded)) && Do(s, Step.Sync(n, m, recorded)) == Synced(s, n, m, recorded)
  {
  }

  /** What the protocol allows and the code does: it serves the snapshot of the controller's revision, and refuses only what
      it was sent. */
  predicate Occurs(s: System, step: Step) {
    && (step.Serve? && step.node in s.nodes ==> step.revision == s.nodes[step.node].revision)
    && (step.Refuse? && step.node in s.nodes ==>
          exists m :: m in s.net && Installation.Syncs(s.nodes[step.node], Some(m)) && m.snapshot.revision == step.revision)
  }

  /** The code goes through every run of the protocol, state by state, so all that is proved of runs is proved of it. */
  method FollowRun(h: Household, run: seq<System>, steps: seq<Step>)
    requires h.Valid() && IsRun(run, steps) && run[0] == h.View() && forall k :: 0 <= k < |steps| ==> Occurs(run[k], steps[k])
    modifies h, h.managers.Values
    ensures h.Valid() && h.View() == run[|steps|] && Inv(h.View())
  {
    for k := 0 to |steps|
      invariant h.Valid() && h.View() == run[k]
    {
      h.Act(steps[k]);
    }
    RunKeeps(run, steps, |steps|);
  }

  /** The code of catching up: the controller is asked for what is newer, the replica installs and records it, and the
      controller records the acknowledgement. However many revisions were missed, the replica ends at the controller's. */
  method CatchUp(h: Household, c: NodeId, r: NodeId, k: Secret, x: Snapshot)
    requires h.Valid() && c in h.managers && r in h.managers && c != r && k in h.issued && h.issued[k] == c
    requires h.managers[c].revision in h.managers[c].snapshots && h.managers[c].snapshots[h.managers[c].revision] == x
    requires x.revision == h.managers[c].revision
    requires h.managers[r].role.Replica? && h.managers[r].secret == Some(k) && h.managers[r].home == Some(x.home)
    requires h.managers[r].revision < x.revision
    modifies h, h.managers[c], h.managers[r]
    ensures h.Valid() && h.managers[r].revision == h.managers[c].revision == x.revision && h.managers[r].installed == Some(x)
    ensures r in old(h.managers[c].peers) ==> r in h.managers[c].peers && h.managers[c].peers[r].revision == x.revision
  {
    ghost var s := h.View();
    ghost var steps, t := CatchesUp(s, c, r, k, x);
    h.Serve(c, h.managers[r].revision, k);
    h.Sync(r, Sealed(k, x), true, true);
    h.Record(c, Ack(r, k, x.revision, false));
    assert h.View() == t && h.Rows()[r] == t.nodes[r] && h.Rows()[c] == t.nodes[c];
  }
}
