/** The redundancy protocol: controllers, replicas, and messages that may be lost, delayed or repeated. */
module Replication {
  import opened Basics
  import opened Corefile

  type NodeId = string
  type Home = nat
  type Secret = nat

  datatype Snapshot = Snapshot(home: Home, revision: nat, files: Files)

  datatype Role = Standalone | Controller | Replica

  /** A paired replica as its controller records it. */
  datatype Peer = Peer(secret: Secret, revision: nat)

  /** One installation: its redundancy rows, and the snapshot its files were installed from, if any. */
  datatype Node = Node(
    role: Role,
    home: Option<Home>,
    secret: Option<Secret>,
    revision: nat,
    snapshots: map<nat, Snapshot>,
    peers: map<NodeId, Peer>,
    installed: Option<Snapshot>)

  const FRESH: Node := Node(Standalone, None, None, 0, map[], map[], None)

  // ----- the transactions of one installation

  /** Become the controller of a new home, unless the mode changed while the snapshot was prepared. */
  function Initialized(n: Node, home: Home, files: Files): Node {
    if n.role.Standalone? then
      n.(role := Controller, home := Some(home), revision := 1, snapshots := map[1 := Snapshot(home, 1, files)])
    else n
  }

  /** Compare and swap on the revision: the snapshot was built when the home was `home` and the revision `revision`. */
  predicate Commits(n: Node, revision: nat) {
    n.role.Controller? && n.revision == revision && revision + 1 !in n.snapshots
  }

  function Captured(n: Node, home: Home, revision: nat, files: Files): Node {
    if Commits(n, revision) then
      n.(revision := revision + 1, snapshots := map[revision + 1 := Snapshot(home, revision + 1, files)])
    else n
  }

  function Paired(n: Node, peer: NodeId, secret: Secret): Node {
    n.(peers := n.peers[peer := Peer(secret, 0)])
  }

  function Joined(n: Node, home: Home, secret: Secret): Node {
    n.(role := Replica, home := Some(home), secret := Some(secret), revision := 0)
  }

  /** A replica takes a snapshot only of its home and only if it is newer. */
  predicate Takes(n: Node, snapshot: Snapshot) {
    n.role.Replica? && n.home == Some(snapshot.home) && snapshot.revision > n.revision
  }

  /** The files are installed; recording the revision may still fail. */
  function Updated(n: Node, snapshot: Snapshot, recorded: bool): Node {
    n.(installed := Some(snapshot), revision := if recorded then snapshot.revision else n.revision)
  }

  function Acknowledged(n: Node, peer: NodeId, revision: nat, failed: bool): Node {
    if peer in n.peers && !failed then n.(peers := n.peers[peer := n.peers[peer].(revision := revision)]) else n
  }

  function Removed(n: Node, peer: NodeId): Node {
    n.(peers := n.peers - {peer})
  }

  /** Standalone again; a replica renders its own files. */
  function Left(n: Node): Node {
    Node(Standalone, None, None, 0, map[], map[], if n.role.Replica? then None else n.installed)
  }

  /** A replica that could not render its own files stays in its membership; rows already deleted stay deleted. */
  function Stayed(n: Node): Node {
    n.(snapshots := map[], peers := map[])
  }

  // ----- the system

  /** Sealed and Ack are protected by the secret of a pairing; Pairing reaches the one join request it answers. */
  datatype Message =
    | Pairing(node: NodeId, home: Home, secret: Secret)
    | Sealed(secret: Secret, snapshot: Snapshot)
    | Ack(node: NodeId, secret: Secret, revision: nat, failed: bool)

  /** A snapshot being captured: the state was read, the transaction has not run. */
  datatype Capture = Capture(node: NodeId, home: Home, revision: nat, files: Files)

  datatype Install = Install(node: NodeId, secret: Secret, snapshot: Snapshot)

  /** `homes`, `issued`, `stored` and `installs` only grow: homes and secrets drawn so far (with the node that drew each),
      snapshots ever stored by a controller, and snapshots ever installed. */
  datatype System = System(
    nodes: map<NodeId, Node>,
    captures: set<Capture>,
    net: set<Message>,
    homes: map<Home, NodeId>,
    issued: map<Secret, NodeId>,
    stored: set<Snapshot>,
    installs: set<Install>)

  datatype Step =
    | Initialize(node: NodeId, home: Home, files: Files)
    | BeginCapture(node: NodeId, files: Files)
    | EndCapture(capture: Capture)
    | Pair(node: NodeId, peer: NodeId, secret: Secret)
    | Join(pairing: Message)
    | Serve(node: NodeId, revision: nat, secret: Secret)
    | Sync(node: NodeId, sealed: Message, recorded: bool)
    | Refuse(node: NodeId, revision: nat)
    | Record(node: NodeId, ack: Message)
    | Remove(node: NodeId, peer: NodeId)
    | Leave(node: NodeId)
    | LeaveFailed(node: NodeId)

  predicate Enabled(s: System, step: Step) {
    match step
    case Initialize(n, home, _) => n in s.nodes && s.nodes[n].role.Standalone? && home !in s.homes
    case BeginCapture(n, _) => n in s.nodes && s.nodes[n].role.Controller? && s.nodes[n].home.Some?
    case EndCapture(c) => c in s.captures && c.node in s.nodes && Commits(s.nodes[c.node], c.revision)
    case Pair(n, _, secret) => n in s.nodes && s.nodes[n].role.Controller? && s.nodes[n].home.Some? && secret !in s.issued
    case Join(m) => m in s.net && m.Pairing? && m.node in s.nodes
    case Serve(n, revision, secret) => n in s.nodes && revision in s.nodes[n].snapshots && secret in s.issued && s.issued[secret] == n
    case Sync(n, m, _) => n in s.nodes && m in s.net && m.Sealed? && s.nodes[n].secret == Some(m.secret) && Takes(s.nodes[n], m.snapshot)
    case Refuse(n, _) => n in s.nodes && s.nodes[n].role.Replica? && s.nodes[n].secret.Some?
    case Record(n, m) => n in s.nodes && m in s.net && m.Ack? && m.secret in s.issued && s.issued[m.secret] == n
    case Remove(n, _) => n in s.nodes && s.nodes[n].role.Controller?
    case Leave(n) => n in s.nodes && !s.nodes[n].role.Standalone?
    case LeaveFailed(n) => n in s.nodes && s.nodes[n].role.Replica?
  }

  function With(s: System, n: NodeId, node: Node): System {
    s.(nodes := s.nodes[n := node])
  }

  function Do(s: System, step: Step): System
    requires Enabled(s, step)
  {
    match step
    case Initialize(n, home, files) =>
      With(s, n, Initialized(s.nodes[n], home, files)).(homes := s.homes[home := n], stored := s.stored + {Snapshot(home, 1, files)})
    case BeginCapture(n, files) =>
      s.(captures := s.captures + {Capture(n, s.nodes[n].home.value, s.nodes[n].revision, files)})
    case EndCapture(c) =>
      With(s, c.node, Captured(s.nodes[c.node], c.home, c.revision, c.files))
      .(captures := s.captures - {c}, stored := s.stored + {Snapshot(c.home, c.revision + 1, c.files)})
    case Pair(n, peer, secret) =>
      With(s, n, Paired(s.nodes[n], peer, secret))
      .(issued := s.issued[secret := n], net := s.net + {Pairing(peer, s.nodes[n].home.value, secret)})
    case Join(m) =>
      With(s, m.node, Joined(s.nodes[m.node], m.home, m.secret)).(net := s.net - {m})
    case Serve(n, revision, secret) =>
      s.(net := s.net + {Sealed(secret, s.nodes[n].snapshots[revision])})
    case Sync(n, m, recorded) =>
      With(s, n, Updated(s.nodes[n], m.snapshot, recorded))
      .(installs := s.installs + {Install(n, m.secret, m.snapshot)},
        net := if recorded then s.net + {Ack(n, m.secret, m.snapshot.revision, false)} else s.net)
    case Refuse(n, revision) =>
      s.(net := s.net + {Ack(n, s.nodes[n].secret.value, revision, true)})
    case Record(n, m) =>
      With(s, n, Acknowledged(s.nodes[n], m.node, m.revision, m.failed))
    case Remove(n, peer) =>
      With(s, n, Removed(s.nodes[n], peer))
    case Leave(n) =>
      With(s, n, Left(s.nodes[n]))
    case LeaveFailed(n) =>
      With(s, n, Stayed(s.nodes[n]))
  }

  // ----- what every step keeps

  /** The node installed that revision under a secret that this controller issued. */
  predicate HasInstalledFor(s: System, c: NodeId, n: NodeId, revision: nat) {
    exists i :: i in s.installs && i.node == n && i.snapshot.revision == revision && i.secret in s.issued && s.issued[i.secret] == c
  }

  predicate HasInstalledUnder(s: System, n: NodeId, secret: Secret, revision: nat) {
    exists i :: i in s.installs && i.node == n && i.secret == secret && i.snapshot.revision == revision
  }

  /** A replica's files come from a stored snapshot of its home at least as new as the revision it recorded. */
  predicate ReplicaFits(s: System, n: NodeId, node: Node) {
    node.role.Replica? ==>
      && node.home.Some? && node.home.value in s.homes
      && node.secret.Some? && node.secret.value in s.issued
      && (node.revision > 0 ==>
            && HasInstalledUnder(s, n, node.secret.value, node.revision)
            && node.installed.Some? && node.installed.value in s.stored
            && node.installed.value.home == node.home.value && node.installed.value.revision >= node.revision)
  }

  /** No snapshot of a controller's home is newer than the controller. */
  predicate ControllerFits(s: System, n: NodeId, node: Node) {
    node.role.Controller? ==>
      && node.home.Some? && node.home.value in s.homes && s.homes[node.home.value] == n && node.revision >= 1
      && (forall x :: x in s.stored && x.home == node.home.value ==> x.revision <= node.revision)
      && (forall c :: c in s.captures && c.home == node.home.value ==> c.revision <= node.revision)
  }

  /** What a controller keeps was stored, and it records for a peer only 0 or a revision the peer installed as its replica. */
  predicate RowsFit(s: System, n: NodeId, node: Node) {
    && (forall v :: v in node.snapshots ==> node.snapshots[v] in s.stored)
    && (forall r :: r in node.peers ==> node.peers[r].revision == 0 || HasInstalledFor(s, n, r, node.peers[r].revision))
  }

  predicate NodeFits(s: System, n: NodeId, node: Node) {
    ReplicaFits(s, n, node) && ControllerFits(s, n, node) && RowsFit(s, n, node)
  }

  predicate NodesFit(s: System) {
    forall n :: n in s.nodes ==> NodeFits(s, n, s.nodes[n])
  }

  predicate MessageFits(s: System, m: Message) {
    match m
    case Pairing(_, home, secret) => home in s.homes && secret in s.issued
    case Sealed(_, snapshot) => snapshot in s.stored
    case Ack(n, secret, revision, failed) => failed || HasInstalledUnder(s, n, secret, revision)
  }

  predicate HistoryFits(s: System) {
    && (forall x :: x in s.stored ==> x.home in s.homes)
    && (forall c :: c in s.captures ==> c.home in s.homes && s.homes[c.home] == c.node)
    && (forall m :: m in s.net ==> MessageFits(s, m))
    && (forall i :: i in s.installs ==> i.snapshot in s.stored)
  }

  /** Holds after every step of every run. */
  predicate Inv(s: System) {
    NodesFit(s) && HistoryFits(s)
  }

  /** A home and a revision name one snapshot, and a controller keeps exactly the one of its home and revision. */
  predicate Named(s: System) {
    && Distinct(s.stored)
    && (forall n :: n in s.nodes && s.nodes[n].role.Controller? ==> KeepsItsOwn(s.nodes[n]))
  }

  predicate KeepsItsOwn(node: Node) {
    && node.home.Some?
    && node.snapshots.Keys == {node.revision}
    && node.snapshots[node.revision].home == node.home.value
    && node.snapshots[node.revision].revision == node.revision
  }

  // ----- every step keeps it

  /** History only grows. */
  predicate Grows(s: System, t: System) {
    && (forall h :: h in s.homes ==> h in t.homes && t.homes[h] == s.homes[h])
    && (forall k :: k in s.issued ==> k in t.issued && t.issued[k] == s.issued[k])
    && s.stored <= t.stored && s.installs <= t.installs
  }

  lemma StillInstalled(s: System, t: System, c: NodeId, n: NodeId, secret: Secret, revision: nat)
    requires Grows(s, t)
    ensures HasInstalledUnder(s, n, secret, revision) ==> HasInstalledUnder(t, n, secret, revision)
    ensures HasInstalledFor(s, c, n, revision) ==> HasInstalledFor(t, c, n, revision)
  {
  }

  lemma MessagesStillFit(s: System, t: System)
    requires HistoryFits(s) && Grows(s, t)
    ensures forall m :: m in s.net ==> MessageFits(t, m)
  {
  }

  lemma RowsStillFit(s: System, t: System, n: NodeId, node: Node)
    requires RowsFit(s, n, node) && Grows(s, t)
    ensures RowsFit(t, n, node)
  {
    forall r | r in node.peers && node.peers[r].revision != 0
      ensures HasInstalledFor(t, n, r, node.peers[r].revision)
    {
      StillInstalled(s, t, n, r, 0, node.peers[r].revision);
    }
  }

  lemma ReplicaStillFits(s: System, t: System, n: NodeId, node: Node)
    requires ReplicaFits(s, n, node) && Grows(s, t)
    ensures ReplicaFits(t, n, node)
  {
    if node.role.Replica? && node.revision > 0 {
      StillInstalled(s, t, n, n, node.secret.value, node.revision);
    }
  }

  /** Whatever is new in the histories is not about this controller's home, or not newer than it. */
  predicate NothingNewer(s: System, t: System, home: Home, revision: nat) {
    && (forall x :: x in t.stored && x !in s.stored && x.home == home ==> x.revision <= revision)
    && (forall c :: c in t.captures && c !in s.captures && c.home == home ==> c.revision <= revision)
  }

  /** A step touches one node; the others still fit. */
  lemma AllStillFit(s: System, t: System, n: NodeId)
    requires Inv(s) && Grows(s, t) && t.nodes.Keys == s.nodes.Keys
    requires forall m :: m in s.nodes && m != n ==> t.nodes[m] == s.nodes[m]
    requires forall m :: m in s.nodes && m != n && s.nodes[m].role.Controller? && s.nodes[m].home.Some? ==>
      NothingNewer(s, t, s.nodes[m].home.value, s.nodes[m].revision)
    requires n in t.nodes ==> NodeFits(t, n, t.nodes[n])
    ensures NodesFit(t)
  {
    forall m | m in s.nodes && m != n
      ensures NodeFits(t, m, t.nodes[m])
    {
      assert NodeFits(s, m, s.nodes[m]);
      RowsStillFit(s, t, m, s.nodes[m]);
      ReplicaStillFits(s, t, m, s.nodes[m]);
    }
  }

  /** What is new in the histories fits. */
  lemma HistoryStillFits(s: System, t: System, stored: set<Snapshot>, captures: set<Capture>, messages: set<Message>)
    requires HistoryFits(s) && Grows(s, t) && t.installs == s.installs
    requires t.stored <= s.stored + stored && t.captures <= s.captures + captures && t.net <= s.net + messages
    requires forall x :: x in stored ==> x.home in t.homes
    requires forall c :: c in captures ==> c.home in t.homes && t.homes[c.home] == c.node
    requires forall m :: m in messages ==> MessageFits(t, m)
    ensures HistoryFits(t)
  {
    MessagesStillFit(s, t);
  }

  lemma InitializeKeeps(s: System, n: NodeId, home: Home, files: Files)
    requires Inv(s) && Enabled(s, Initialize(n, home, files))
    ensures Inv(Do(s, Initialize(n, home, files)))
  {
    var t := Do(s, Initialize(n, home, files));
    HistoryStillFits(s, t, {Snapshot(home, 1, files)}, {}, {});
    RowsStillFit(s, t, n, s.nodes[n]);
    AllStillFit(s, t, n);
  }

  lemma BeginCaptureKeeps(s: System, n: NodeId, files: Files)
    requires Inv(s) && Enabled(s, BeginCapture(n, files))
    ensures Inv(Do(s, BeginCapture(n, files)))
  {
    var t := Do(s, BeginCapture(n, files));
    HistoryStillFits(s, t, {}, {Capture(n, s.nodes[n].home.value, s.nodes[n].revision, files)}, {});
    RowsStillFit(s, t, n, s.nodes[n]);
    AllStillFit(s, t, n);
  }

  lemma EndCaptureKeeps(s: System, c: Capture)
    requires Inv(s) && Enabled(s, EndCapture(c))
    ensures Inv(Do(s, EndCapture(c)))
  {
    var t := Do(s, EndCapture(c));
    HistoryStillFits(s, t, {Snapshot(c.home, c.revision + 1, c.files)}, {}, {});
    RowsStillFit(s, t, c.node, s.nodes[c.node]);
    AllStillFit(s, t, c.node);
  }

  lemma PairKeeps(s: System, n: NodeId, peer: NodeId, secret: Secret)
    requires Inv(s) && Enabled(s, Pair(n, peer, secret))
    ensures Inv(Do(s, Pair(n, peer, secret)))
  {
    var t := Do(s, Pair(n, peer, secret));
    HistoryStillFits(s, t, {}, {}, {Pairing(peer, s.nodes[n].home.value, secret)});
    RowsStillFit(s, t, n, s.nodes[n]);
    AllStillFit(s, t, n);
  }

  lemma JoinKeeps(s: System, m: Message)
    requires Inv(s) && Enabled(s, Join(m))
    ensures Inv(Do(s, Join(m)))
  {
    var t := Do(s, Join(m));
    HistoryStillFits(s, t, {}, {}, {});
    RowsStillFit(s, t, m.node, s.nodes[m.node]);
    assert MessageFits(s, m);
    AllStillFit(s, t, m.node);
  }

  lemma ServeKeeps(s: System, n: NodeId, revision: nat, secret: Secret)
    requires Inv(s) && Enabled(s, Serve(n, revision, secret))
    ensures Inv(Do(s, Serve(n, revision, secret)))
  {
    var t := Do(s, Serve(n, revision, secret));
    MessagesStillFit(s, t);
    RowsStillFit(s, t, n, s.nodes[n]);
    ReplicaStillFits(s, t, n, s.nodes[n]);
    AllStillFit(s, t, n);
  }

  lemma SyncKeeps(s: System, n: NodeId, m: Message, recorded: bool)
    requires Inv(s) && Enabled(s, Sync(n, m, recorded))
    ensures Inv(Do(s, Sync(n, m, recorded)))
  {
    var t := Do(s, Sync(n, m, recorded));
    MessagesStillFit(s, t);
    RowsStillFit(s, t, n, s.nodes[n]);
    ReplicaStillFits(s, t, n, s.nodes[n]);
    assert MessageFits(s, m);
    assert Install(n, m.secret, m.snapshot) in t.installs;
    AllStillFit(s, t, n);
  }

  lemma RefuseKeeps(s: System, n: NodeId, revision: nat)
    requires Inv(s) && Enabled(s, Refuse(n, revision))
    ensures Inv(Do(s, Refuse(n, revision)))
  {
    var t := Do(s, Refuse(n, revision));
    MessagesStillFit(s, t);
    RowsStillFit(s, t, n, s.nodes[n]);
    ReplicaStillFits(s, t, n, s.nodes[n]);
    AllStillFit(s, t, n);
  }

  lemma RecordKeeps(s: System, n: NodeId, m: Message)
    requires Inv(s) && Enabled(s, Record(n, m))
    ensures Inv(Do(s, Record(n, m)))
  {
    var t := Do(s, Record(n, m));
    HistoryStillFits(s, t, {}, {}, {});
    RowsStillFit(s, t, n, s.nodes[n]);
    ReplicaStillFits(s, t, n, s.nodes[n]);
    assert MessageFits(s, m);
    assert !m.failed ==> HasInstalledFor(t, n, m.node, m.revision);
    AllStillFit(s, t, n);
  }

  lemma RemoveKeeps(s: System, n: NodeId, peer: NodeId)
    requires Inv(s) && Enabled(s, Remove(n, peer))
    ensures Inv(Do(s, Remove(n, peer)))
  {
    var t := Do(s, Remove(n, peer));
    HistoryStillFits(s, t, {}, {}, {});
    RowsStillFit(s, t, n, s.nodes[n]);
    AllStillFit(s, t, n);
  }

  lemma LeaveKeeps(s: System, n: NodeId)
    requires Inv(s) && Enabled(s, Leave(n))
    ensures Inv(Do(s, Leave(n)))
  {
    var t := Do(s, Leave(n));
    MessagesStillFit(s, t);
    AllStillFit(s, t, n);
  }

  lemma LeaveFailedKeeps(s: System, n: NodeId)
    requires Inv(s) && Enabled(s, LeaveFailed(n))
    ensures Inv(Do(s, LeaveFailed(n)))
  {
    var t := Do(s, LeaveFailed(n));
    HistoryStillFits(s, t, {}, {}, {});
    ReplicaStillFits(s, t, n, s.nodes[n]);
    AllStillFit(s, t, n);
  }

  lemma StepKeeps(s: System, step: Step)
    requires Inv(s) && Enabled(s, step)
    ensures Inv(Do(s, step))
  {
    match step
    case Initialize(n, home, files) => InitializeKeeps(s, n, home, files);
    case BeginCapture(n, files) => BeginCaptureKeeps(s, n, files);
    case EndCapture(c) => EndCaptureKeeps(s, c);
    case Pair(n, peer, secret) => PairKeeps(s, n, peer, secret);
    case Join(m) => JoinKeeps(s, m);
    case Serve(n, revision, secret) => ServeKeeps(s, n, revision, secret);
    case Sync(n, m, recorded) => SyncKeeps(s, n, m, recorded);
    case Refuse(n, revision) => RefuseKeeps(s, n, revision);
    case Record(n, m) => RecordKeeps(s, n, m);
    case Remove(n, peer) => RemoveKeeps(s, n, peer);
    case Leave(n) => LeaveKeeps(s, n);
    case LeaveFailed(n) => LeaveFailedKeeps(s, n);
  }

  // ----- one snapshot per home and revision

  /** A capture is committed in the home it was read in. The compare and swap does not ask for this. */
  predicate InItsHome(s: System, step: Step) {
    step.EndCapture? && step.capture.node in s.nodes ==> s.nodes[step.capture.node].home == Some(step.capture.home)
  }

  predicate Distinct(stored: set<Snapshot>) {
    forall x, y :: x in stored && y in stored && x.home == y.home && x.revision == y.revision ==> x == y
  }

  lemma OneMoreName(stored: set<Snapshot>, x: Snapshot)
    requires Distinct(stored) && forall y :: y in stored && y.home == x.home ==> y.revision < x.revision
    ensures Distinct(stored + {x})
  {
  }

  /** Every controller but n keeps what it kept. */
  lemma OthersKeepTheirOwn(s: System, t: System, n: NodeId)
    requires Named(s) && Distinct(t.stored) && t.nodes.Keys == s.nodes.Keys
    requires forall m :: m in s.nodes && m != n ==> t.nodes[m] == s.nodes[m]
    requires n in t.nodes && t.nodes[n].role.Controller? ==> KeepsItsOwn(t.nodes[n])
    ensures Named(t)
  {
  }

  lemma InitializeNames(s: System, n: NodeId, home: Home, files: Files)
    requires HistoryFits(s) && Named(s) && Enabled(s, Initialize(n, home, files))
    ensures Named(Do(s, Initialize(n, home, files)))
  {
    OneMoreName(s.stored, Snapshot(home, 1, files));
    OthersKeepTheirOwn(s, Do(s, Initialize(n, home, files)), n);
  }

  lemma EndCaptureNames(s: System, c: Capture)
    requires Enabled(s, EndCapture(c)) && ControllerFits(s, c.node, s.nodes[c.node]) && Named(s)
    ensures Named(Do(s, EndCapture(c))) <==> InItsHome(s, EndCapture(c))
  {
    var t := Do(s, EndCapture(c));
    assert t.nodes[c.node].snapshots[t.nodes[c.node].revision].home == c.home;
    if InItsHome(s, EndCapture(c)) {
      OneMoreName(s.stored, Snapshot(c.home, c.revision + 1, c.files));
      OthersKeepTheirOwn(s, t, c.node);
    }
  }

  lemma OtherStepNames(s: System, step: Step)
    requires Named(s) && Enabled(s, step) && !step.Initialize? && !step.EndCapture?
    ensures Named(Do(s, step))
  {
    var t := Do(s, step);
    match step
    case Join(m) => OthersKeepTheirOwn(s, t, m.node);
    case BeginCapture(n, _) => OthersKeepTheirOwn(s, t, n);
    case Pair(n, _, _) => OthersKeepTheirOwn(s, t, n);
    case Serve(n, _, _) => OthersKeepTheirOwn(s, t, n);
    case Sync(n, _, _) => OthersKeepTheirOwn(s, t, n);
    case Refuse(n, _) => OthersKeepTheirOwn(s, t, n);
    case Record(n, _) => OthersKeepTheirOwn(s, t, n);
    case Remove(n, _) => OthersKeepTheirOwn(s, t, n);
    case Leave(n) => OthersKeepTheirOwn(s, t, n);
    case LeaveFailed(n) => OthersKeepTheirOwn(s, t, n);
  }

  /** Exactly when a step keeps the names apart: a capture read in one home must not be committed in another. */
  lemma NamesAreKeptExactlyWhen(s: System, step: Step)
    requires Inv(s) && Named(s) && Enabled(s, step)
    ensures Named(Do(s, step)) <==> InItsHome(s, step)
  {
    match step
    case Initialize(n, home, files) => InitializeNames(s, n, home, files);
    case EndCapture(c) => EndCaptureNames(s, c);
    case _ => OtherStepNames(s, step);
  }

  // ----- runs

  /** Every node is standalone and nothing has happened yet. */
  predicate Start(s: System) {
    && (forall n :: n in s.nodes ==> s.nodes[n] == FRESH)
    && s == System(s.nodes, {}, {}, map[], map[], {}, {})
  }

  predicate IsRun(run: seq<System>, steps: seq<Step>) {
    && |run| == |steps| + 1 && Start(run[0])
    && forall i :: 0 <= i < |steps| ==> Enabled(run[i], steps[i]) && run[i + 1] == Do(run[i], steps[i])
  }

  lemma {:induction false} RunKeeps(run: seq<System>, steps: seq<Step>, i: nat)
    requires IsRun(run, steps) && i < |run|
    ensures Inv(run[i])
    decreases i
  {
    if i > 0 {
      RunKeeps(run, steps, i - 1);
      StepKeeps(run[i - 1], steps[i - 1]);
    }
  }

  /** Over every run: a replica's revision is one it installed under its pairing and never exceeds its controller's, its files
      are a stored snapshot of its home, a controller records for a node only 0 or a revision the node installed under a
      secret of this controller, and no two controllers share a home. */
  lemma ReplicationIsSafe(run: seq<System>, steps: seq<Step>, i: nat, r: NodeId, c: NodeId)
    requires IsRun(run, steps) && i < |run| && r in run[i].nodes && c in run[i].nodes
    ensures var s := run[i];
      && (s.nodes[r].role.Replica? && s.nodes[r].revision > 0 ==>
            && s.nodes[r].secret.Some? && HasInstalledUnder(s, r, s.nodes[r].secret.value, s.nodes[r].revision)
            && s.nodes[r].installed.Some? && s.nodes[r].installed.value in s.stored
            && Some(s.nodes[r].installed.value.home) == s.nodes[r].home)
      && (s.nodes[r].role.Replica? && s.nodes[c].role.Controller? && s.nodes[r].home == s.nodes[c].home ==>
            s.nodes[r].revision <= s.nodes[c].revision)
      && (r in s.nodes[c].peers ==> s.nodes[c].peers[r].revision == 0 || HasInstalledFor(s, c, r, s.nodes[c].peers[r].revision))
      && (r != c && s.nodes[r].role.Controller? && s.nodes[c].role.Controller? ==> s.nodes[r].home != s.nodes[c].home)
  {
    RunKeeps(run, steps, i);
    var s := run[i];
    assert NodeFits(s, r, s.nodes[r]) && NodeFits(s, c, s.nodes[c]);
  }

  // ----- the files of a replica and the revision it recorded

  /** Whether the last synchronization of n among the first i steps, since it last joined, recorded its revision; None if
      there was none. */
  function LastSync(steps: seq<Step>, n: NodeId, i: nat): Option<bool>
    requires i <= |steps|
  {
    if i == 0 then None
    else
      var step := steps[i - 1];
      if step.Join? && step.pairing.Pairing? && step.pairing.node == n then None
      else if step.Sync? && step.node == n then Some(step.recorded)
      else LastSync(steps, n, i - 1)
  }

  /** After a recorded synchronization the files are exactly the snapshot of the recorded revision, after an unrecorded one
      those of a newer one, and before the first the revision is 0. */
  predicate FilesFit(node: Node, last: Option<bool>) {
    && (node.installed.Some? ==> node.installed.value.revision > 0)
    && (node.role.Replica? && last.None? ==> node.revision == 0)
    && (node.role.Replica? && last.Some? ==>
          && node.installed.Some? && Some(node.installed.value.home) == node.home
          && if last.value then node.installed.value.revision == node.revision else node.installed.value.revision > node.revision)
  }

  lemma StepKeepsFiles(s: System, step: Step, n: NodeId, last: Option<bool>)
    requires Enabled(s, step) && n in s.nodes && FilesFit(s.nodes[n], last)
    ensures n in Do(s, step).nodes
    ensures FilesFit(Do(s, step).nodes[n],
      if step.Join? && step.pairing.Pairing? && step.pairing.node == n then None
      else if step.Sync? && step.node == n then Some(step.recorded) else last)
  {
  }

  lemma {:induction false} RunKeepsFiles(run: seq<System>, steps: seq<Step>, i: nat, n: NodeId)
    requires IsRun(run, steps) && i < |run| && n in run[0].nodes
    ensures n in run[i].nodes && FilesFit(run[i].nodes[n], LastSync(steps, n, i))
    decreases i
  {
    if i > 0 {
      RunKeepsFiles(run, steps, i - 1, n);
      StepKeepsFiles(run[i - 1], steps[i - 1], n, LastSync(steps, n, i - 1));
    }
  }

  /** Over every run, the files of a replica are the snapshot of its recorded revision exactly when its last synchronization
      was recorded. */
  lemma FilesAreOfRevisionExactlyWhen(run: seq<System>, steps: seq<Step>, i: nat, n: NodeId)
    requires IsRun(run, steps) && i < |run| && n in run[0].nodes && n in run[i].nodes && run[i].nodes[n].role.Replica?
    ensures var node := run[i].nodes[n];
      node.installed.Some? && node.installed.value.revision == node.revision <==> LastSync(steps, n, i) == Some(true)
  {
    RunKeepsFiles(run, steps, i, n);
  }

  /** Over every run in which recording never fails, a replica past revision 0 has installed byte for byte the stored
      snapshot of its home and revision. */
  lemma RecordedRunsInstallTheRevision(run: seq<System>, steps: seq<Step>, i: nat, n: NodeId)
    requires IsRun(run, steps) && i < |run| && n in run[0].nodes && n in run[i].nodes
    requires forall k :: 0 <= k < i && steps[k].Sync? ==> steps[k].recorded
    ensures var s, node := run[i], run[i].nodes[n];
      node.role.Replica? && node.revision > 0 ==>
        && node.installed.Some? && node.installed.value in s.stored
        && node.installed.value.revision == node.revision && Some(node.installed.value.home) == node.home
  {
    RunKeeps(run, steps, i);
    RunKeepsFiles(run, steps, i, n);
    OnlyRecorded(steps, n, i);
    assert NodeFits(run[i], n, run[i].nodes[n]);
  }

  lemma {:induction false} OnlyRecorded(steps: seq<Step>, n: NodeId, i: nat)
    requires i <= |steps| && forall k :: 0 <= k < i && steps[k].Sync? ==> steps[k].recorded
    ensures LastSync(steps, n, i) != Some(false)
    decreases i
  {
    if i > 0 {
      OnlyRecorded(steps, n, i - 1);
    }
  }

  /** A synchronization whose revision could not be recorded leaves newer files behind than the replica says. */
  lemma UnrecordedSyncIsAhead(s: System, n: NodeId, m: Message)
    requires Enabled(s, Sync(n, m, false))
    ensures var node := Do(s, Sync(n, m, false)).nodes[n];
      node.installed == Some(m.snapshot) && m.snapshot.revision > node.revision == s.nodes[n].revision
  {
  }

  /** Over every run whose captures are committed in the home they were read in, a home and a revision name one snapshot
      and every controller keeps exactly the snapshot of its home and revision. */
  lemma {:induction false} NamesStayApart(run: seq<System>, steps: seq<Step>, i: nat)
    requires IsRun(run, steps) && i < |run| && forall k :: 0 <= k < i ==> InItsHome(run[k], steps[k])
    ensures Named(run[i])
    decreases i
  {
    if i > 0 {
      NamesStayApart(run, steps, i - 1);
      RunKeeps(run, steps, i - 1);
      NamesAreKeptExactlyWhen(run[i - 1], steps[i - 1]);
    }
  }

  /** The step neither starts nor ends a membership of n. */
  predicate WithinMembership(step: Step, n: NodeId) {
    !(step.Join? && step.pairing.Pairing? && step.pairing.node == n) && step != Leave(n)
  }

  lemma RevisionGrows(s: System, step: Step, n: NodeId)
    requires Enabled(s, step) && n in s.nodes && s.nodes[n].role.Replica? && WithinMembership(step, n)
    ensures n in Do(s, step).nodes && Do(s, step).nodes[n].role.Replica?
    ensures Do(s, step).nodes[n].home == s.nodes[n].home && Do(s, step).nodes[n].secret == s.nodes[n].secret
    ensures Do(s, step).nodes[n].revision >= s.nodes[n].revision
  {
  }

  /** Within a membership a replica's revision only grows. */
  lemma {:induction false} RevisionGrowsOverRuns(run: seq<System>, steps: seq<Step>, i: nat, j: nat, n: NodeId)
    requires IsRun(run, steps) && i <= j < |run| && n in run[i].nodes && run[i].nodes[n].role.Replica?
    requires forall k :: i <= k < j ==> WithinMembership(steps[k], n)
    ensures n in run[j].nodes && run[j].nodes[n].role.Replica? && run[j].nodes[n].secret == run[i].nodes[n].secret
    ensures run[j].nodes[n].revision >= run[i].nodes[n].revision
    decreases j
  {
    if i < j {
      RevisionGrowsOverRuns(run, steps, i, j - 1, n);
      RevisionGrows(run[j - 1], steps[j - 1], n);
    }
  }

  // ----- a replica that is behind catches up

  /** The secret of a membership was issued by the controller of its home. */
  predicate Bound(s: System, home: Home, secret: Secret) {
    home in s.homes && secret in s.issued && s.homes[home] == s.issued[secret]
  }

  predicate AllBound(s: System) {
    && (forall n :: n in s.nodes && s.nodes[n].role.Replica? ==>
          s.nodes[n].home.Some? && s.nodes[n].secret.Some? && Bound(s, s.nodes[n].home.value, s.nodes[n].secret.value))
    && forall m :: m in s.net && m.Pairing? ==> Bound(s, m.home, m.secret)
  }

  lemma StepKeepsBound(s: System, step: Step)
    requires Inv(s) && AllBound(s) && Enabled(s, step)
    ensures AllBound(Do(s, step))
  {
    var t := Do(s, step);
    forall home, secret | Bound(s, home, secret)
      ensures Bound(t, home, secret)
    {
    }
    if step.Pair? {
      assert NodeFits(s, step.node, s.nodes[step.node]);
    }
  }

  lemma {:induction false} RunKeepsBound(run: seq<System>, steps: seq<Step>, i: nat)
    requires IsRun(run, steps) && i < |run|
    ensures AllBound(run[i])
    decreases i
  {
    if i > 0 {
      RunKeepsBound(run, steps, i - 1);
      RunKeeps(run, steps, i - 1);
      StepKeepsBound(run[i - 1], steps[i - 1]);
    }
  }

  /** What the controller's answer, the installation and the acknowledgement leave of s. */
  lemma CatchesUp(s: System, c: NodeId, r: NodeId, k: Secret, x: Snapshot) returns (steps: seq<Step>, t: System)
    requires c in s.nodes && r in s.nodes && c != r && k in s.issued && s.issued[k] == c
    requires s.nodes[c].revision in s.nodes[c].snapshots && s.nodes[c].snapshots[s.nodes[c].revision] == x
    requires s.nodes[r].role.Replica? && s.nodes[r].secret == Some(k) && s.nodes[r].home == Some(x.home)
    requires s.nodes[r].revision < x.revision
    ensures steps == [Serve(c, s.nodes[c].revision, k), Sync(r, Sealed(k, x), true), Record(c, Ack(r, k, x.revision, false))]
    ensures Enabled(s, steps[0]) && Enabled(Do(s, steps[0]), steps[1]) && Enabled(Do(Do(s, steps[0]), steps[1]), steps[2])
    ensures t == Do(Do(Do(s, steps[0]), steps[1]), steps[2]) && c in t.nodes && r in t.nodes
    ensures t.nodes[r] == s.nodes[r].(installed := Some(x), revision := x.revision)
    ensures r in s.nodes[c].peers ==> r in t.nodes[c].peers && t.nodes[c].peers[r].revision == x.revision
    ensures t.nodes[c].(peers := map[]) == s.nodes[c].(peers := map[])
  {
    steps := [Serve(c, s.nodes[c].revision, k), Sync(r, Sealed(k, x), true), Record(c, Ack(r, k, x.revision, false))];
    var s1 := Do(s, steps[0]);
    var s2 := Do(s1, steps[1]);
    t := Do(s2, steps[2]);
  }

  /** Over every run whose captures are committed in the home they were read in: however far a replica is behind its
      controller, one answer that is installed and recorded brings it to the controller's revision and files, and the
      acknowledgement tells the controller so. */
  lemma BehindCatchesUp(run: seq<System>, steps: seq<Step>, i: nat, c: NodeId, r: NodeId) returns (more: seq<Step>, t: System)
    requires IsRun(run, steps) && i < |run| && forall k :: 0 <= k < i ==> InItsHome(run[k], steps[k])
    requires c in run[i].nodes && r in run[i].nodes && run[i].nodes[c].role.Controller? && run[i].nodes[r].role.Replica?
    requires run[i].nodes[r].home == run[i].nodes[c].home && run[i].nodes[r].revision < run[i].nodes[c].revision
    ensures |more| == 3 && more[0].Serve? && more[1].Sync? && more[1].recorded && more[2].Record?
    ensures Enabled(run[i], more[0]) && Enabled(Do(run[i], more[0]), more[1]) && Enabled(Do(Do(run[i], more[0]), more[1]), more[2])
    ensures t == Do(Do(Do(run[i], more[0]), more[1]), more[2]) && c in t.nodes && r in t.nodes
    ensures var s := run[i];
      && t.nodes[r].revision == t.nodes[c].revision == s.nodes[c].revision && t.nodes[r].home == t.nodes[c].home
      && s.nodes[c].revision in s.nodes[c].snapshots && t.nodes[r].installed == Some(s.nodes[c].snapshots[s.nodes[c].revision])
      && (r in s.nodes[c].peers ==> r in t.nodes[c].peers && t.nodes[c].peers[r].revision == s.nodes[c].revision)
  {
    var s := run[i];
    RunKeeps(run, steps, i);
    RunKeepsBound(run, steps, i);
    NamesStayApart(run, steps, i);
    assert NodeFits(s, c, s.nodes[c]) && KeepsItsOwn(s.nodes[c]);
    more, t := CatchesUp(s, c, r, s.nodes[r].secret.value, s.nodes[c].snapshots[s.nodes[c].revision]);
  }

  // ----- the missing comparison

  /** A capture that is overtaken by leaving and starting over is committed in the new home: the controller of home 2 then
      keeps a snapshot of home 1, which its replicas refuse. */
  lemma StaleCaptureIsCommitted(n: NodeId, files: Files)
    ensures
      var start := System(map[n := FRESH], {}, {}, map[], map[], {}, {});
      var a := Do(start, Initialize(n, 1, files));
      var b := Do(a, BeginCapture(n, files));
      var c := Do(b, Leave(n));
      var d := Do(c, Initialize(n, 2, files));
      var step := EndCapture(Capture(n, 1, 1, files));
      && Start(start) && Enabled(d, step)
      && Do(d, step).nodes[n].home == Some(2) && Do(d, step).nodes[n].snapshots == map[2 := Snapshot(1, 2, files)]
  {
  }
}
