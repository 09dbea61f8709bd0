/** What is installed serves as it was rendered: reading the text back gives the blocks, and the blocks decide the answers. */
module InstalledPolicy {
  import opened Basics
  import opened Schedule
  import opened Policy
  import opened Decimals
  import opened Corefile
  import opened RenderedFiles
  import opened CorefileReader
  import PolicyAgreement
  import HouseholdRules

  // ----- reading a block back

  /** What a reader finds in the text of a block. */
  function BlockMarks(block: ServerBlock, style: Style): seq<Mark> {
    match block
    case Refuse(device, clients) =>
      [Server] + [View("device_pause_" + Decimal(device) + " {"), Expression(style.expression(clients))] + [Refusal]
    case Policy(id, view) =>
      [Server] + ViewMarks(id, view, style) + [HostsFile(HostsName(id)), Forward(Spaced(style.upstreams))]
  }

  function ViewMarks(id: ProfileId, view: Option<set<Address>>, style: Style): seq<Mark> {
    if view.None? then [] else [View("protection_" + Decimal(id) + " {"), Expression(style.expression(view.value))]
  }

  lemma TwoMarks(a: Line, b: Line, x: Mark, y: Mark)
    requires MarkOf(LineText(a)) == x && MarkOf(LineText(b)) == y && !x.Nothing? && !y.Nothing?
    ensures LineMarks([a, b]) == [x, y]
  {
    OneMark(b);
    assert [a, b][1..] == [b];
    assert [x] + [y] == [x, y];
  }

  /** Some lines, then lines that say nothing, then one that says something, then again lines that say nothing. */
  lemma Between(head: seq<Line>, middle: seq<Line>, line: Line, tail: seq<Line>, said: seq<Mark>, mark: Mark)
    requires LineMarks(head) == said && Quiet(middle) && Quiet(tail) && MarkOf(LineText(line)) == mark && !mark.Nothing?
    ensures LineMarks(head + middle + [line] + tail) == said + [mark]
  {
    QuietLines(middle);
    QuietLines(tail);
    OneMark(line);
    MarksOfBoth(head, middle);
    MarksOfBoth(head + middle, [line]);
    MarksOfBoth(head + middle + [line], tail);
  }

  /** The two lines of a view. */
  lemma ViewPair(keyword: Keyword, title: string, n: int, expression: OneLine)
    requires keyword == "view " + title
    ensures LineMarks([Words(FOUR, keyword, Plus(Number(n), OPEN)), Words(EIGHT, EXPR, expression)]) ==
      [View(title + Decimal(n) + " {"), Expression(expression)]
  {
    ViewLine(keyword, title, Plus(Number(n), OPEN));
    ExpressionLine(expression);
    Together(title, Decimal(n), " {");
    TwoMarks(Words(FOUR, keyword, Plus(Number(n), OPEN)), Words(EIGHT, EXPR, expression), View(title + Decimal(n) + " {"),
             Expression(expression));
  }

  lemma ViewKeywords()
    ensures VIEW_PAUSE == "view " + "device_pause_" && VIEW_PROTECTION == "view " + "protection_"
  {
  }

  lemma ServerSays()
    ensures LineMarks([Words(NONE, SERVER, "")]) == [Server]
  {
    ServerLine();
    OneMark(Words(NONE, SERVER, ""));
  }

  lemma PauseViewSays(device: DeviceId, expression: OneLine)
    ensures LineMarks(PauseView(device, expression)) ==
      [Server] + [View("device_pause_" + Decimal(device) + " {"), Expression(expression)]
  {
    ServerSays();
    ViewKeywords();
    ViewPair(VIEW_PAUSE, "device_pause_", device, expression);
    MarksOfBoth([Words(NONE, SERVER, "")],
                [Words(FOUR, VIEW_PAUSE, Plus(Number(device), OPEN)), Words(EIGHT, EXPR, expression)]);
  }

  lemma PauseSays(device: DeviceId, expression: OneLine, style: Style)
    ensures LineMarks(PauseLines(device, expression, style)) ==
      [Server] + [View("device_pause_" + Decimal(device) + " {"), Expression(expression)] + [Refusal]
  {
    PauseViewSays(device, expression);
    QuietPause(style);
    RefusalLine();
    Between(PauseView(device, expression), PauseMiddle(style), Words(EIGHT, RCODE, ""), PauseEnd(),
            [Server] + [View("device_pause_" + Decimal(device) + " {"), Expression(expression)], Refusal);
  }

  lemma QuietPause(style: Style)
    ensures Quiet(PauseMiddle(style)) && Quiet(PauseEnd())
  {
    QuietKeywords();
  }

  /** The keywords that a reader passes over. */
  lemma QuietKeywords()
    ensures Plain(CLOSE) && Plain(ERRORS) && Plain(METADATA) && Plain(LOG) && Plain(ACL) && Plain(ALLOW) && Plain(BLOCK) && Plain(TEMPLATE)
    ensures Plain(PROMETHEUS) && Plain(RELOAD) && Plain(TTL) && Plain(FALLTHROUGH) && Plain(CACHE) && Plain(SUCCESS) && Plain(DENIAL)
  {
  }

  lemma QuietHead(isDefault: bool, style: Style)
    ensures Quiet(HeadLines(isDefault, style))
  {
    QuietKeywords();
  }

  lemma QuietCache(style: Style)
    ensures Quiet(CacheLines(style))
  {
    QuietKeywords();
  }

  lemma ViewSays(id: ProfileId, expression: OneLine)
    ensures LineMarks(ViewLines(id, expression)) == [View("protection_" + Decimal(id) + " {"), Expression(expression)]
  {
    ViewKeywords();
    ViewPair(VIEW_PROTECTION, "protection_", id, expression);
    QuietClose();
    QuietLines([Words(FOUR, CLOSE, "")]);
    MarksOfBoth([Words(FOUR, VIEW_PROTECTION, Plus(Number(id), OPEN)), Words(EIGHT, EXPR, expression)], [Words(FOUR, CLOSE, "")]);
  }

  lemma QuietClose()
    ensures Quiet([Words(FOUR, CLOSE, "")]) && Quiet([Words(NONE, CLOSE, "")])
  {
    QuietKeywords();
  }

  lemma BeforeSays(id: ProfileId, view: Option<set<Address>>, style: Style)
    requires Clean(ServerBlock.Policy(id, view), style)
    ensures LineMarks(Before(id, view, style)) == [Server] + ViewMarks(id, view, style)
  {
    var first, head := [Words(NONE, SERVER, "")], HeadLines(view.None?, style);
    var middle: seq<Line> := if view.None? then [] else ViewLines(id, style.expression(view.value));
    ServerLine();
    OneMark(first[0]);
    if view.Some? {
      ViewSays(id, style.expression(view.value));
    }
    QuietHead(view.None?, style);
    QuietLines(head);
    MarksOfBoth(first, middle);
    MarksOfBoth(first + middle, head);
  }

  lemma ForwardSays(rest: OneLine)
    ensures LineMarks([Words(FOUR, FORWARD, rest)]) == [Forward(rest)]
  {
    ForwardLine(rest);
    OneMark(Words(FOUR, FORWARD, rest));
  }

  lemma RestSays(style: Style)
    ensures LineMarks(CacheLines(style)) == [] && LineMarks([Words(NONE, CLOSE, "")]) == []
  {
    QuietCache(style);
    QuietClose();
    QuietLines(CacheLines(style));
    QuietLines([Words(NONE, CLOSE, "")]);
  }

  lemma AfterSays(style: Style)
    ensures LineMarks(After(style)) == [Forward(Spaced(style.upstreams))]
  {
    var forward, close := [Words(FOUR, FORWARD, Spaced(style.upstreams))], [Words(NONE, CLOSE, "")];
    ForwardSays(Spaced(style.upstreams));
    RestSays(style);
    MarksOfBoth(CacheLines(style), forward);
    MarksOfBoth(CacheLines(style) + forward, close);
  }

  lemma PolicySays(id: ProfileId, view: Option<set<Address>>, style: Style)
    requires Clean(ServerBlock.Policy(id, view), style)
    ensures LineMarks(Before(id, view, style) + [Hosts(id)] + After(style)) ==
      [Server] + ViewMarks(id, view, style) + [HostsFile(HostsName(id))] + [Forward(Spaced(style.upstreams))]
  {
    BeforeSays(id, view, style);
    AfterSays(style);
    HostsLine(id);
    OneMark(Hosts(id));
    MarksOfBoth(Before(id, view, style), [Hosts(id)]);
    MarksOfBoth(Before(id, view, style) + [Hosts(id)], After(style));
  }

  lemma BlockSays(block: ServerBlock, style: Style)
    requires Clean(block, style)
    ensures LineMarks(BlockLines(block, style)) == BlockMarks(block, style)
  {
    match block
    case Refuse(device, clients) =>
      PauseSays(device, style.expression(clients), style);
    case Policy(id, view) =>
      PolicySays(id, view, style);
      var hosts, forward := HostsFile(HostsName(id)), Forward(Spaced(style.upstreams));
      assert [hosts] + [forward] == [hosts, forward];
      Together([Server] + ViewMarks(id, view, style), [hosts], [forward]);
  }

  // ----- reading all blocks back

  /** A block as a reader finds it. */
  function AsRead(block: ServerBlock, style: Style): Block {
    match block
    case Refuse(device, clients) =>
      Block(Some("device_pause_" + Decimal(device) + " {"), Some(style.expression(clients)), true, None, None)
    case Policy(id, view) =>
      Block(if view.None? then None else Some("protection_" + Decimal(id) + " {"),
            if view.None? then None else Some(style.expression(view.value)),
            false, Some(HostsName(id)), Some(Spaced(style.upstreams)))
  }

  function AllAsRead(blocks: seq<ServerBlock>, style: Style): (read: seq<Block>)
    ensures |read| == |blocks| && forall i :: 0 <= i < |read| ==> read[i] == AsRead(blocks[i], style)
  {
    seq(|blocks|, i requires 0 <= i < |blocks| => AsRead(blocks[i], style))
  }

  function AllMarks(blocks: seq<ServerBlock>, style: Style): seq<Mark> {
    if blocks == [] then [] else BlockMarks(blocks[0], style) + AllMarks(blocks[1..], style)
  }

  lemma {:induction false} TextSays(blocks: seq<ServerBlock>, style: Style)
    requires AllClean(blocks, style)
    ensures Marks(CorefileText(blocks, style)) == AllMarks(blocks, style)
    decreases |blocks|
  {
    if blocks == [] {
      BlankSaysNothing("");
    } else {
      TextSays(blocks[1..], style);
      BlockSays(blocks[0], style);
      TextMarks(BlockLines(blocks[0], style), CorefileText(blocks[1..], style));
    }
  }

  lemma OneMarkRead(m: Mark, rest: seq<Mark>)
    ensures ReadMarks([m] + rest) ==
      if m.Server? then (PLAIN, [ReadMarks(rest).0] + ReadMarks(rest).1) else (WithMark(ReadMarks(rest).0, m), ReadMarks(rest).1)
  {
    assert ([m] + rest)[1..] == rest;
  }

  lemma RefusalIsRead(view: Mark, expression: Mark, rest: seq<Mark>)
    requires view.View? && expression.Expression? && ReadMarks(rest).0 == PLAIN
    ensures ReadMarks([Server] + [view, expression] + [Refusal] + rest) ==
      (PLAIN, [Block(Some(view.title), Some(expression.text), true, None, None)] + ReadMarks(rest).1)
  {
    assert [Server] + [view, expression] + [Refusal] + rest == [Server] + ([view] + ([expression] + ([Refusal] + rest)));
    OneMarkRead(Refusal, rest);
    OneMarkRead(expression, [Refusal] + rest);
    OneMarkRead(view, [expression] + ([Refusal] + rest));
    OneMarkRead(Server, [view] + ([expression] + ([Refusal] + rest)));
  }

  lemma EndIsRead(hosts: Mark, forward: Mark, rest: seq<Mark>)
    requires hosts.HostsFile? && forward.Forward? && ReadMarks(rest).0 == PLAIN
    ensures ReadMarks([hosts] + ([forward] + rest)) ==
      (Block(None, None, false, Some(hosts.name), Some(forward.upstreams)), ReadMarks(rest).1)
  {
    OneMarkRead(forward, rest);
    OneMarkRead(hosts, [forward] + rest);
  }

  lemma ViewIsRead(view: Mark, expression: Mark, rest: seq<Mark>)
    requires view.View? && expression.Expression?
    ensures ReadMarks([Server] + ([view] + ([expression] + rest))) ==
      (PLAIN, [ReadMarks(rest).0.(view := Some(view.title), expression := Some(expression.text))] + ReadMarks(rest).1)
  {
    OneMarkRead(expression, rest);
    OneMarkRead(view, [expression] + rest);
    OneMarkRead(Server, [view] + ([expression] + rest));
  }

  lemma OneByOne(v: Mark, x: Mark, h: Mark, f: Mark, rest: seq<Mark>)
    ensures [Server] + [v, x] + [h, f] + rest == [Server] + ([v] + ([x] + ([h] + ([f] + rest))))
    ensures [Server] + [] + [h, f] + rest == [Server] + ([h] + ([f] + rest))
  {
  }

  lemma DefaultIsRead(hosts: Mark, forward: Mark, rest: seq<Mark>)
    requires hosts.HostsFile? && forward.Forward? && ReadMarks(rest).0 == PLAIN
    ensures ReadMarks([Server] + [] + [hosts, forward] + rest) ==
      (PLAIN, [Block(None, None, false, Some(hosts.name), Some(forward.upstreams))] + ReadMarks(rest).1)
  {
    OneByOne(Server, Server, hosts, forward, rest);
    EndIsRead(hosts, forward, rest);
    OneMarkRead(Server, [hosts] + ([forward] + rest));
  }

  lemma ViewedIsRead(view: Mark, expression: Mark, hosts: Mark, forward: Mark, rest: seq<Mark>)
    requires view.View? && expression.Expression? && hosts.HostsFile? && forward.Forward? && ReadMarks(rest).0 == PLAIN
    ensures ReadMarks([Server] + [view, expression] + [hosts, forward] + rest) ==
      (PLAIN, [Block(Some(view.title), Some(expression.text), false, Some(hosts.name), Some(forward.upstreams))] + ReadMarks(rest).1)
  {
    OneByOne(view, expression, hosts, forward, rest);
    EndIsRead(hosts, forward, rest);
    ViewIsRead(view, expression, [hosts] + ([forward] + rest));
  }

  lemma BlockIsRead(block: ServerBlock, style: Style, rest: seq<Mark>)
    requires ReadMarks(rest).0 == PLAIN
    ensures ReadMarks(BlockMarks(block, style) + rest) == (PLAIN, [AsRead(block, style)] + ReadMarks(rest).1)
  {
    match block
    case Refuse(device, clients) =>
      RefusalIsRead(View("device_pause_" + Decimal(device) + " {"), Expression(style.expression(clients)), rest);
    case Policy(id, view) =>
      var hosts, forward := HostsFile(HostsName(id)), Forward(Spaced(style.upstreams));
      if view.None? {
        DefaultIsRead(hosts, forward, rest);
      } else {
        ViewedIsRead(View("protection_" + Decimal(id) + " {"), Expression(style.expression(view.value)), hosts, forward, rest);
      }
  }

  lemma {:induction false} MarksAreRead(blocks: seq<ServerBlock>, style: Style)
    ensures ReadMarks(AllMarks(blocks, style)) == (PLAIN, AllAsRead(blocks, style))
    decreases |blocks|
  {
    if blocks != [] {
      MarksAreRead(blocks[1..], style);
      BlockIsRead(blocks[0], style, AllMarks(blocks[1..], style));
      FirstAsRead(blocks, style);
    }
  }

  lemma FirstAsRead(blocks: seq<ServerBlock>, style: Style)
    requires blocks != []
    ensures AllAsRead(blocks, style) == [AsRead(blocks[0], style)] + AllAsRead(blocks[1..], style)
  {
  }

  /** Reading the rendered Corefile gives back its blocks, in order, each with its view, its clients' expression, whether it
      refuses, its hosts file and its upstreams. */
  lemma ReadingUndoesRendering(blocks: seq<ServerBlock>, style: Style)
    requires AllClean(blocks, style)
    ensures ReadBlocks(CorefileText(blocks, style)) == AllAsRead(blocks, style)
  {
    TextSays(blocks, style);
    MarksAreRead(blocks, style);
  }

  // ----- what an engine does with the files

  /** How a DNS engine evaluates a view expression for a client, and whether a hosts file answers a name with the block
      address. */
  datatype Engine = Engine(admits: (string, Address) -> bool, blocks: (string, Domain) -> bool)

  /** The engine understands expressions and hosts lines as they are written. */
  ghost predicate Understands(engine: Engine, style: Style) {
    && (forall clients, client :: engine.admits(style.expression(clients), client) <==> client in clients)
    && (forall lines, n :: engine.blocks(style.hostLines(lines), n) <==> HostLine("0.0.0.0", n) in lines)
  }

  /** The first block that has no view or admits the client. */
  function ServingBlock(engine: Engine, blocks: seq<Block>, client: Address): Option<Block> {
    if blocks == [] then None
    else if blocks[0].expression.None? || engine.admits(blocks[0].expression.value, client) then Some(blocks[0])
    else ServingBlock(engine, blocks[1..], client)
  }

  /** The engine, run on this directory, refuses the query or answers it with the block address. */
  predicate EngineBlocks(engine: Engine, dir: Files, client: Address, n: Domain) {
    && COREFILE in dir
    && match ServingBlock(engine, ReadBlocks(dir[COREFILE]), client)
       case None => false
       case Some(b) => b.refuses || (b.hosts.Some? && b.hosts.value in dir && engine.blocks(dir[b.hosts.value], n))
  }

  lemma {:induction false} SameBlockServes(engine: Engine, blocks: seq<ServerBlock>, style: Style, client: Address)
    requires Understands(engine, style)
    ensures var first := FirstMatch(blocks, client);
      ServingBlock(engine, AllAsRead(blocks, style), client) == if first.None? then None else Some(AsRead(first.value, style))
    decreases |blocks|
  {
    if blocks != [] {
      SameBlockServes(engine, blocks[1..], style, client);
      assert AllAsRead(blocks, style)[1..] == AllAsRead(blocks[1..], style);
    }
  }

  lemma {:induction false} FirstMatchIsABlock(blocks: seq<ServerBlock>, client: Address)
    ensures FirstMatch(blocks, client).Some? ==> FirstMatch(blocks, client).value in blocks
    decreases |blocks|
  {
    if blocks != [] {
      FirstMatchIsABlock(blocks[1..], client);
    }
  }

  lemma HostsOfBlock(r: Rendered, style: Style, combined: Files, files: Files, dir: Files, id: ProfileId)
    requires AllClean(r.blocks, style) && IsRuntimeFiles(r, style, combined, files) && Agree(dir, files)
    requires id in r.hosts && HostsName(id) in BlockNames(r.blocks)
    ensures HostsName(id) in dir && dir[HostsName(id)] == style.hostLines(r.hosts[id])
  {
    NamesDiffer();
    HostsNameIsSafe(id);
    assert HostsName(id) in ProtectionFiles(r.hosts, style);
  }

  lemma InstalledBlock(engine: Engine, r: Rendered, style: Style, combined: Files, files: Files, dir: Files, client: Address)
    requires AllClean(r.blocks, style) && Understands(engine, style)
    requires IsRuntimeFiles(r, style, combined, files) && Agree(dir, files)
    ensures COREFILE in dir
    ensures var first := FirstMatch(r.blocks, client);
      ServingBlock(engine, ReadBlocks(dir[COREFILE]), client) == if first.None? then None else Some(AsRead(first.value, style))
  {
    ReadingUndoesRendering(r.blocks, style);
    SameBlockServes(engine, r.blocks, style, client);
    assert dir[COREFILE] == CorefileText(r.blocks, style);
  }

  /** What the rendered value says of a query is what an engine does that is run on the installed files. */
  lemma InstalledServes(engine: Engine, r: Rendered, style: Style, combined: Files, files: Files, dir: Files, client: Address, n: Domain)
    requires AllClean(r.blocks, style) && Understands(engine, style)
    requires IsRuntimeFiles(r, style, combined, files) && Agree(dir, files)
    requires forall i :: 0 <= i < |r.blocks| && r.blocks[i].Policy? ==> r.blocks[i].profile in r.hosts
    ensures EngineBlocks(engine, dir, client, n) <==> ServedBlocked(r, client, n)
  {
    InstalledBlock(engine, r, style, combined, files, dir, client);
    InstalledHosts(r, style, combined, files, dir, client);
    var first := FirstMatch(r.blocks, client);
    if first.Some? {
      AnswerOf(engine, ReadBlocks(dir[COREFILE]), AsRead(first.value, style), dir, client, n);
    }
  }

  lemma AnswerOf(engine: Engine, blocks: seq<Block>, b: Block, dir: Files, client: Address, n: Domain)
    requires COREFILE in dir && blocks == ReadBlocks(dir[COREFILE]) && ServingBlock(engine, blocks, client) == Some(b)
    ensures EngineBlocks(engine, dir, client, n) <==>
      b.refuses || (b.hosts.Some? && b.hosts.value in dir && engine.blocks(dir[b.hosts.value], n))
  {
  }

  lemma InstalledHosts(r: Rendered, style: Style, combined: Files, files: Files, dir: Files, client: Address)
    requires AllClean(r.blocks, style) && IsRuntimeFiles(r, style, combined, files) && Agree(dir, files)
    requires forall i :: 0 <= i < |r.blocks| && r.blocks[i].Policy? ==> r.blocks[i].profile in r.hosts
    ensures var first := FirstMatch(r.blocks, client);
      first.Some? && first.value.Policy? ==>
        && first.value.profile in r.hosts && HostsName(first.value.profile) in dir
        && dir[HostsName(first.value.profile)] == style.hostLines(r.hosts[first.value.profile])
  {
    FirstMatchIsABlock(r.blocks, client);
    var first := FirstMatch(r.blocks, client);
    if first.Some? && first.value.Policy? {
      var i :| 0 <= i < |r.blocks| && r.blocks[i] == first.value;
      NamesOfBlock(r.blocks, i);
      HostsOfBlock(r, style, combined, files, dir, first.value.profile);
    }
  }

  lemma {:induction false} BlocksAreOfProfiles(db: Database, profiles: seq<Profile>, i: nat)
    requires i < |PolicyBlocks(db, profiles)|
    ensures var block := PolicyBlocks(db, profiles)[i];
      block.Policy? && exists p :: p in profiles && p.id == block.profile
    decreases |profiles|
  {
    var all, rest := PolicyBlocks(db, profiles), PolicyBlocks(db, profiles[1..]);
    var skipped := |all| - |rest|;
    if i < skipped {
      assert profiles[0] in profiles && all[i].profile == profiles[0].id;
    } else {
      BlocksAreOfProfiles(db, profiles[1..], i - skipped);
      assert all[i] == rest[i - skipped];
    }
  }

  lemma EveryBlockHasHosts(db: Database, norm: Normalizer, now: Instant, r: Rendered, i: nat)
    requires Render(db, norm, now) == Some(r) && i < |r.blocks| && r.blocks[i].Policy?
    ensures r.blocks[i].profile in r.hosts
  {
    var paused := PausedDevices(db, db.pauses, now);
    PausesAreRefusals(db, db.pauses, now);
    forall k | 0 <= k < |paused|
      ensures r.blocks[k].Refuse?
    {
      assert paused[k] in paused;
    }
    BlocksAreOfProfiles(db, RenderOrder(db), i - |paused|);
    var p :| p in RenderOrder(db) && p.id == r.blocks[i].profile;
    WhereContains(db.profiles, false, p);
    WhereContains(db.profiles, true, p);
    var k :| 0 <= k < |db.profiles| && db.profiles[k] == p;
    HostsForEveryProfile(db, norm, now, |db.profiles|, k);
  }

  /** From the tables to the answer: an engine that is run on a directory in which the rendered files are installed blocks a
      query of a client without a conflict exactly when its device is paused, the rules of its profile block the name, or a
      local record points the name at the block address. */
  lemma TablesDecideTheAnswer(db: Database, norm: Normalizer, now: Instant, engine: Engine, style: Style, r: Rendered, combined: Files,
                              files: Files, dir: Files, domain: string, client: Address, p: Profile)
    requires PolicyAgreement.WellFormed(db) && PolicyAgreement.Normalized(db, norm) && !PolicyAgreement.Conflict(db, client)
    requires HouseholdRules.ProfileOf(db, client, p) && HouseholdRules.ReadTimes(p.plan) && norm(domain).Some?
    requires Render(db, norm, now) == Some(r) && AllClean(r.blocks, style) && Understands(engine, style)
    requires IsRuntimeFiles(r, style, combined, files) && Agree(dir, files)
    ensures var n := norm(domain).value;
      EngineBlocks(engine, dir, client, n) <==>
        HouseholdRules.IsToBeBlocked(db, now, client, p, n) || HostLine("0.0.0.0", n) in db.records
  {
    forall i | 0 <= i < |r.blocks| && r.blocks[i].Policy?
      ensures r.blocks[i].profile in r.hosts
    {
      EveryBlockHasHosts(db, norm, now, r, i);
    }
    InstalledServes(engine, r, style, combined, files, dir, client, norm(domain).value);
    HouseholdRules.ServedIs(db, norm, now, domain, client, p);
  }
}
