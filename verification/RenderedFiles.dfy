/** The text of the rendered Corefile, and what it means for the files installed with it. */
module RenderedFiles {
  import opened Basics
  import opened Schedule
  import opened Policy
  import opened Decimals
  import opened Corefile

  // ----- lines

  type OneLine = s: string | '\n' !in s

  type Indent = s: string | '\n' !in s && forall i :: 0 <= i < |s| ==> IsSpace(s[i])

  /** The beginning of a line that is not a hosts line. */
  type Keyword = s: string | s != "" && '\n' !in s && !IsSpace(s[0]) && s[0] != 'h' witness "}"

  datatype Line = Blank(indent: Indent) | Words(indent: Indent, keyword: Keyword, rest: OneLine) | Hosts(id: ProfileId)

  const NONE: Indent := ""
  const FOUR: Indent := "    "
  const EIGHT: Indent := "        "
  const TAB: Indent := "\t"
  const TABS: Indent := "\t\t"

  const SERVER: Keyword := ".:53 {"
  const CLOSE: Keyword := "}"
  const VIEW_PAUSE: Keyword := "view device_pause_"
  const VIEW_PROTECTION: Keyword := "view protection_"
  const EXPR: Keyword := "expr "
  const ERRORS: Keyword := "errors"
  const METADATA: Keyword := "metadata"
  const LOG: Keyword := "log . "
  const LOG_CLIENT: OneLine := "\"FARO|{remote}|{type}|{name}|"
  const LOG_RESULT: OneLine := "{rcode}|{duration}|"
  const LOG_UPSTREAM: OneLine := "{/forward/upstream}\""
  const ACL: Keyword := "acl {"
  const ALLOW: Keyword := "allow net "
  const BLOCK: Keyword := "block"
  const TEMPLATE: Keyword := "template ANY ANY {"
  const RCODE: Keyword := "rcode REFUSED"
  const PROMETHEUS: Keyword := "prometheus 0.0.0.0:9153"
  const RELOAD: Keyword := "reload 2s"
  const TTL: Keyword := "ttl 60"
  const FALLTHROUGH: Keyword := "fallthrough"
  const CACHE: Keyword := "cache "
  const SUCCESS: Keyword := "success 9984 "
  const DENIAL: Keyword := "denial 4096 "
  const FORWARD: Keyword := "forward . "
  const OPEN: OneLine := " {"
  const FIVE: OneLine := " 5"

  function Plus(a: OneLine, b: OneLine): OneLine {
    a + b
  }

  function Number(n: int): OneLine {
    DecimalIsNumeric(n);
    Decimal(n)
  }

  function LogFormat(): OneLine {
    Plus(Plus(LOG_CLIENT, LOG_RESULT), LOG_UPSTREAM)
  }

  function HostsName(id: ProfileId): Name {
    "protection-" + Decimal(id) + ".hosts"
  }

  function HostsText(id: ProfileId): string {
    "\t    hosts " + (PATH_PREFIX + HostsName(id)) + OPEN
  }

  function LineText(line: Line): string {
    match line
    case Blank(indent) => indent
    case Words(indent, keyword, rest) => indent + keyword + rest
    case Hosts(id) => HostsText(id)
  }

  function Text(lines: seq<Line>): string {
    if lines == [] then "" else LineText(lines[0]) + "\n" + Text(lines[1..])
  }

  // ----- server blocks

  /** The settings of the template, and how client addresses and host lines are written out. */
  datatype Style = Style(
    upstreams: seq<OneLine>,
    cache: bool,
    cacheTTL: int,
    denialTTL: int,
    cidrs: seq<OneLine>,
    expression: set<Address> -> string,
    hostLines: set<HostLine> -> string)

  /** Every word followed by a space. */
  function Spaced(words: seq<OneLine>): OneLine {
    if words == [] then "" else Plus(Plus(words[0], " "), Spaced(words[1..]))
  }

  function Joined(words: seq<OneLine>): OneLine {
    if words == [] then "" else if |words| == 1 then words[0] else Plus(Plus(words[0], " "), Joined(words[1..]))
  }

  /** The stored addresses of the block's clients hold no line break. */
  predicate Clean(block: ServerBlock, style: Style) {
    match block
    case Refuse(_, clients) => '\n' !in style.expression(clients)
    case Policy(_, view) => view.Some? ==> '\n' !in style.expression(view.value)
  }

  predicate AllClean(blocks: seq<ServerBlock>, style: Style) {
    forall i :: 0 <= i < |blocks| ==> Clean(blocks[i], style)
  }

  function PauseLines(device: DeviceId, expression: OneLine, style: Style): (lines: seq<Line>)
    ensures NoHosts(lines)
  {
    PauseView(device, expression) + PauseMiddle(style) + [Words(EIGHT, RCODE, "")] + PauseEnd()
  }

  function PauseView(device: DeviceId, expression: OneLine): (lines: seq<Line>)
    ensures NoHosts(lines)
  {
    [ Words(NONE, SERVER, "") ] + [ Words(FOUR, VIEW_PAUSE, Plus(Number(device), OPEN)), Words(EIGHT, EXPR, expression) ]
  }

  function PauseMiddle(style: Style): (lines: seq<Line>)
    ensures NoHosts(lines)
  {
    [ Words(FOUR, CLOSE, ""),
      Words(FOUR, ERRORS, ""),
      Words(FOUR, METADATA, ""),
      Words(FOUR, LOG, LogFormat()),
      Words(FOUR, ACL, ""),
      Words(EIGHT, ALLOW, Joined(style.cidrs)),
      Words(EIGHT, BLOCK, ""),
      Words(FOUR, CLOSE, ""),
      Words(FOUR, TEMPLATE, "") ]
  }

  function PauseEnd(): (lines: seq<Line>)
    ensures NoHosts(lines)
  {
    [ Words(FOUR, CLOSE, ""), Words(NONE, CLOSE, "") ]
  }

  function ViewLines(id: ProfileId, expression: OneLine): (lines: seq<Line>)
    ensures NoHosts(lines)
  {
    [ Words(FOUR, VIEW_PROTECTION, Plus(Number(id), OPEN)), Words(EIGHT, EXPR, expression) ] + [ Words(FOUR, CLOSE, "") ]
  }

  /** Between the view and the hosts line. */
  function HeadLines(isDefault: bool, style: Style): (lines: seq<Line>)
    ensures NoHosts(lines)
  {
    [ Blank(FOUR), Words(FOUR, ERRORS, ""), Words(FOUR, METADATA, ""), Words(FOUR, LOG, LogFormat()), Blank(FOUR) ]
    + (if isDefault then [ Words(FOUR, PROMETHEUS, ""), Words(FOUR, RELOAD, ""), Blank(TAB) ] else [])
    + [ Words(TAB, ACL, ""), Words(TABS, ALLOW, Spaced(style.cidrs)), Words(TABS, BLOCK, ""), Words(TAB, CLOSE, "") ]
  }

  /** Between the hosts line and the forward line. */
  function CacheLines(style: Style): (lines: seq<Line>)
    ensures NoHosts(lines)
  {
    [ Words(EIGHT, TTL, ""), Words(EIGHT, FALLTHROUGH, ""), Words(FOUR, CLOSE, "") ]
    + if style.cache then
        [ Words(FOUR, CACHE, Plus(Number(style.cacheTTL), OPEN)),
          Words(EIGHT, SUCCESS, Plus(Number(style.cacheTTL), FIVE)),
          Words(EIGHT, DENIAL, Plus(Number(style.denialTTL), FIVE)),
          Words(FOUR, CLOSE, "") ]
      else []
  }

  function BlockLines(block: ServerBlock, style: Style): seq<Line>
    requires Clean(block, style)
  {
    match block
    case Refuse(device, clients) => PauseLines(device, style.expression(clients), style)
    case Policy(id, view) => Before(id, view, style) + [Hosts(id)] + After(style)
  }

  function Before(id: ProfileId, view: Option<set<Address>>, style: Style): (lines: seq<Line>)
    requires Clean(Policy(id, view), style)
    ensures NoHosts(lines) && Words(NONE, SERVER, "") in lines
  {
    [Words(NONE, SERVER, "")] + (if view.None? then [] else ViewLines(id, style.expression(view.value))) + HeadLines(view.None?, style)
  }

  function After(style: Style): (lines: seq<Line>)
    ensures NoHosts(lines) && Words(FOUR, FORWARD, Spaced(style.upstreams)) in lines
  {
    CacheLines(style) + [Words(FOUR, FORWARD, Spaced(style.upstreams))] + [Words(NONE, CLOSE, "")]
  }

  predicate NoHosts(lines: seq<Line>) {
    forall line :: line in lines ==> !line.Hosts?
  }

  function CorefileText(blocks: seq<ServerBlock>, style: Style): string
    requires AllClean(blocks, style)
  {
    if blocks == [] then "" else Text(BlockLines(blocks[0], style)) + CorefileText(blocks[1..], style)
  }

  // ----- lines that name no hosts file, and the line that does

  lemma {:induction false} SkipsIndent(s: string, i: nat, pad: nat)
    requires i <= pad <= |s| && (forall k :: i <= k < pad ==> IsSpace(s[k])) && (pad < |s| ==> !IsSpace(s[pad]))
    ensures SkipSpace(s, i) == pad
    decreases pad - i
  {
    if i < pad {
      SkipsIndent(s, i + 1, pad);
    }
  }

  lemma {:induction false} WordEndsAt(s: string, i: nat, e: nat)
    requires i <= e <= |s| && (forall k :: i <= k < e ==> !IsSpace(s[k])) && (e < |s| ==> IsSpace(s[e]))
    ensures WordEnd(s, i) == e
    decreases e - i
  {
    if i < e {
      WordEndsAt(s, i + 1, e);
    }
  }

  lemma BlankNamesNothing(indent: Indent)
    ensures LineReference(indent) == NoReference
  {
    SkipsIndent(indent, 0, |indent|);
  }

  lemma WordsNameNothing(indent: Indent, keyword: Keyword, rest: OneLine)
    ensures LineReference(indent + keyword + rest) == NoReference
  {
    var s, b := indent + keyword + rest, |indent|;
    SkipsIndent(s, 0, b);
    assert Fields(s, 0)[0] == s[b..WordEnd(s, b)];
    assert Fields(s, 0)[0][0] == keyword[0];
  }

  predicate Solid(s: string) {
    forall k :: 0 <= k < |s| ==> !IsSpace(s[k])
  }

  lemma Enclosed(a: string, b: string, c: string)
    requires Solid(a) && Solid(b) && Solid(c) && '/' !in a && '/' !in b && '/' !in c
    ensures Solid(a + b + c) && '/' !in a + b + c && a <= a + b + c && EndsWith(a + b + c, c)
  {
    assert (a + b + c)[|a + b + c| - |c|..] == c;
  }

  lemma HostsNameIsSafe(id: ProfileId)
    ensures SafeName(HostsName(id)) && IsManaged(HostsName(id)) && HostsName(id) != COREFILE && Solid(HostsName(id))
  {
    DecimalIsNumeric(id);
    Enclosed("protection-", Decimal(id), ".hosts");
    assert HostsName(id)[0] == 'p';
  }

  lemma HostsNameIsInjective(a: ProfileId, b: ProfileId)
    requires HostsName(a) == HostsName(b)
    ensures a == b
  {
    assert HostsName(a)[11..|HostsName(a)| - 6] == Decimal(a);
    assert HostsName(b)[11..|HostsName(b)| - 6] == Decimal(b);
    DecimalIsInjective(a, b);
  }

  lemma PathIsSolid(name: Name)
    requires Solid(name)
    ensures Solid(PATH_PREFIX + name)
  {
  }

  /** A keyword, a path, an opening brace. */
  lemma TwoFields(s: string, path: string)
    requires path != "" && Solid(path) && s == "\t    hosts " + path + " {"
    ensures |Fields(s, 0)| >= 2 && Fields(s, 0)[0] == "hosts" && Fields(s, 0)[1] == path
  {
    var e := 11 + |path|;
    assert s[5..10] == "hosts" && s[10] == ' ' && s[11..e] == path && s[e] == ' ';
    SkipsIndent(s, 0, 5);
    WordEndsAt(s, 5, 10);
    assert forall k :: 11 <= k < e ==> s[k] == path[k - 11];
    assert s[11] == path[0];
    SkipsIndent(s, 10, 11);
    WordEndsAt(s, 11, e);
    assert Fields(s, 10) == [s[11..e]] + Fields(s, e);
    assert Fields(s, 0) == [s[5..10]] + Fields(s, 10);
  }

  lemma HostsLineNames(id: ProfileId)
    ensures LineReference(HostsText(id)) == Reference(HostsName(id))
  {
    HostsNameIsSafe(id);
    PathIsSolid(HostsName(id));
    TwoFields(HostsText(id), PATH_PREFIX + HostsName(id));
    assert (PATH_PREFIX + HostsName(id))[|PATH_PREFIX|..] == HostsName(id);
  }

  // ----- parsing the rendered text

  lemma {:induction false} LineEndsAt(s: string, i: nat, e: nat)
    requires i <= e < |s| && (forall k :: i <= k < e ==> s[k] != '\n') && s[e] == '\n'
    ensures LineEnd(s, i) == e
    decreases e - i
  {
    if i < e {
      LineEndsAt(s, i + 1, e);
    }
  }

  lemma FirstLine(a: string, more: string)
    requires '\n' !in a
    ensures References(a + "\n" + more) == WithReference(LineReference(a), References(more))
  {
    var s := a + "\n" + more;
    LineEndsAt(s, 0, |a|);
    assert s[..|a|] == a && s[|a| + 1..] == more;
  }

  function Mention(line: Line): set<Name> {
    if line.Hosts? then {HostsName(line.id)} else {}
  }

  lemma LineIs(line: Line)
    ensures '\n' !in LineText(line)
    ensures LineReference(LineText(line)) == if line.Hosts? then Reference(HostsName(line.id)) else NoReference
  {
    match line
    case Blank(indent) =>
      BlankNamesNothing(indent);
    case Words(indent, keyword, rest) =>
      WordsNameNothing(indent, keyword, rest);
    case Hosts(id) =>
      HostsLineNames(id);
      HostsTextIsOneLine(id);
  }

  lemma LineMentions(line: Line, more: string)
    ensures References(LineText(line) + "\n" + more) == Also(Mention(line), References(more))
  {
    LineIs(line);
    FirstLine(LineText(line), more);
    NothingMore(References(more));
  }

  lemma HostsTextIsOneLine(id: ProfileId)
    ensures '\n' !in HostsText(id)
  {
    HostsNameIsSafe(id);
    PathIsSolid(HostsName(id));
  }

  function Mentions(lines: seq<Line>): set<Name> {
    if lines == [] then {} else Mention(lines[0]) + Mentions(lines[1..])
  }

  lemma {:induction false} TextMentions(lines: seq<Line>, more: string)
    ensures References(Text(lines) + more) == Also(Mentions(lines), References(more))
    decreases |lines|
  {
    if lines == [] {
      assert Text(lines) + more == more;
      NothingMore(References(more));
    } else {
      TextMentions(lines[1..], more);
      LineMentions(lines[0], Text(lines[1..]) + more);
      assert Text(lines) + more == LineText(lines[0]) + "\n" + (Text(lines[1..]) + more);
      AlsoTwice(Mention(lines[0]), Mentions(lines[1..]), References(more));
    }
  }

  lemma NothingMore(r: Option<set<Name>>)
    ensures Also({}, r) == r
  {
    assert r.Some? ==> {} + r.value == r.value;
  }

  lemma AlsoTwice(a: set<Name>, b: set<Name>, r: Option<set<Name>>)
    ensures Also(a, Also(b, r)) == Also(a + b, r)
  {
    assert r.Some? ==> a + (b + r.value) == (a + b) + r.value;
  }

  lemma FirstOfBoth<T>(a: seq<T>, b: seq<T>)
    requires a != []
    ensures (a + b)[0] == a[0] && (a + b)[1..] == a[1..] + b
  {
  }

  lemma {:induction false} PlainLinesMentionNothing(lines: seq<Line>, more: seq<Line>)
    requires NoHosts(lines)
    ensures Mentions(lines + more) == Mentions(more)
    decreases |lines|
  {
    if lines == [] {
      assert lines + more == more;
    } else {
      PlainLinesMentionNothing(lines[1..], more);
      FirstOfBoth(lines, more);
    }
  }

  function BlockName(block: ServerBlock): set<Name> {
    if block.Policy? then {HostsName(block.profile)} else {}
  }

  lemma OneHostsLine(before: seq<Line>, id: ProfileId, after: seq<Line>)
    requires NoHosts(before) && NoHosts(after)
    ensures Mentions(before + [Hosts(id)] + after) == {HostsName(id)}
  {
    PlainLinesMentionNothing(before, [Hosts(id)] + after);
    PlainLinesMentionNothing(after, []);
    assert after + [] == after && ([Hosts(id)] + after)[1..] == after;
    assert before + [Hosts(id)] + after == before + ([Hosts(id)] + after);
  }

  lemma BlockMentions(block: ServerBlock, style: Style)
    requires Clean(block, style)
    ensures Mentions(BlockLines(block, style)) == BlockName(block)
  {
    match block
    case Refuse(device, clients) =>
      var lines := PauseLines(device, style.expression(clients), style);
      PlainLinesMentionNothing(lines, []);
      assert lines + [] == lines;
    case Policy(id, view) =>
      OneHostsLine(Before(id, view, style), id, After(style));
  }

  /** The hosts files of the blocks that have one. */
  function BlockNames(blocks: seq<ServerBlock>): set<Name> {
    if blocks == [] then {} else BlockName(blocks[0]) + BlockNames(blocks[1..])
  }

  /** Parsing the rendered Corefile gives back exactly the hosts files of its blocks, and none is unsafe. */
  lemma {:induction false} ParsingUndoesRendering(blocks: seq<ServerBlock>, style: Style)
    requires AllClean(blocks, style)
    ensures References(CorefileText(blocks, style)) == Some(BlockNames(blocks))
    decreases |blocks|
  {
    if blocks == [] {
      BlankNamesNothing("");
    } else {
      ParsingUndoesRendering(blocks[1..], style);
      BlockMentions(blocks[0], style);
      TextMentions(BlockLines(blocks[0], style), CorefileText(blocks[1..], style));
    }
  }

  // ----- the text serves and forwards

  lemma EitherContains(a: string, b: string, word: string)
    ensures Contains(a, word) || Contains(b, word) ==> Contains(a + b, word)
  {
    if Contains(a, word) {
      var i :| 0 <= i <= |a| - |word| && IsAt(a, i, word);
      assert (a + b)[i..i + |word|] == a[i..i + |word|];
      assert IsAt(a + b, i, word);
    } else if Contains(b, word) {
      var i :| 0 <= i <= |b| - |word| && IsAt(b, i, word);
      assert (a + b)[|a| + i..|a| + i + |word|] == b[i..i + |word|];
      assert IsAt(a + b, |a| + i, word);
    }
  }

  lemma {:induction false} TextContains(lines: seq<Line>, line: Line, word: string)
    requires line in lines && Contains(LineText(line), word)
    ensures Contains(Text(lines), word)
    decreases |lines|
  {
    EitherContains(LineText(lines[0]), "\n", word);
    EitherContains(LineText(lines[0]) + "\n", Text(lines[1..]), word);
    if lines[0] != line {
      TextContains(lines[1..], line, word);
    }
  }

  lemma ServerLineContains()
    ensures Contains(LineText(Words(NONE, SERVER, "")), ".:53")
  {
    assert IsAt(NONE + SERVER + "", 0, ".:53");
  }

  lemma ForwardLineContains(rest: OneLine)
    ensures Contains(LineText(Words(FOUR, FORWARD, rest)), "forward .")
  {
    var s := FOUR + FORWARD + rest;
    assert s[4..13] == FORWARD[..9] == "forward .";
    assert IsAt(s, 4, "forward .");
  }

  lemma PolicyBlockServes(block: ServerBlock, style: Style)
    requires Clean(block, style) && block.Policy?
    ensures HasBlocks(Text(BlockLines(block, style)))
  {
    ServerLineContains();
    ForwardLineContains(Spaced(style.upstreams));
    TextContains(BlockLines(block, style), Words(NONE, SERVER, ""), ".:53");
    TextContains(BlockLines(block, style), Words(FOUR, FORWARD, Spaced(style.upstreams)), "forward .");
  }

  lemma FirstOrRest(blocks: seq<ServerBlock>, style: Style, word: string)
    requires AllClean(blocks, style) && blocks != []
    requires Contains(Text(BlockLines(blocks[0], style)), word) || Contains(CorefileText(blocks[1..], style), word)
    ensures Contains(CorefileText(blocks, style), word)
  {
    EitherContains(Text(BlockLines(blocks[0], style)), CorefileText(blocks[1..], style), word);
  }

  lemma {:induction false} CorefileContains(blocks: seq<ServerBlock>, style: Style, i: nat, word: string)
    requires AllClean(blocks, style) && i < |blocks| && Contains(Text(BlockLines(blocks[i], style)), word)
    ensures Contains(CorefileText(blocks, style), word)
    decreases |blocks|
  {
    if i > 0 {
      assert blocks[1..][i - 1] == blocks[i];
      CorefileContains(blocks[1..], style, i - 1, word);
    }
    FirstOrRest(blocks, style, word);
  }

  lemma RenderedServes(blocks: seq<ServerBlock>, style: Style, i: nat)
    requires AllClean(blocks, style) && i < |blocks| && blocks[i].Policy?
    ensures HasBlocks(CorefileText(blocks, style))
  {
    PolicyBlockServes(blocks[i], style);
    CorefileContains(blocks, style, i, ".:53");
    CorefileContains(blocks, style, i, "forward .");
  }

  // ----- the files of a render

  lemma NamesDiffer()
    ensures forall a, b :: HostsName(a) == HostsName(b) ==> a == b
  {
    forall a, b | HostsName(a) == HostsName(b)
      ensures a == b
    {
      HostsNameIsInjective(a, b);
    }
  }

  /** One hosts file per profile. */
  function ProtectionFiles(hosts: map<ProfileId, set<HostLine>>, style: Style): Files {
    NamesDiffer();
    map id | id in hosts :: HostsName(id) := style.hostLines(hosts[id])
  }

  /** All that was rendered; `combined` are faro.hosts, local.hosts and blocklist.hosts. */
  function AllFiles(r: Rendered, style: Style, combined: Files): Files
    requires AllClean(r.blocks, style)
  {
    combined + ProtectionFiles(r.hosts, style) + map[COREFILE := CorefileText(r.blocks, style)]
  }

  /** The files to install: the Corefile and the hosts files it names. */
  method RuntimeFiles(r: Rendered, style: Style, combined: Files) returns (files: Option<Files>)
    requires AllClean(r.blocks, style)
    ensures files.Some? <==> BlockNames(r.blocks) <= AllFiles(r, style, combined).Keys
    ensures files.Some? ==> IsRuntimeFiles(r, style, combined, files.value)
  {
    var all := AllFiles(r, style, combined);
    var names := HostFiles(all[COREFILE]);
    ParsingUndoesRendering(r.blocks, style);
    files := Choose(all, names.value);
  }

  predicate IsRuntimeFiles(r: Rendered, style: Style, combined: Files, files: Files)
    requires AllClean(r.blocks, style)
  {
    files.Keys == BlockNames(r.blocks) + {COREFILE} && Agree(AllFiles(r, style, combined), files)
  }

  method Choose(all: Files, names: set<Name>) returns (files: Option<Files>)
    requires COREFILE in all
    ensures files.Some? <==> names <= all.Keys
    ensures files.Some? ==> files.value.Keys == names + {COREFILE} && Agree(all, files.value)
  {
    var rest, chosen := names, map[COREFILE := all[COREFILE]];
    while rest != {}
      invariant rest <= names && chosen.Keys == (names - rest) + {COREFILE} && Agree(all, chosen)
    {
      var name := Pick(rest);
      if name !in all {
        return None;
      }
      chosen := chosen[name := all[name]];
      rest := rest - {name};
    }
    files := Some(chosen);
  }

  /** The default profile and every profile with clients. */
  predicate Served(db: Database, p: Profile) {
    p.isDefault || ClientAddresses(db, p.id) != {}
  }

  function ServedNames(db: Database, profiles: seq<Profile>): set<Name> {
    set p | p in profiles && Served(db, p) :: HostsName(p.id)
  }

  lemma {:induction false} PolicyBlockNames(db: Database, profiles: seq<Profile>)
    ensures BlockNames(PolicyBlocks(db, profiles)) == ServedNames(db, profiles)
    decreases |profiles|
  {
    if profiles != [] {
      PolicyBlockNames(db, profiles[1..]);
      var p, rest := profiles[0], PolicyBlocks(db, profiles[1..]);
      OneMoreServed(db, p, profiles[1..]);
      assert profiles == [p] + profiles[1..];
      if Served(db, p) {
        var block := PolicyBlocks(db, profiles)[0];
        assert PolicyBlocks(db, profiles) == [block] + rest && block.Policy? && block.profile == p.id;
        assert PolicyBlocks(db, profiles)[1..] == rest;
      }
    }
  }

  lemma OneMoreServed(db: Database, p: Profile, rest: seq<Profile>)
    ensures ServedNames(db, [p] + rest) == (if Served(db, p) then {HostsName(p.id)} else {}) + ServedNames(db, rest)
  {
  }

  lemma {:induction false} RefusalsNameNothing(blocks: seq<ServerBlock>, more: seq<ServerBlock>)
    requires forall block :: block in blocks ==> block.Refuse?
    ensures BlockNames(blocks + more) == BlockNames(more)
    decreases |blocks|
  {
    if blocks == [] {
      assert blocks + more == more;
    } else {
      assert blocks[0] in blocks;
      RefusalsNameNothing(blocks[1..], more);
      FirstOfBoth(blocks, more);
    }
  }

  lemma {:induction false} PausesAreRefusals(db: Database, pauses: seq<Pause>, now: Instant)
    ensures forall block :: block in PausedDevices(db, pauses, now) ==> block.Refuse?
    decreases |pauses|
  {
    if pauses != [] {
      PausesAreRefusals(db, pauses[1..], now);
    }
  }

  lemma {:induction false} WhereContains(profiles: seq<Profile>, isDefault: bool, p: Profile)
    ensures p in Where(profiles, isDefault) <==> p in profiles && p.isDefault == isDefault
    decreases |profiles|
  {
    if profiles != [] {
      WhereContains(profiles[1..], isDefault, p);
    }
  }

  /** The Corefile names the hosts files of the default profile and of every profile with clients, and no others. */
  lemma RenderedNames(db: Database, norm: Normalizer, now: Instant)
    requires Render(db, norm, now).Some?
    ensures BlockNames(Render(db, norm, now).value.blocks) == ServedNames(db, db.profiles)
  {
    PausesAreRefusals(db, db.pauses, now);
    RefusalsNameNothing(PausedDevices(db, db.pauses, now), PolicyBlocks(db, RenderOrder(db)));
    PolicyBlockNames(db, RenderOrder(db));
    forall p
      ensures p in RenderOrder(db) <==> p in db.profiles
    {
      WhereContains(db.profiles, false, p);
      WhereContains(db.profiles, true, p);
    }
  }

  lemma {:induction false} HostsForEveryProfile(db: Database, norm: Normalizer, now: Instant, n: nat, i: nat)
    requires Renderable(db, norm, now) && i < n <= |db.profiles|
    ensures db.profiles[i].id in HostsFiles(db, norm, now, n)
    decreases n
  {
    if i < n - 1 {
      HostsForEveryProfile(db, norm, now, n - 1, i);
    }
  }

  lemma {:induction false} DefaultHasABlock(db: Database, profiles: seq<Profile>, p: Profile) returns (i: nat)
    requires p in profiles && p.isDefault
    ensures i < |PolicyBlocks(db, profiles)| && PolicyBlocks(db, profiles)[i].Policy?
    decreases |profiles|
  {
    if profiles[0] == p {
      i := 0;
    } else {
      var k := DefaultHasABlock(db, profiles[1..], p);
      var blocks, rest := PolicyBlocks(db, profiles), PolicyBlocks(db, profiles[1..]);
      i := k + |blocks| - |rest|;
      assert blocks[i] == rest[k];
    }
  }

  lemma EveryNameHasAFile(db: Database, norm: Normalizer, now: Instant, style: Style, combined: Files, r: Rendered)
    requires Render(db, norm, now) == Some(r) && AllClean(r.blocks, style)
    ensures BlockNames(r.blocks) <= AllFiles(r, style, combined).Keys
  {
    RenderedNames(db, norm, now);
    forall p | p in db.profiles
      ensures HostsName(p.id) in ProtectionFiles(r.hosts, style)
    {
      var i :| 0 <= i < |db.profiles| && db.profiles[i] == p;
      HostsForEveryProfile(db, norm, now, |db.profiles|, i);
    }
  }

  lemma NamesAreServed(db: Database, norm: Normalizer, now: Instant, r: Rendered, p: Profile)
    requires Render(db, norm, now) == Some(r) && p in db.profiles && p.isDefault
    ensures BlockNames(r.blocks) == ServedNames(db, db.profiles) && HostsName(p.id) in BlockNames(r.blocks)
    ensures HostsName(p.id) != COREFILE && forall name :: name in BlockNames(r.blocks) ==> IsManaged(name)
  {
    RenderedNames(db, norm, now);
    AllManaged(db, db.profiles);
    HostsNameIsSafe(p.id);
  }

  lemma {:induction false} NamesOfBlock(blocks: seq<ServerBlock>, i: nat)
    requires i < |blocks| && blocks[i].Policy?
    ensures HostsName(blocks[i].profile) in BlockNames(blocks)
    decreases |blocks|
  {
    if i > 0 {
      NamesOfBlock(blocks[1..], i - 1);
    }
  }

  lemma RuntimeFilesAreDeployable(r: Rendered, style: Style, combined: Files, files: Files, i: nat)
    requires AllClean(r.blocks, style) && i < |r.blocks| && r.blocks[i].Policy?
    requires IsRuntimeFiles(r, style, combined, files)
    ensures Deployable(files)
  {
    ParsingUndoesRendering(r.blocks, style);
    RenderedServes(r.blocks, style, i);
    NamesOfBlock(r.blocks, i);
    assert files[COREFILE] == CorefileText(r.blocks, style);
  }

  lemma DeployableIsReplicable(files: Files, name: Name)
    requires Deployable(files) && name in files && name != COREFILE
    requires forall other :: other in files ==> IsManaged(other)
    ensures Replicable(files) <==> |files| <= 64 && Total(files, files.Keys) <= MAX_BYTES
  {
    TwoOrMore(files, COREFILE, name);
  }

  lemma RenderHasAPolicyBlock(db: Database, norm: Normalizer, now: Instant, p: Profile, r: Rendered) returns (i: nat)
    requires Render(db, norm, now) == Some(r) && p in db.profiles && p.isDefault
    ensures i < |r.blocks| && r.blocks[i].Policy?
  {
    WhereContains(db.profiles, true, p);
    var k := DefaultHasABlock(db, RenderOrder(db), p);
    i := |PausedDevices(db, db.pauses, now)| + k;
  }

  /** With a default profile, the files to install always exist, are exactly the ones the Corefile names, and pass the
      check made before installing them; a replica accepts them unless there are too many or they are too large. */
  lemma RenderedFilesAreClosedAndReplicable(db: Database, norm: Normalizer, now: Instant, style: Style, combined: Files, p: Profile,
                                            r: Rendered, files: Files)
    requires Render(db, norm, now) == Some(r) && p in db.profiles && p.isDefault && AllClean(r.blocks, style)
    ensures BlockNames(r.blocks) <= AllFiles(r, style, combined).Keys
    ensures IsRuntimeFiles(r, style, combined, files) ==>
      && files.Keys == ServedNames(db, db.profiles) + {COREFILE}
      && Deployable(files)
      && (Replicable(files) <==> |files| <= 64 && Total(files, files.Keys) <= 536870912)
  {
    EveryNameHasAFile(db, norm, now, style, combined, r);
    if IsRuntimeFiles(r, style, combined, files) {
      var i := RenderHasAPolicyBlock(db, norm, now, p, r);
      RuntimeFilesAreDeployable(r, style, combined, files, i);
      NamesAreServed(db, norm, now, r, p);
      DeployableIsReplicable(files, HostsName(p.id));
    }
  }

  lemma AllManaged(db: Database, profiles: seq<Profile>)
    ensures forall name :: name in ServedNames(db, profiles) ==> IsManaged(name)
  {
    forall p | p in profiles
      ensures IsManaged(HostsName(p.id))
    {
      HostsNameIsSafe(p.id);
    }
  }

  lemma TwoOrMore(files: Files, a: Name, b: Name)
    requires a in files && b in files && a != b
    ensures |files| >= 2
  {
    assert files.Keys == {a, b} + (files.Keys - {a, b});
    assert |files.Keys| == |{a, b}| + |files.Keys - {a, b}|;
  }
}
