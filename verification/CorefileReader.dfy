/** A reader of Corefile text: what an engine finds in it, block by block. */
module CorefileReader {
  import opened Basics
  import opened Policy
  import opened Decimals
  import opened Corefile
  import opened RenderedFiles

  // ----- what one line says

  datatype Mark =
    | Nothing
    | Server
    | View(title: string)
    | Expression(text: string)
    | Refusal
    | Forward(upstreams: string)
    | HostsFile(name: Name)

  /** The line behind its indentation. */
  function Body(s: string): string {
    s[SkipSpace(s, 0)..]
  }

  function MarkOf(s: string): Mark {
    var body := Body(s);
    if body == ".:53 {" then Server
    else if "view " <= body then View(body[5..])
    else if "expr " <= body then Expression(body[5..])
    else if body == "rcode REFUSED" then Refusal
    else if "forward . " <= body then Forward(body[10..])
    else match LineReference(s)
      case Reference(name) => HostsFile(name)
      case _ => Nothing
  }

  function Marked(m: Mark): seq<Mark> {
    if m.Nothing? then [] else [m]
  }

  /** What the lines of a text say, in order. */
  function Marks(text: string): seq<Mark>
    decreases |text|
  {
    var e := LineEnd(text, 0);
    Marked(MarkOf(text[..e])) + if e == |text| then [] else Marks(text[e + 1..])
  }

  // ----- blocks

  datatype Block = Block(view: Option<string>, expression: Option<string>, refuses: bool, hosts: Option<Name>, upstreams: Option<string>)

  const PLAIN: Block := Block(None, None, false, None, None)

  function WithMark(b: Block, m: Mark): Block {
    match m
    case View(title) => b.(view := Some(title))
    case Expression(text) => b.(expression := Some(text))
    case Refusal => b.(refuses := true)
    case HostsFile(name) => b.(hosts := Some(name))
    case Forward(upstreams) => b.(upstreams := Some(upstreams))
    case _ => b
  }

  /** The blocks of a list of marks, and what stands before the first one. */
  function ReadMarks(marks: seq<Mark>): (Block, seq<Block>) {
    if marks == [] then (PLAIN, [])
    else
      var (open, blocks) := ReadMarks(marks[1..]);
      if marks[0].Server? then (PLAIN, [open] + blocks) else (WithMark(open, marks[0]), blocks)
  }

  function ReadBlocks(text: string): seq<Block> {
    ReadMarks(Marks(text)).1
  }

  // ----- the lines of the template

  lemma BodyIs(indent: Indent, keyword: Keyword, rest: OneLine)
    ensures Body(indent + keyword + rest) == keyword + rest
  {
    var s := indent + keyword + rest;
    SkipsIndent(s, 0, |indent|);
    assert s[|indent|..] == keyword + rest;
  }

  /** A keyword that begins like none of those that matter. */
  predicate Plain(keyword: Keyword) {
    Differs(keyword, '.', ':') && Differs(keyword, 'v', 'i') && Differs(keyword, 'e', 'x') && Differs(keyword, 'r', 'c')
    && Differs(keyword, 'f', 'o')
  }

  predicate Differs(s: string, a: char, b: char)
    requires s != ""
  {
    s[0] != a || (|s| >= 2 && s[1] != b)
  }

  lemma OtherBeginning(prefix: string, body: string)
    requires |prefix| >= 2 && body != "" && Differs(body, prefix[0], prefix[1])
    ensures !(prefix <= body)
  {
  }

  lemma NoneOfThem(body: string)
    requires body != "" && Differs(body, '.', ':') && Differs(body, 'v', 'i') && Differs(body, 'e', 'x') && Differs(body, 'r', 'c')
    requires Differs(body, 'f', 'o')
    ensures body != ".:53 {" && !("view " <= body) && !("expr " <= body) && body != "rcode REFUSED" && !("forward . " <= body)
  {
    OtherBeginning(".:53 {", body);
    OtherBeginning("view ", body);
    OtherBeginning("expr ", body);
    OtherBeginning("rcode REFUSED", body);
    OtherBeginning("forward . ", body);
  }

  lemma PlainSaysNothing(indent: Indent, keyword: Keyword, rest: OneLine)
    requires Plain(keyword)
    ensures MarkOf(indent + keyword + rest) == Nothing
  {
    BodyIs(indent, keyword, rest);
    WordsNameNothing(indent, keyword, rest);
    var body := keyword + rest;
    assert body[0] == keyword[0] && (|keyword| >= 2 ==> body[1] == keyword[1]);
    NoneOfThem(body);
  }

  lemma BlankSaysNothing(indent: Indent)
    ensures MarkOf(indent) == Nothing
  {
    SkipsIndent(indent, 0, |indent|);
    BlankNamesNothing(indent);
    assert Body(indent) == "";
  }

  lemma ServerLine()
    ensures MarkOf(LineText(Words(NONE, SERVER, ""))) == Server
  {
    BodyIs(NONE, SERVER, "");
    assert SERVER + "" == ".:53 {";
  }

  lemma RefusalLine()
    ensures MarkOf(LineText(Words(EIGHT, RCODE, ""))) == Refusal
  {
    BodyIs(EIGHT, RCODE, "");
    assert RCODE + "" == "rcode REFUSED";
  }

  lemma ViewLine(keyword: Keyword, title: string, rest: OneLine)
    requires keyword == "view " + title
    ensures MarkOf(LineText(Words(FOUR, keyword, rest))) == View(title + rest)
  {
    BodyIs(FOUR, keyword, rest);
    var body := keyword + rest;
    assert body[0] == 'v' && body[..5] == "view " && body[5..] == title + rest;
  }

  lemma ExpressionLine(rest: OneLine)
    ensures MarkOf(LineText(Words(EIGHT, EXPR, rest))) == Expression(rest)
  {
    BodyIs(EIGHT, EXPR, rest);
    var body := EXPR + rest;
    assert body[0] == 'e' && body[..5] == "expr " && body[5..] == rest;
    assert ".:53 {"[0] == '.' && "view "[0] == 'v';
  }

  lemma ForwardLine(rest: OneLine)
    ensures MarkOf(LineText(Words(FOUR, FORWARD, rest))) == Forward(rest)
  {
    BodyIs(FOUR, FORWARD, rest);
    var body := FORWARD + rest;
    assert body[0] == 'f' && body[..10] == "forward . " && body[10..] == rest;
    assert ".:53 {"[0] == '.' && "view "[0] == 'v' && "expr "[0] == 'e' && "rcode REFUSED"[0] == 'r';
  }

  lemma HostsBody(id: ProfileId)
    ensures Body(HostsText(id)) != "" && Body(HostsText(id))[0] == 'h'
  {
    var s := HostsText(id);
    var t := "\t    hosts ";
    assert s == t + (PATH_PREFIX + HostsName(id) + OPEN);
    assert forall k :: 0 <= k < 6 ==> s[k] == t[k];
    SkipsIndent(s, 0, 5);
  }

  lemma HostsLine(id: ProfileId)
    ensures MarkOf(LineText(Hosts(id))) == HostsFile(HostsName(id))
  {
    HostsLineNames(id);
    HostsBody(id);
    NoneOfThem(Body(HostsText(id)));
  }

  // ----- marks of a text

  lemma FirstLineMarks(a: string, more: string)
    requires '\n' !in a
    ensures Marks(a + "\n" + more) == Marked(MarkOf(a)) + Marks(more)
  {
    var s := a + "\n" + more;
    LineEndsAt(s, 0, |a|);
    assert s[..|a|] == a && s[|a| + 1..] == more;
  }

  function LineMarks(lines: seq<Line>): seq<Mark> {
    if lines == [] then [] else Marked(MarkOf(LineText(lines[0]))) + LineMarks(lines[1..])
  }

  lemma OneMoreLine(line: Line, text: string, more: string, marks: seq<Mark>, rest: seq<Mark>)
    requires Marks(text + more) == marks + rest
    ensures Marks(LineText(line) + "\n" + text + more) == Marked(MarkOf(LineText(line))) + marks + rest
  {
    LineIs(line);
    FirstLineMarks(LineText(line), text + more);
    Together(LineText(line) + "\n", text, more);
    Together(Marked(MarkOf(LineText(line))), marks, rest);
  }

  lemma Together<T>(a: seq<T>, b: seq<T>, c: seq<T>)
    ensures a + (b + c) == a + b + c
  {
  }

  lemma {:induction false} TextMarks(lines: seq<Line>, more: string)
    ensures Marks(Text(lines) + more) == LineMarks(lines) + Marks(more)
    decreases |lines|
  {
    if lines == [] {
      assert Text(lines) + more == more;
    } else {
      TextMarks(lines[1..], more);
      OneMoreLine(lines[0], Text(lines[1..]), more, LineMarks(lines[1..]), Marks(more));
    }
  }

  lemma {:induction false} MarksOfBoth(a: seq<Line>, b: seq<Line>)
    ensures LineMarks(a + b) == LineMarks(a) + LineMarks(b)
    decreases |a|
  {
    if a == [] {
      assert a + b == b;
    } else {
      MarksOfBoth(a[1..], b);
      FirstOfBoth(a, b);
      Together(Marked(MarkOf(LineText(a[0]))), LineMarks(a[1..]), LineMarks(b));
    }
  }

  /** None of the lines says anything that matters here. */
  predicate Quiet(lines: seq<Line>) {
    forall line :: line in lines ==> line.Blank? || (line.Words? && Plain(line.keyword))
  }

  lemma {:induction false} QuietLines(lines: seq<Line>)
    requires Quiet(lines)
    ensures LineMarks(lines) == []
    decreases |lines|
  {
    if lines != [] {
      var line := lines[0];
      assert line in lines;
      match line {
        case Blank(indent) => BlankSaysNothing(indent);
        case Words(indent, keyword, rest) => PlainSaysNothing(indent, keyword, rest);
      }
      QuietLines(lines[1..]);
    }
  }

  lemma OneMark(line: Line)
    ensures LineMarks([line]) == Marked(MarkOf(LineText(line)))
  {
    assert [line][1..] == [];
  }
}
