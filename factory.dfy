/** The script parser (api/network_factory.py): builds a network from a
    script of lines such as

        TERM:X          > adder:in_1       (terminal to input port)
                        > multiplier:in_1  (continuation: same left side)
        adder:sum       > formatter:in_1   (output port to input port)
        formatter:msg   > DANGLING         (output port, no edge)

    A line is read into a command (the parse), and the command is carried
    out through the network's construction operations. */
module Factory {
  import opened Names
  import opened Outcomes
  import opened Entities
  import opened Nodes
  import opened Text
  import opened NetworkApi

  /** The upstream end of an edge: a terminal, or a node's output port. */
  datatype Endpoint = TermEnd(terminal: Name) | OutEnd(node: Name, port: Name)

  /** What one line asks for: nothing, an edge into an input port, or a
      dangling output port. */
  datatype Command =
    | Skip
    | Connect(up: Endpoint, node: Name, port: Name)
    | Declare(node: Name, port: Name)

  /** The outcome of reading one line, and the saved left side afterwards. */
  datatype LineStep = LineStep(cmd: Result<Command, Error>, saved: Option<string>)

  /** The result of a whole script, and the saved left side afterwards. */
  datatype Built = Built(result: Result<Tables, Error>, saved: Option<string>)

  /** The reserved node name of a terminal left side. */
  const TermWord: string := "TERM"
  /** The reserved right side of a dangling line. */
  const DanglingWord: string := "DANGLING"

  /** A line with its comment removed, then stripped. */
  function CleanLine(line: string): string
  {
    Strip(RemoveComment(line))
  }

  /** `_split_into_two`: the stripped text on either side of the one
      occurrence of `delim` in `buf`; any other number of occurrences is a
      parse error that names the line. */
  function SplitIntoTwo(buf: string, delim: char, line: string): Result<(string, string), Error>
  {
    if Count(buf, delim) != 1 then Err(ParseError(line))
    else
      CountPresent(buf, delim);
      var i := IndexOf(buf, delim);
      Ok((Strip(buf[..i]), Strip(buf[i + 1..])))
  }

  /** `SplitIntoTwo` is `[s.strip() for s in buf.split(delim)]` with its
      length checked: it succeeds exactly when the split has two pieces, and
      then returns those pieces stripped. */
  lemma SplitIntoTwoIsSplit(buf: string, delim: char, line: string)
    ensures var r := SplitIntoTwo(buf, delim, line);
      var parts := Split(buf, delim);
      && (r.Ok? <==> |parts| == 2)
      && (r.Ok? ==> r.value == (Strip(parts[0]), Strip(parts[1])))
      && (r.Err? ==> r.error == ParseError(line))
  {
    if Count(buf, delim) == 1 {
      SplitPair(buf, delim);
    }
  }

  /** A string with one occurrence of `d` splits into the text before it and
      the text after it. */
  lemma SplitPair(s: string, d: char)
    requires Count(s, d) == 1
    ensures d in s && Split(s, d) == [s[..IndexOf(s, d)], s[IndexOf(s, d) + 1..]]
  {
    CountPresent(s, d);
    var i := IndexOf(s, d);
    CountSplitAt(s, d, i);
    CountZeroAbsent(s[i + 1..], d);
  }

  /** The parse half of `_action_canonical_line`: both sides split on `:`;
      a left node named `TERM` makes a terminal edge, any other an output
      port edge. */
  function CanonicalCommand(left: string, right: string, line: string): (r: Result<Command, Error>)
    ensures r.Ok? <==> Count(left, ':') == 1 && Count(right, ':') == 1
    ensures r.Err? ==> r.error == ParseError(line)
    ensures r.Ok? ==>
      var up := SplitIntoTwo(left, ':', line).value;
      var down := SplitIntoTwo(right, ':', line).value;
      && r.value.Connect? && r.value.node == down.0 && r.value.port == down.1
      && r.value.up == (if up.0 == TermWord then TermEnd(up.1) else OutEnd(up.0, up.1))
  {
    var up := SplitIntoTwo(left, ':', line);
    var down := SplitIntoTwo(right, ':', line);
    if up.Err? then Err(up.error)
    else if down.Err? then Err(down.error)
    else
      var (u, o) := up.value;
      var (n, p) := down.value;
      Ok(Connect(if u == TermWord then TermEnd(o) else OutEnd(u, o), n, p))
  }

  /** The command of a canonical line whose two sides split. */
  lemma CanonicalParsed(left: string, right: string, line: string, u: Name, o: Name, n: Name, p: Name)
    requires SplitIntoTwo(left, ':', line) == Ok((u, o)) && SplitIntoTwo(right, ':', line) == Ok((n, p))
    ensures CanonicalCommand(left, right, line) == Ok(Connect(if u == TermWord then TermEnd(o) else OutEnd(u, o), n, p))
  {
  }

  /** The parse half of `_action_dangling_line`. */
  function DanglingCommand(left: string, line: string): (r: Result<Command, Error>)
    ensures r.Ok? <==> Count(left, ':') == 1
    ensures r.Err? ==> r.error == ParseError(line)
    ensures r.Ok? ==> r.value == Declare(SplitIntoTwo(left, ':', line).value.0, SplitIntoTwo(left, ':', line).value.1)
  {
    var split := SplitIntoTwo(left, ':', line);
    if split.Err? then Err(split.error) else Ok(Declare(split.value.0, split.value.1))
  }

  /** The parse half of `_action_one_line`: blank and comment-only lines do
      nothing; a line must split on `>`; an empty left side continues the
      saved one (and fails when there is none); any other left side is saved,
      whether or not the rest of the line parses. */
  function ReadLine(saved: Option<string>, raw: string): LineStep
  {
    var line := CleanLine(raw);
    if line == [] then LineStep(Ok(Skip), saved)
    else
      var halves := SplitIntoTwo(line, '>', line);
      if halves.Err? then LineStep(Err(halves.error), saved)
      else
        var left := halves.value.0;
        var right := halves.value.1;
        if left == [] then
          if saved.None? then LineStep(Err(ParseError(line)), saved)
          else LineStep(CanonicalCommand(saved.value, right, line), saved)
        else if right == DanglingWord then LineStep(DanglingCommand(left, line), Some(left))
        else LineStep(CanonicalCommand(left, right, line), Some(left))
  }

  /** The cases of reading a line: a blank line is skipped; a line that does
      not split on `>` is a parse error that keeps the saved left side; every
      error names the cleaned line; an empty left side reuses the saved one
      and fails without one; a non-empty left side is saved even when the
      rest of the line fails, and only it can make a dangling line. */
  lemma ReadLineCases(saved: Option<string>, raw: string)
    ensures var s := ReadLine(saved, raw);
      var line := CleanLine(raw);
      && (line == [] ==> s == LineStep(Ok(Skip), saved))
      && (line != [] && Count(line, '>') != 1 ==> s == LineStep(Err(ParseError(line)), saved))
      && (s.cmd.Err? ==> s.cmd.error == ParseError(line))
      && (line != [] && Count(line, '>') == 1 ==>
            var left := SplitIntoTwo(line, '>', line).value.0;
            var right := SplitIntoTwo(line, '>', line).value.1;
            && (left == [] ==> s.saved == saved)
            && (left == [] && saved.None? ==> s.cmd == Err(ParseError(line)))
            && (left != [] ==> s.saved == Some(left))
            && (s.cmd.Ok? && s.cmd.value.Declare? ==> left != [] && right == DanglingWord)
            && (left != [] && right != DanglingWord ==> s.cmd == CanonicalCommand(left, right, line))
            && (left == [] && saved.Some? ==> s.cmd == CanonicalCommand(saved.value, right, line)))
  {
  }

  /** Reading a line fails only with a parse error. */
  lemma ReadLineFailsToParse(saved: Option<string>, raw: string)
    ensures ReadLine(saved, raw).cmd.Err? ==> ReadLine(saved, raw).cmd.error.ParseError?
  {
    ReadLineCases(saved, raw);
  }

  /** A continuation of a dangling line fails: `DANGLING` has no `:`. */
  lemma DanglingContinuationFails(saved: string, raw: string)
    requires CleanLine(raw) != [] && Count(CleanLine(raw), '>') == 1
    requires SplitIntoTwo(CleanLine(raw), '>', CleanLine(raw)).value == ([], DanglingWord)
    ensures ReadLine(Some(saved), raw).cmd == Err(ParseError(CleanLine(raw)))
  {
    DanglingHasNoColon();
  }

  /** `DANGLING` holds no `:`. */
  lemma DanglingHasNoColon()
    ensures Count(DanglingWord, ':') == 0
  {
    CountAbsent(DanglingWord, ':');
  }

  /** A name as a script can spell it: not empty, made of letters, digits
      and `_`. */
  predicate Plain(s: string)
  {
    s != [] && forall i | 0 <= i < |s| :: IsNameChar(s[i])
  }

  /** A letter, a digit or `_`. */
  predicate IsNameChar(c: char)
  {
    'a' <= c <= 'z' || 'A' <= c <= 'Z' || '0' <= c <= '9' || c == '_'
  }

  /** What the parser needs of a plain name. */
  lemma PlainFacts(s: string)
    requires Plain(s)
    ensures !IsSpace(s[0]) && !IsSpace(s[|s| - 1])
    ensures '#' !in s && ':' !in s && '>' !in s
  {
  }

  /** The text of an endpoint: `TERM:x` or `node:port`. */
  function EndpointText(e: Endpoint): string
  {
    match e
    case TermEnd(x) => Around(TermWord, ':', x)
    case OutEnd(u, o) => Around(u, ':', o)
  }

  /** The script line that asks for a command, with one space on either
      side of the `>`. */
  function Render(cmd: Command): string
  {
    match cmd
    case Skip => []
    case Connect(up, n, p) => Around(EndpointText(up) + " ", '>', " " + Around(n, ':', p))
    case Declare(n, p) => Around(Around(n, ':', p) + " ", '>', " " + DanglingWord)
  }

  /** A continuation line for the input port `n:p`. */
  function RenderContinuation(n: Name, p: Name): string
  {
    Around([], '>', " " + Around(n, ':', p))
  }

  /** The left side a rendered command's line leaves saved. */
  function LeftSide(cmd: Command): Option<string>
  {
    match cmd
    case Skip => None
    case Connect(up, _, _) => Some(EndpointText(up))
    case Declare(n, p) => Some(Around(n, ':', p))
  }

  /** A command every part of which is a plain name, whose upstream node is
      not called `TERM` (such a line would read as a terminal edge). */
  predicate Writable(cmd: Command)
  {
    match cmd
    case Skip => true
    case Connect(up, n, p) =>
      && Plain(n) && Plain(p)
      && (match up
          case TermEnd(x) => Plain(x)
          case OutEnd(u, o) => Plain(u) && Plain(o) && u != TermWord)
    case Declare(n, p) => Plain(n) && Plain(p)
  }

  lemma KeywordsPlain()
    ensures Plain(TermWord) && Plain(DanglingWord)
  {
  }

  /** Not empty, and no whitespace at either end. */
  predicate Edged(s: string)
  {
    s != [] && !IsSpace(s[0]) && !IsSpace(s[|s| - 1])
  }

  /** A line with no `#` and no whitespace at either end is already clean. */
  lemma CleanAlready(line: string)
    requires Edged(line) && '#' !in line
    ensures CleanLine(line) == line
  {
    RemoveCommentAbsent(line);
    assert [] + line + [] == line;
    StripPadded([], line, []);
  }

  /** Text padded with whitespace on either side of a single `d` splits on
      `d` back into the two texts. */
  lemma SplitsAround(l: string, lpad: string, d: char, rpad: string, r: string, line: string)
    requires Edged(l) && Edged(r) && d !in l && d !in r
    requires AllSpace(lpad) && AllSpace(rpad) && d !in lpad && d !in rpad
    ensures SplitIntoTwo(Around(l + lpad, d, rpad + r), d, line) == Ok((l, r))
  {
    AroundOnce(l + lpad, d, rpad + r);
    assert [] + l + lpad == l + lpad && rpad + r + [] == rpad + r;
    StripPadded([], l, lpad);
    StripPadded(rpad, r, []);
  }

  /** `a:b` for plain names splits back into `a` and `b`, and holds neither
      `#` nor `>` nor edge whitespace. */
  lemma PairSplits(a: string, b: string, line: string)
    requires Plain(a) && Plain(b)
    ensures var s := Around(a, ':', b);
      && Edged(s) && '#' !in s && '>' !in s && ':' in s
      && SplitIntoTwo(s, ':', line) == Ok((a, b))
  {
    PlainFacts(a);
    PlainFacts(b);
    var s := Around(a, ':', b);
    assert s[0] == a[0] && s[|s| - 1] == b[|b| - 1];
    assert a + [] == a && [] + b == b;
    SplitsAround(a, [], ':', [], b, line);
  }

  /** A rendered line whose sides are as `PairSplits` leaves them is clean
      and reads back into its two sides. */
  lemma LineSplits(l: string, r: string)
    requires Edged(l) && '#' !in l && '>' !in l
    requires Edged(r) && '#' !in r && '>' !in r
    ensures var line := Around(l + " ", '>', " " + r);
      && CleanLine(line) == line
      && SplitIntoTwo(line, '>', line) == Ok((l, r))
  {
    var line := Around(l + " ", '>', " " + r);
    assert line[0] == l[0] && line[|line| - 1] == r[|r| - 1];
    CleanAlready(line);
    SplitsAround(l, " ", '>', " ", r, line);
  }

  /** Text with a `:` is not the `DANGLING` keyword. */
  lemma ColonNotDangling(r: string)
    requires ':' in r
    ensures r != DanglingWord
  {
    DanglingHasNoColon();
    CountZeroAbsent(DanglingWord, ':');
  }

  /** A clean line with a non-empty left side and a right side other than
      `DANGLING` is read as a canonical edge line, and its left side is saved. */
  lemma ReadEdgeLine(saved: Option<string>, line: string, l: string, r: string)
    requires line != [] && CleanLine(line) == line
    requires SplitIntoTwo(line, '>', line) == Ok((l, r)) && l != [] && r != DanglingWord
    ensures ReadLine(saved, line) == LineStep(CanonicalCommand(l, r, line), Some(l))
  {
  }

  /** Parsing a rendered edge line gives back its command, and saves its
      left side. */
  lemma ReadConnect(saved: Option<string>, up: Endpoint, n: Name, p: Name)
    requires Writable(Connect(up, n, p))
    ensures ReadLine(saved, Render(Connect(up, n, p))) == LineStep(Ok(Connect(up, n, p)), Some(EndpointText(up)))
  {
    KeywordsPlain();
    var l := EndpointText(up);
    var r := Around(n, ':', p);
    var line := Render(Connect(up, n, p));
    var (u, o) := if up.TermEnd? then (TermWord, up.terminal) else (up.node, up.port);
    PairSplits(u, o, line);
    PairSplits(n, p, line);
    LineSplits(l, r);
    ColonNotDangling(r);
    ReadEdgeLine(saved, line, l, r);
    CanonicalParsed(l, r, line, u, o, n, p);
  }

  /** Parsing a rendered dangling line gives back its command. */
  lemma ReadDeclare(saved: Option<string>, n: Name, p: Name)
    requires Plain(n) && Plain(p)
    ensures ReadLine(saved, Render(Declare(n, p))) == LineStep(Ok(Declare(n, p)), Some(Around(n, ':', p)))
  {
    KeywordsPlain();
    PlainFacts(DanglingWord);
    var l := Around(n, ':', p);
    var line := Render(Declare(n, p));
    PairSplits(n, p, line);
    LineSplits(l, DanglingWord);
  }

  /** Reading is the inverse of rendering: a command of plain names, written
      as a script line, parses back into itself, and a line that is not blank
      leaves its left side saved. */
  lemma ReadRendered(saved: Option<string>, cmd: Command)
    requires Writable(cmd)
    ensures ReadLine(saved, Render(cmd)) == LineStep(Ok(cmd), if cmd.Skip? then saved else LeftSide(cmd))
  {
    match cmd
    case Skip =>
      assert RemoveComment([]) == [];
    case Connect(up, n, p) => ReadConnect(saved, up, n, p);
    case Declare(n, p) => ReadDeclare(saved, n, p);
  }

  /** A continuation line reuses the saved left side of a rendered edge
      line: it adds the edge from the same upstream end. */
  lemma ReadContinued(up: Endpoint, n: Name, p: Name)
    requires Writable(Connect(up, n, p))
    ensures ReadLine(Some(EndpointText(up)), RenderContinuation(n, p)) ==
      LineStep(Ok(Connect(up, n, p)), Some(EndpointText(up)))
  {
    KeywordsPlain();
    var l := EndpointText(up);
    var r := Around(n, ':', p);
    var line := RenderContinuation(n, p);
    var (u, o) := if up.TermEnd? then (TermWord, up.terminal) else (up.node, up.port);
    PairSplits(u, o, line);
    PairSplits(n, p, line);
    ContinuationSplits(r);
    CanonicalParsed(l, r, line, u, o, n, p);
  }

  /** A continuation line is clean and splits into an empty left side and
      its right side. */
  lemma ContinuationSplits(r: string)
    requires Edged(r) && '#' !in r && '>' !in r
    ensures var line := Around([], '>', " " + r);
      && CleanLine(line) == line
      && SplitIntoTwo(line, '>', line) == Ok(([], r))
  {
    var line := Around([], '>', " " + r);
    assert line[0] == '>' && line[|line| - 1] == r[|r| - 1];
    CleanAlready(line);
    AroundOnce([], '>', " " + r);
    assert line[1..] == " " + r + [];
    StripPadded(" ", r, []);
  }


  /** The edge a command adds, if any. */
  function CommandEdges(cmd: Command): seq<Edge>
  {
    match cmd
    case Connect(up, n, p) =>
      [Edge(if up.TermEnd? then TerminalSrc(up.terminal) else OutputSrc(up.node, up.port), PortRef(n, p))]
    case _ => []
  }

  /** The execution half of the line actions: the downstream node and input
      port are registered first; then a terminal, or the upstream node and
      output port; then the edge, unless it already exists. A dangling line
      registers its node and output port only. */
  function Execute(t: Tables, cmd: Command): Applied
  {
    match cmd
    case Skip => Applied(None, t)
    case Declare(n, p) => Applied(None, WithOutputPort(WithNode(t, n), n, p))
    case Connect(up, n, p) =>
      var registered := WithInputPort(WithNode(t, n), n, p);
      match up
      case TermEnd(x) => WithEdge(WithTerminal(registered, x), Edge(TerminalSrc(x), PortRef(n, p)))
      case OutEnd(u, o) => WithEdge(WithOutputPort(WithNode(registered, u), u, o), Edge(OutputSrc(u, o), PortRef(n, p)))
  }

  /** What carrying out a command guarantees: the only error is a duplicate
      edge, which changes no edge; otherwise the command's edge is appended.
      Nodes and terminals are only ever added, a known terminal keeps its
      value, and every name the command mentions is registered afterwards,
      with the port on the side the command gives it. */
  lemma ExecuteEffects(t: Tables, cmd: Command)
    ensures var a := Execute(t, cmd);
      && (a.err.None? <==> forall e | e in CommandEdges(cmd) :: e !in t.edges)
      && (a.err.None? ==> a.tables.edges == t.edges + CommandEdges(cmd))
      && (a.err.Some? ==> a.tables.edges == t.edges &&
                          a.err == Some(DuplicateEdge(CommandEdges(cmd)[0].source, CommandEdges(cmd)[0].dest)))
      && t.nodes.Keys <= a.tables.nodes.Keys && t.terminals.Keys <= a.tables.terminals.Keys
      && (forall x | x in t.terminals :: a.tables.terminals[x] == t.terminals[x])
      && (cmd.Connect? ==> cmd.node in a.tables.nodes && cmd.port in a.tables.nodes[cmd.node].inputPorts)
      && (cmd.Connect? && cmd.up.TermEnd? ==> cmd.up.terminal in a.tables.terminals)
      && (cmd.Connect? && cmd.up.OutEnd? ==>
            cmd.up.node in a.tables.nodes && cmd.up.port in a.tables.nodes[cmd.up.node].outputPorts)
      && (cmd.Declare? ==> cmd.node in a.tables.nodes && cmd.port in a.tables.nodes[cmd.node].outputPorts)
  {
    if cmd.Connect? && cmd.up.OutEnd? {
      var (n, p, u, o) := (cmd.node, cmd.port, cmd.up.node, cmd.up.port);
      var t2 := WithNode(WithInputPort(WithNode(t, n), n, p), u);
      assert p in t2.nodes[n].inputPorts;
      var t3 := WithOutputPort(t2, u, o);
      assert n == u || t3.nodes[n] == t2.nodes[n];
    }
  }

  /** Unfolds `Execute` for `TERM:x > n:p` once the downstream end is
      registered. */
  lemma ExecuteTerminalEdge(t: Tables, registered: Tables, x: Name, n: Name, p: Name)
    requires registered == WithInputPort(WithNode(t, n), n, p)
    ensures Execute(t, Connect(TermEnd(x), n, p)) ==
      WithEdge(WithTerminal(registered, x), Edge(TerminalSrc(x), PortRef(n, p)))
  {
  }

  /** Unfolds `Execute` for `u:o > n:p` once the downstream end is
      registered. */
  lemma ExecuteOutputEdge(t: Tables, registered: Tables, u: Name, o: Name, n: Name, p: Name)
    requires registered == WithInputPort(WithNode(t, n), n, p)
    ensures Execute(t, Connect(OutEnd(u, o), n, p)) ==
      WithEdge(WithOutputPort(WithNode(registered, u), u, o), Edge(OutputSrc(u, o), PortRef(n, p)))
  {
  }

  /** The names of `names` not in `known`, each once, in the order they
      first appear: what registering them one by one appends to an insertion
      order. */
  function NewNames(known: set<Name>, names: seq<Name>): seq<Name>
    decreases |names|
  {
    if names == [] then []
    else if names[0] in known then NewNames(known, names[1..])
    else [names[0]] + NewNames(known + {names[0]}, names[1..])
  }

  /** The nodes a command registers, in the order it registers them: the
      downstream node first, then an upstream node. */
  function CommandNodes(cmd: Command): seq<Name>
  {
    match cmd
    case Skip => []
    case Declare(n, _) => [n]
    case Connect(up, n, _) => if up.OutEnd? then [n, up.node] else [n]
  }

  /** The terminal a command registers, if any. */
  function CommandTerminals(cmd: Command): seq<Name>
  {
    if cmd.Connect? && cmd.up.TermEnd? then [cmd.up.terminal] else []
  }

  /** The order of the registrations is observable in the insertion orders:
      a command appends the nodes it names that are new, the downstream node
      before the upstream one, and a new terminal; this holds also when the
      edge turns out to be a duplicate, since the edge comes last. */
  lemma ExecuteOrder(t: Tables, cmd: Command)
    ensures Execute(t, cmd).tables.nodeOrder == t.nodeOrder + NewNames(t.nodes.Keys, CommandNodes(cmd))
    ensures Execute(t, cmd).tables.terminalOrder == t.terminalOrder + NewNames(t.terminals.Keys, CommandTerminals(cmd))
  {
    match cmd
    case Skip =>
    case Declare(n, p) =>
      NodeOrderAfter(t, n);
      PortKeepsOrders(WithNode(t, n), n, p);
    case Connect(TermEnd(x), n, p) =>
      TerminalEdgeOrder(t, x, n, p);
    case Connect(OutEnd(u, o), n, p) =>
      OutputEdgeOrder(t, u, o, n, p);
  }

  lemma TerminalEdgeOrder(t: Tables, x: Name, n: Name, p: Name)
    ensures Execute(t, Connect(TermEnd(x), n, p)).tables.nodeOrder == t.nodeOrder + NewNames(t.nodes.Keys, [n])
    ensures Execute(t, Connect(TermEnd(x), n, p)).tables.terminalOrder == t.terminalOrder + NewNames(t.terminals.Keys, [x])
  {
    var registered := WithInputPort(WithNode(t, n), n, p);
    NodeOrderAfter(t, n);
    NewOne(t.terminals.Keys, x);
    ExecuteTerminalEdge(t, registered, x, n, p);
  }

  lemma OutputEdgeOrder(t: Tables, u: Name, o: Name, n: Name, p: Name)
    ensures Execute(t, Connect(OutEnd(u, o), n, p)).tables.nodeOrder == t.nodeOrder + NewNames(t.nodes.Keys, [n, u])
    ensures Execute(t, Connect(OutEnd(u, o), n, p)).tables.terminalOrder == t.terminalOrder
  {
    var registered := WithInputPort(WithNode(t, n), n, p);
    NodeOrderAfter(t, n);
    NodeOrderAfter(registered, u);
    PortKeepsOrders(WithNode(registered, u), u, o);
    NewTwo(t.nodes.Keys, n, u);
    ExecuteOutputEdge(t, registered, u, o, n, p);
  }

  lemma NodeOrderAfter(t: Tables, n: Name)
    ensures WithNode(t, n).nodeOrder == t.nodeOrder + NewNames(t.nodes.Keys, [n])
  {
    NewOne(t.nodes.Keys, n);
  }

  lemma PortKeepsOrders(t: Tables, n: Name, p: Name)
    requires n in t.nodes
    ensures WithOutputPort(t, n, p).nodeOrder == t.nodeOrder
  {
  }

  lemma NewOne(known: set<Name>, x: Name)
    ensures NewNames(known, [x]) == if x in known then [] else [x]
  {
    assert [x][1..] == [];
  }

  lemma NewTwo(known: set<Name>, x: Name, y: Name)
    ensures NewNames(known, [x, y]) == NewNames(known, [x]) + NewNames(known + {x}, [y])
  {
    assert [x, y][1..] == [y];
    NewOne(known, x);
    if x in known {
      assert known + {x} == known;
    }
  }

  /** An empty network's tables. */
  const Empty: Tables := Tables(map[], [], map[], [], [])

  /** `build` over the lines: each line read with the saved left side, then
      carried out; the first error ends the build. */
  function RunLines(lines: seq<string>, saved: Option<string>, t: Tables): Built
    decreases |lines|, 1
  {
    if lines == [] then Built(Ok(t), saved)
    else RunAfter(lines[1..], ReadLine(saved, lines[0]), t)
  }

  /** The rest of the build once a line has been read into `s`. */
  function RunAfter(rest: seq<string>, s: LineStep, t: Tables): Built
    decreases |rest| + 1, 0
  {
    if s.cmd.Err? then Built(Err(s.cmd.error), s.saved)
    else
      var a := Execute(t, s.cmd.value);
      if a.err.Some? then Built(Err(a.err.value), s.saved)
      else RunLines(rest, s.saved, a.tables)
  }

  /** A build from `t` that ended in `b` only added: when it succeeded it
      keeps every node and terminal of `t` and extends its edge list; when
      it failed it failed with a parse error or a duplicate edge. */
  predicate Grows(t: Tables, b: Built)
  {
    && (b.result.Ok? ==> t.nodes.Keys <= b.result.value.nodes.Keys && t.terminals.Keys <= b.result.value.terminals.Keys)
    && (b.result.Ok? ==> t.edges <= b.result.value.edges)
    && (b.result.Err? ==> b.result.error.ParseError? || b.result.error.DuplicateEdge?)
  }

  lemma GrowsTrans(t: Tables, u: Tables, b: Built)
    requires t.nodes.Keys <= u.nodes.Keys && t.terminals.Keys <= u.terminals.Keys && t.edges <= u.edges
    requires Grows(u, b)
    ensures Grows(t, b)
  {
  }

  /** A build only adds to the tables it starts from. */
  lemma {:induction false} RunLinesEffects(lines: seq<string>, saved: Option<string>, t: Tables)
    ensures Grows(t, RunLines(lines, saved, t))
    decreases |lines|, 1
  {
    if lines != [] {
      ReadLineFailsToParse(saved, lines[0]);
      RunAfterEffects(lines[1..], ReadLine(saved, lines[0]), t);
    }
  }

  /** The same for the rest of a build, after a line whose only possible
      error is a parse error. */
  lemma {:induction false} RunAfterEffects(rest: seq<string>, s: LineStep, t: Tables)
    requires s.cmd.Err? ==> s.cmd.error.ParseError?
    ensures Grows(t, RunAfter(rest, s, t))
    decreases |rest| + 1, 0
  {
    if s.cmd.Ok? {
      ExecuteEffects(t, s.cmd.value);
      var a := Execute(t, s.cmd.value);
      if a.err.None? {
        RunLinesEffects(rest, s.saved, a.tables);
        GrowsTrans(t, a.tables, RunLines(rest, s.saved, a.tables));
      }
    }
  }

  /** `NetworkFactory`: the script, and the left side most recently seen. */
  class NetworkFactory {
    const script: string
    var savedLhs: Option<string>

    constructor (script: string)
      ensures this.script == script && savedLhs.None?
    {
      this.script := script;
      savedLhs := None;
    }

    /** `build`: a new network, then every line of the script in order. The
        saved left side is not reset, so a second build starts from the
        left side the first one ended with. */
    method Build() returns (r: Result<Network, Error>)
      modifies this`savedLhs
      ensures var b := RunLines(Lines(script), old(savedLhs), Empty);
        && savedLhs == b.saved
        && (r.Ok? <==> b.result.Ok?)
        && (r.Ok? ==> fresh(r.value) && r.value.Valid() && r.value.Snapshot() == b.result.value)
        && (r.Err? ==> r.error == b.result.error)
    {
      var net := new Network();
      var lines := Lines(script);
      ghost var whole := RunLines(lines, savedLhs, Empty);
      var i := 0;
      while i < |lines|
        invariant 0 <= i <= |lines|
        invariant fresh(net) && net.Valid()
        invariant RunLines(lines[i..], savedLhs, net.Snapshot()) == whole
      {
        assert lines[i..][0] == lines[i] && lines[i..][1..] == lines[i + 1..];
        var err := ActionOneLine(lines[i], net);
        if err.Some? {
          return Err(err.value);
        }
        i := i + 1;
      }
      r := Ok(net);
    }

    /** `_action_one_line`. */
    method ActionOneLine(raw: string, net: Network) returns (err: Option<Error>)
      requires net.Valid()
      modifies this`savedLhs, net
      ensures net.Valid()
      ensures var s := ReadLine(old(savedLhs), raw);
        && savedLhs == s.saved
        && (s.cmd.Err? ==> err == Some(s.cmd.error) && net.Snapshot() == old(net.Snapshot()))
        && (s.cmd.Ok? ==> Applied(err, net.Snapshot()) == Execute(old(net.Snapshot()), s.cmd.value))
    {
      var line := RemoveComment(raw);
      line := Strip(line);
      if |line| == 0 {
        return None;
      }
      var halves := SplitIntoTwo(line, '>', line);
      if halves.Err? {
        return Some(halves.error);
      }
      var (left, right) := halves.value;
      if left == "" {
        err := ActionContinuationLine(right, line, net);
        return;
      }
      savedLhs := Some(left);
      if right == DanglingWord {
        err := ActionDanglingLine(left, line, net);
      } else {
        err := ActionCanonicalLine(left, right, line, net);
      }
    }

    /** `_action_continuation_line`: the saved left side stands in for the
        missing one. */
    method ActionContinuationLine(right: string, line: string, net: Network) returns (err: Option<Error>)
      requires net.Valid()
      modifies net
      ensures net.Valid()
      ensures savedLhs.None? ==> err == Some(ParseError(line)) && net.Snapshot() == old(net.Snapshot())
      ensures savedLhs.Some? ==> CanonicalOutcome(old(net.Snapshot()), net.Snapshot(), err,
                                                  CanonicalCommand(savedLhs.value, right, line))
    {
      if savedLhs.None? {
        return Some(ParseError(line));
      }
      err := ActionCanonicalLine(savedLhs.value, right, line, net);
    }

    /** `_action_dangling_line`. */
    method ActionDanglingLine(left: string, line: string, net: Network) returns (err: Option<Error>)
      requires net.Valid()
      modifies net
      ensures net.Valid()
      ensures CanonicalOutcome(old(net.Snapshot()), net.Snapshot(), err, DanglingCommand(left, line))
    {
      var split := SplitIntoTwo(left, ':', line);
      if split.Err? {
        return Some(split.error);
      }
      var (n, p) := split.value;
      err := RegisterAndDeclare(n, p, net);
    }

    /** The registrations of `_action_dangling_line`: the node, then its
        output port. */
    method RegisterAndDeclare(n: Name, p: Name, net: Network) returns (err: Option<Error>)
      requires net.Valid()
      modifies net
      ensures net.Valid()
      ensures Applied(err, net.Snapshot()) == Execute(old(net.Snapshot()), Declare(n, p))
    {
      net.RegisterNode(n);
      err := net.RegisterOutputPort(n, p);
    }

    /** `_action_canonical_line`: both splits come before any change to the
        network. */
    method ActionCanonicalLine(left: string, right: string, line: string, net: Network) returns (err: Option<Error>)
      requires net.Valid()
      modifies net
      ensures net.Valid()
      ensures CanonicalOutcome(old(net.Snapshot()), net.Snapshot(), err, CanonicalCommand(left, right, line))
    {
      var up := SplitIntoTwo(left, ':', line);
      if up.Err? {
        return Some(up.error);
      }
      var down := SplitIntoTwo(right, ':', line);
      if down.Err? {
        return Some(down.error);
      }
      var (u, o) := up.value;
      var (n, p) := down.value;
      err := RegisterAndConnect(u, o, n, p, net);
      CanonicalParsed(left, right, line, u, o, n, p);
    }

    /** The registrations and the edge creation of `_action_canonical_line`,
        in its order, once both sides are split. */
    method RegisterAndConnect(u: Name, o: Name, n: Name, p: Name, net: Network) returns (err: Option<Error>)
      requires net.Valid()
      modifies net
      ensures net.Valid()
      ensures u == TermWord ==> Applied(err, net.Snapshot()) == Execute(old(net.Snapshot()), Connect(TermEnd(o), n, p))
      ensures u != TermWord ==> Applied(err, net.Snapshot()) == Execute(old(net.Snapshot()), Connect(OutEnd(u, o), n, p))
    {
      ghost var before := net.Snapshot();
      net.RegisterNode(n);
      err := net.RegisterInputPort(n, p);
      ghost var registered := net.Snapshot();
      if u == TermWord {
        err := ConnectTerminal(o, n, p, net);
        ExecuteTerminalEdge(before, registered, o, n, p);
      } else {
        err := ConnectOutput(u, o, n, p, net);
        ExecuteOutputEdge(before, registered, u, o, n, p);
      }
    }

    /** The `TERM` branch of `_action_canonical_line`: the terminal, then
        its edge. */
    method ConnectTerminal(x: Name, n: Name, p: Name, net: Network) returns (err: Option<Error>)
      requires net.Valid() && n in net.nodes && p in net.nodes[n].inputPorts
      modifies net
      ensures net.Valid()
      ensures Applied(err, net.Snapshot()) == WithEdge(WithTerminal(old(net.Snapshot()), x), Edge(TerminalSrc(x), PortRef(n, p)))
    {
      var existing := net.RegisterTerminal(x);
      err := net.CreateTerminalEdge(x, n, p);
    }

    /** The other branch: the upstream node and its output port, then the
        edge. */
    method ConnectOutput(u: Name, o: Name, n: Name, p: Name, net: Network) returns (err: Option<Error>)
      requires net.Valid() && n in net.nodes && p in net.nodes[n].inputPorts
      modifies net
      ensures net.Valid()
      ensures Applied(err, net.Snapshot()) ==
        WithEdge(WithOutputPort(WithNode(old(net.Snapshot()), u), u, o), Edge(OutputSrc(u, o), PortRef(n, p)))
    {
      ghost var t0 := net.Snapshot();
      net.RegisterNode(u);
      ghost var t1 := net.Snapshot();
      err := net.RegisterOutputPort(u, o);
      ghost var t2 := net.Snapshot();
      OutputPortKeepsInputs(t0, t1, t2, u, o, n, p);
      err := net.CreateOutputToInputEdge(u, o, n, p);
    }
  }

  /** Registering node `u` and its output port `o` keeps the input port
      `p` of node `n`, and leaves `o` declared on `u`. */
  lemma OutputPortKeepsInputs(t0: Tables, t1: Tables, t2: Tables, u: Name, o: Name, n: Name, p: Name)
    requires n in t0.nodes && p in t0.nodes[n].inputPorts
    requires t1 == WithNode(t0, u) && t2 == WithOutputPort(t1, u, o)
    ensures u in t2.nodes && o in t2.nodes[u].outputPorts
    ensures n in t2.nodes && p in t2.nodes[n].inputPorts
  {
  }

  /** A line action's outcome: a parse error changes nothing; a command is
      carried out. */
  ghost predicate CanonicalOutcome(before: Tables, after: Tables, err: Option<Error>, cmd: Result<Command, Error>)
  {
    && (cmd.Err? ==> err == Some(cmd.error) && after == before)
    && (cmd.Ok? ==> Applied(err, after) == Execute(before, cmd.value))
  }
}
