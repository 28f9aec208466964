/**
 The part of bash that imageless scripts use: a syntax tree, its text, a parser for the text, and
 execution under `set -e` on a host whose programs are arbitrary.
 */
module Bash {
  import opened Options

  // ----- Syntax -----

  /** Strict is `set -euo pipefail`; words stand in double quotes. */
  datatype Command =
    | Blank
    | Comment(text: string)
    | Strict
    | Echo(word: string)
    | Export(name: string, word: string)
    | Run(path: string)

  datatype Script =
    | End
    | Then(command: Command, rest: Script)
    | IfFile(path: string, yes: Script, no: Script, next: Script)

  function Join(a: Script, b: Script): Script {
    match a
    case End => b
    case Then(c, rest) => Then(c, Join(rest, b))
    case IfFile(p, yes, no, next) => IfFile(p, yes, no, Join(next, b))
  }

  /** A word that means itself inside double quotes, on one line. */
  predicate CleanWord(w: string) {
    forall i :: 0 <= i < |w| ==> w[i] !in {'"', '$', '`', '\\', '\n'}
  }

  predicate NameChar(c: char) { 'a' <= c <= 'z' || 'A' <= c <= 'Z' || '0' <= c <= '9' || c == '_' }

  predicate IsName(s: string) {
    s != "" && !('0' <= s[0] <= '9') && forall i :: 0 <= i < |s| ==> NameChar(s[i])
  }

  predicate CleanCommand(c: Command) {
    match c
    case Comment(text) => '\n' !in text
    case Echo(w) => CleanWord(w)
    case Export(name, w) => IsName(name) && CleanWord(w)
    case Run(p) => CleanWord(p)
    case _ => true
  }

  /** bash refuses a branch without any command. */
  predicate HasCommand(s: Script) {
    match s
    case End => false
    case Then(c, rest) => !(c.Blank? || c.Comment?) || HasCommand(rest)
    case IfFile(_, _, _, _) => true
  }

  predicate Clean(s: Script) {
    match s
    case End => true
    case Then(c, rest) => CleanCommand(c) && Clean(rest)
    case IfFile(p, yes, no, next) =>
      CleanWord(p) && Clean(yes) && Clean(no) && HasCommand(yes) && HasCommand(no) && Clean(next)
  }

  // ----- Text -----

  datatype Line = Plain(command: Command) | If(path: string) | Else | Fi

  function Words(c: Command): string {
    match c
    case Blank => ""
    case Comment(text) => "#" + text
    case Strict => "set -euo pipefail"
    case Echo(w) => "echo \"" + w + "\""
    case Export(name, w) => "export " + name + "=\"" + w + "\""
    case Run(p) => "bash \"" + p + "\""
  }

  function Text(l: Line): string {
    match l
    case Plain(c) => Words(c)
    case If(p) => "if [ -f \"" + p + "\" ]; then"
    case Else => "else"
    case Fi => "fi"
  }

  function Indent(depth: nat): string { if depth == 0 then "" else "  " + Indent(depth - 1) }

  /** Branches are indented by two blanks. */
  function Lines(s: Script, depth: nat): seq<string> {
    match s
    case End => []
    case Then(c, rest) => [Indent(depth) + Words(c)] + Lines(rest, depth)
    case IfFile(p, yes, no, next) =>
      [Indent(depth) + Text(If(p))] + Lines(yes, depth + 1)
      + ([Indent(depth) + Text(Else)] + Lines(no, depth + 1))
      + ([Indent(depth) + Text(Fi)] + Lines(next, depth))
  }

  function JoinLines(ls: seq<string>): string {
    if ls == [] then "" else ls[0] + "\n" + JoinLines(ls[1..])
  }

  function Print(s: Script): string { JoinLines(Lines(s, 0)) }

  // ----- Parsing -----

  function Find(c: char, s: string): (n: nat)
    ensures n <= |s| && c !in s[..n] && (n < |s| ==> s[n] == c)
  {
    if s == "" || s[0] == c then 0
    else
      var n := 1 + Find(c, s[1..]);
      assert s[..n] == [s[0]] + s[1..][..n - 1];
      n
  }

  function SplitLines(s: string): seq<string> {
    if s == "" then []
    else
      var n := Find('\n', s);
      [s[..n]] + if n == |s| then [] else SplitLines(s[n + 1..])
  }

  function Trim(s: string): string {
    if s != "" && s[0] == ' ' then Trim(s[1..]) else s
  }

  /** What stands between `pre` and `post` if `s` has that form. */
  function Between(pre: string, post: string, s: string): Option<string> {
    if |pre| + |post| <= |s| && pre <= s && s[|s| - |post|..] == post then Some(s[|pre|..|s| - |post|]) else None
  }

  function Quoted(pre: string, post: string, s: string): Option<string> {
    var w := Between(pre, post, s);
    if w.Some? && CleanWord(w.value) then w else None
  }

  function ParseExport(s: string): Option<Command> {
    var body := Between("export ", "\"", s);
    if body.None? then None
    else
      var n := Find('=', body.value);
      if n + 2 <= |body.value| && body.value[n + 1] == '"' && IsName(body.value[..n]) && CleanWord(body.value[n + 2..])
      then Some(Export(body.value[..n], body.value[n + 2..])) else None
  }

  function ParseLine(line: string): Option<Line> {
    var s := Trim(line);
    if s == "" then Some(Plain(Blank))
    else if s[0] == '#' then Some(Plain(Comment(s[1..])))
    else if s == "set -euo pipefail" then Some(Plain(Strict))
    else if s == "else" then Some(Else)
    else if s == "fi" then Some(Fi)
    else if Quoted("echo \"", "\"", s).Some? then Some(Plain(Echo(Quoted("echo \"", "\"", s).value)))
    else if Quoted("bash \"", "\"", s).Some? then Some(Plain(Run(Quoted("bash \"", "\"", s).value)))
    else if Quoted("if [ -f \"", "\" ]; then", s).Some? then Some(If(Quoted("if [ -f \"", "\" ]; then", s).value))
    else
      var e := ParseExport(s);
      if e.Some? then Some(Plain(e.value)) else None
  }

  function ParseLines(lines: seq<string>): Option<seq<Line>> {
    if lines == [] then Some([])
    else
      var head, tail := ParseLine(lines[0]), ParseLines(lines[1..]);
      if head.Some? && tail.Some? then Some([head.value] + tail.value) else None
  }

  /** Reads commands up to an unmatched `else` or `fi`, or to the end. */
  function ParseBlock(ls: seq<Line>): (r: Option<(Script, seq<Line>)>)
    ensures r.Some? ==> |r.value.1| <= |ls| && (r.value.1 == [] || r.value.1[0].Else? || r.value.1[0].Fi?)
    decreases |ls|
  {
    if ls == [] || ls[0].Else? || ls[0].Fi? then Some((End, ls))
    else if ls[0].Plain? then
      var b := ParseBlock(ls[1..]);
      if b.None? then None else Some((Then(ls[0].command, b.value.0), b.value.1))
    else
      var yes := ParseBlock(ls[1..]);
      if yes.None? || yes.value.1 == [] || !yes.value.1[0].Else? || !HasCommand(yes.value.0) then None
      else
        var no := ParseBlock(yes.value.1[1..]);
        if no.None? || no.value.1 == [] || !no.value.1[0].Fi? || !HasCommand(no.value.0) then None
        else
          var next := ParseBlock(no.value.1[1..]);
          if next.None? then None
          else Some((IfFile(ls[0].path, yes.value.0, no.value.0, next.value.0), next.value.1))
  }

  function Parse(text: string): Option<Script> {
    var ls := ParseLines(SplitLines(text));
    if ls.None? then None
    else
      var b := ParseBlock(ls.value);
      if b.Some? && b.value.1 == [] then Some(b.value.0) else None
  }

  // ----- Execution -----

  datatype Event = Said(text: string) | Ran(path: string, vars: map<string, string>, code: int)

  /** A host: which files exist in a state of the world, and what running one does and returns. */
  datatype Host<!W> = Host(isFile: (W, string) -> bool, run: (W, map<string, string>, string) -> (W, int))

  datatype Shell<+W> = Shell(world: W, vars: map<string, string>, strict: bool, trace: seq<Event>, exit: Option<int>)

  function Do<W>(h: Host<W>, s: Shell<W>, c: Command): Shell<W> {
    match c
    case Blank => s
    case Comment(_) => s
    case Strict => s.(strict := true)
    case Echo(w) => s.(trace := s.trace + [Said(w)])
    case Export(name, w) => s.(vars := s.vars[name := w])
    case Run(p) =>
      var (world, code) := h.run(s.world, s.vars, p);
      s.(world := world, trace := s.trace + [Ran(p, s.vars, code)],
         exit := if s.strict && code != 0 then Some(code) else None)
  }

  /** The file test of a branch is made when the branch is reached. */
  function Exec<W>(h: Host<W>, s: Shell<W>, script: Script): Shell<W>
    decreases script
  {
    if s.exit.Some? then s
    else
      match script
      case End => s
      case Then(c, rest) => Exec(h, Do(h, s, c), rest)
      case IfFile(p, yes, no, next) =>
        Exec(h, Exec(h, s, if h.isFile(s.world, p) then yes else no), next)
  }

  lemma {:induction false} ExecJoin<W>(h: Host<W>, s: Shell<W>, a: Script, b: Script)
    ensures Exec(h, s, Join(a, b)) == Exec(h, Exec(h, s, a), b)
    decreases a
  {
    if s.exit.None? {
      match a
      case End =>
      case Then(c, rest) => ExecJoin(h, Do(h, s, c), rest, b);
      case IfFile(p, yes, no, next) =>
        ExecJoin(h, Exec(h, s, if h.isFile(s.world, p) then yes else no), next, b);
    }
  }

  lemma {:induction false} LinesJoin(a: Script, b: Script, depth: nat)
    ensures Lines(Join(a, b), depth) == Lines(a, depth) + Lines(b, depth)
    decreases a
  {
    hide Words, Text, Indent;
    match a
    case End =>
    case Then(c, rest) => LinesJoin(rest, b, depth);
    case IfFile(p, yes, no, next) => LinesJoin(next, b, depth);
  }

  lemma {:induction false} JoinLinesAppend(a: seq<string>, b: seq<string>)
    ensures JoinLines(a + b) == JoinLines(a) + JoinLines(b)
  {
    if a == [] {
      assert a + b == b;
    } else {
      JoinLinesAppend(a[1..], b);
      assert (a + b)[1..] == a[1..] + b;
    }
  }

  lemma PrintJoin(a: Script, b: Script)
    ensures Print(Join(a, b)) == Print(a) + Print(b)
  {
    LinesJoin(a, b, 0);
    JoinLinesAppend(Lines(a, 0), Lines(b, 0));
  }

  lemma {:induction false} CleanJoin(a: Script, b: Script)
    ensures Clean(Join(a, b)) <==> Clean(a) && Clean(b)
  {
    match a
    case End =>
    case Then(c, rest) => CleanJoin(rest, b);
    case IfFile(p, yes, no, next) => CleanJoin(next, b);
  }
}

/** Parsing the text of a script gives the script back exactly when all its words are clean. */
module BashRoundTrip {
  import opened Options
  import opened Bash

  function Tokens(s: Script): seq<Line> {
    match s
    case End => []
    case Then(c, rest) => [Plain(c)] + Tokens(rest)
    case IfFile(p, yes, no, next) => [If(p)] + Tokens(yes) + ([Else] + Tokens(no)) + ([Fi] + Tokens(next))
  }

  // ----- Lines -----

  predicate OneLine(s: string) { forall i :: 0 <= i < |s| ==> s[i] != '\n' }

  lemma {:induction false} FindSkips(c: char, a: string, b: string)
    requires c !in a
    ensures Find(c, a + [c] + b) == |a|
  {
    if a != "" {
      FindSkips(c, a[1..], b);
      assert (a + [c] + b)[1..] == a[1..] + [c] + b;
    }
  }

  lemma FirstLine(a: string, b: string)
    requires OneLine(a)
    ensures SplitLines(a + "\n" + b) == [a] + SplitLines(b)
  {
    FindSkips('\n', a, b);
    var s := a + "\n" + b;
    assert s[..|a|] == a && s[|a| + 1..] == b;
  }

  lemma {:induction false} SplitJoined(ls: seq<string>)
    requires forall i :: 0 <= i < |ls| ==> OneLine(ls[i])
    ensures SplitLines(JoinLines(ls)) == ls
  {
    hide OneLine, SplitLines;
    if ls == [] {
      NoLines();
    } else {
      SplitJoined(ls[1..]);
      FirstLine(ls[0], JoinLines(ls[1..]));
    }
  }

  lemma NoLines()
    ensures SplitLines("") == []
  {
  }

  lemma {:induction false} IndentIsBlank(depth: nat)
    ensures forall i :: 0 <= i < |Indent(depth)| ==> Indent(depth)[i] == ' '
  {
    if depth > 0 { IndentIsBlank(depth - 1); }
  }

  predicate CleanLine(l: Line) {
    match l
    case Plain(c) => CleanCommand(c)
    case If(p) => CleanWord(p)
    case _ => true
  }

  lemma OneLineTogether(a: string, b: string)
    requires OneLine(a) && OneLine(b)
    ensures OneLine(a + b)
  {
  }

  lemma LiteralsAreLines()
    ensures OneLine("#") && OneLine("set -euo pipefail") && OneLine("echo \"") && OneLine("\"") && OneLine("export ")
    ensures OneLine("=\"") && OneLine("bash \"") && OneLine("if [ -f \"") && OneLine("\" ]; then")
    ensures OneLine("else") && OneLine("fi") && OneLine("")
  {
  }

  lemma WordIsLine(w: string)
    requires CleanWord(w) || '\n' !in w || IsName(w)
    ensures OneLine(w)
  {
  }

  lemma QuotedIsLine(pre: string, w: string, post: string)
    requires OneLine(pre) && CleanWord(w) && OneLine(post)
    ensures OneLine(pre + w + post)
  {
  }

  lemma CommandIsLine(c: Command)
    requires CleanCommand(c)
    ensures OneLine(Words(c))
  {
    hide OneLine, CleanWord, IsName;
    LiteralsAreLines();
    match c
    case Comment(text) => WordIsLine(text); OneLineTogether("#", text);
    case Echo(w) => QuotedIsLine("echo \"", w, "\"");
    case Export(name, w) =>
      WordIsLine(name);
      OneLineTogether("export ", name);
      OneLineTogether("export " + name, "=\"");
      QuotedIsLine("export " + name + "=\"", w, "\"");
    case Run(p) => QuotedIsLine("bash \"", p, "\"");
    case _ =>
  }

  lemma LineIsLine(l: Line, depth: nat)
    requires CleanLine(l)
    ensures OneLine(Indent(depth) + Text(l))
  {
    IndentIsBlank(depth);
    assert OneLine(Text(l)) by {
      hide OneLine, CleanWord, CleanCommand, Words;
      LiteralsAreLines();
      match l
      case Plain(c) => CommandIsLine(c);
      case If(p) => QuotedIsLine("if [ -f \"", p, "\" ]; then");
      case _ =>
    }
    hide Text, Indent;
    OneLineTogether(Indent(depth), Text(l));
  }

  lemma TrimBlank(s: string)
    ensures Trim(" " + s) == Trim(s)
  {
    assert (" " + s)[1..] == s;
  }

  lemma TrimNothing(s: string)
    requires s == "" || s[0] != ' '
    ensures Trim(s) == s
  {
  }

  lemma IndentMore(depth: nat, s: string)
    requires depth > 0
    ensures Indent(depth) + s == " " + (" " + (Indent(depth - 1) + s))
  {
  }

  lemma {:induction false} TrimIndent(depth: nat, s: string)
    requires s == "" || s[0] != ' '
    ensures Trim(Indent(depth) + s) == s
  {
    if depth == 0 {
      assert Indent(0) + s == s;
      TrimNothing(s);
    } else {
      IndentMore(depth, s);
      hide Trim, Indent;
      TrimIndent(depth - 1, s);
      TrimBlank(" " + (Indent(depth - 1) + s));
      TrimBlank(Indent(depth - 1) + s);
    }
  }

  lemma BetweenIs(pre: string, w: string, post: string)
    ensures Between(pre, post, pre + w + post) == Some(w)
  {
    var s := pre + w + post;
    assert s[|s| - |post|..] == post && s[|pre|..|s| - |post|] == w;
  }

  lemma ExportParses(name: string, w: string)
    requires IsName(name) && CleanWord(w)
    ensures ParseExport(Words(Export(name, w))) == Some(Export(name, w))
  {
    hide CleanWord, Between;
    var body := name + ['='] + ("\"" + w);
    assert Words(Export(name, w)) == "export " + body + "\"";
    BetweenIs("export ", body, "\"");
    assert '=' !in name;
    hide IsName, Words;
    FindSkips('=', name, "\"" + w);
    assert body[..|name|] == name && body[|name| + 1] == '"' && body[|name| + 2..] == w;
  }

  lemma LineParses(l: Line)
    requires CleanLine(l)
    ensures ParseLine(Text(l)) == Some(l)
  {
    hide CleanWord, IsName, Between, ParseExport;
    var s := Text(l);
    match l
    case Plain(Comment(text)) => assert s[1..] == text;
    case Plain(Echo(w)) =>
      BetweenIs("echo \"", w, "\"");
      assert s[1] == 'c';
    case Plain(Export(name, w)) =>
      ExportParses(name, w);
      ExportIsNothingElse(s);
    case Plain(Run(p)) =>
      BetweenIs("bash \"", p, "\"");
      StartsOtherwise("echo \"", "\"", s);
    case If(p) =>
      BetweenIs("if [ -f \"", p, "\" ]; then");
      assert s[0] == 'i';
      StartsOtherwise("echo \"", "\"", s);
      StartsOtherwise("bash \"", "\"", s);
    case _ =>
  }

  lemma StartsOtherwise(pre: string, post: string, s: string)
    requires pre != "" && s != "" && (pre[0] != s[0] || (|pre| > 1 && |s| > 1 && pre[1] != s[1]))
    ensures Between(pre, post, s) == None
  {
  }

  lemma ExportIsNothingElse(s: string)
    requires "export " <= s
    ensures s != "set -euo pipefail" && s != "else" && s != "fi" && s[0] == 'e'
    ensures Between("echo \"", "\"", s) == None && Between("bash \"", "\"", s) == None
    ensures Between("if [ -f \"", "\" ]; then", s) == None
  {
    assert s[1] == 'x';
    StartsOtherwise("echo \"", "\"", s);
    StartsOtherwise("bash \"", "\"", s);
    StartsOtherwise("if [ -f \"", "\" ]; then", s);
  }

  lemma TextStarts(l: Line)
    ensures Text(l) == "" || Text(l)[0] != ' '
  {
  }

  lemma IndentedParses(l: Line, depth: nat)
    requires CleanLine(l)
    ensures ParseLine(Indent(depth) + Text(l)) == Some(l)
  {
    TextStarts(l);
    LineParses(l);
    hide CleanLine, Text, Indent, Between, ParseExport, Quoted;
    TrimIndent(depth, Text(l));
    TrimIndent(0, Text(l));
    assert Indent(0) + Text(l) == Text(l) by { IndentNone(); }
  }

  lemma IndentNone()
    ensures Indent(0) == ""
  {
  }

  lemma ParseLinesCons(line: string, ls: seq<string>)
    ensures ParseLines([line] + ls) ==
      if ParseLine(line).Some? && ParseLines(ls).Some? then Some([ParseLine(line).value] + ParseLines(ls).value)
        else None
  {
    hide ParseLine;
    assert ([line] + ls)[1..] == ls;
  }

  lemma {:induction false} ParseLinesAppend(a: seq<string>, b: seq<string>)
    requires ParseLines(a).Some? && ParseLines(b).Some?
    ensures ParseLines(a + b) == Some(ParseLines(a).value + ParseLines(b).value)
  {
    hide ParseLine, ParseLines;
    var y := ParseLines(b).value;
    if a == [] {
      NothingParses();
      assert a + b == b && [] + y == y;
    } else {
      var head, tail := a[0], a[1..];
      assert a == [head] + tail && a + b == [head] + (tail + b);
      ParseLinesCons(head, tail);
      ParseLinesCons(head, tail + b);
      ParseLinesAppend(tail, b);
      assert [ParseLine(head).value] + (ParseLines(tail).value + y) ==
        [ParseLine(head).value] + ParseLines(tail).value + y;
    }
  }

  lemma OneLineParses(l: Line, depth: nat)
    requires CleanLine(l)
    ensures ParseLines([Indent(depth) + Text(l)]) == Some([l])
  {
    IndentedParses(l, depth);
    hide CleanLine, Text, Indent, ParseLine;
    assert [Indent(depth) + Text(l)][1..] == [] && [l] + [] == [l];
  }

  lemma PlainText(c: Command)
    ensures Text(Plain(c)) == Words(c)
  {
  }

  lemma {:induction false} LinesParse(s: Script, depth: nat)
    requires Clean(s)
    ensures ParseLines(Lines(s, depth)) == Some(Tokens(s))
    ensures forall i :: 0 <= i < |Lines(s, depth)| ==> OneLine(Lines(s, depth)[i])
    decreases s
  {
    hide ParseLines, Words, Text, Indent, OneLine, CleanWord, CleanCommand;
    match s
    case End => NothingParses();
    case Then(c, rest) =>
      LinesParse(rest, depth);
      OneLineParses(Plain(c), depth);
      LineIsLine(Plain(c), depth);
      PlainText(c);
      ParseLinesAppend([Indent(depth) + Words(c)], Lines(rest, depth));
    case IfFile(p, yes, no, next) =>
      LinesParse(yes, depth + 1);
      LinesParse(no, depth + 1);
      LinesParse(next, depth);
      OneLineParses(If(p), depth);
      OneLineParses(Else, depth);
      OneLineParses(Fi, depth);
      LineIsLine(If(p), depth);
      LineIsLine(Else, depth);
      LineIsLine(Fi, depth);
      var a, b, c := [Indent(depth) + Text(If(p))], [Indent(depth) + Text(Else)], [Indent(depth) + Text(Fi)];
      ParseLinesAppend(a, Lines(yes, depth + 1));
      ParseLinesAppend(b, Lines(no, depth + 1));
      ParseLinesAppend(c, Lines(next, depth));
      ParseLinesAppend(a + Lines(yes, depth + 1), b + Lines(no, depth + 1));
      ParseLinesAppend(a + Lines(yes, depth + 1) + (b + Lines(no, depth + 1)), c + Lines(next, depth));
  }

  lemma NothingParses()
    ensures ParseLines([]) == Some([])
  {
  }

  // ----- Blocks -----

  lemma IfParses(p: string, yes: Script, no: Script, next: Script, a: seq<Line>, b: seq<Line>, c: seq<Line>,
      tail: seq<Line>)
    requires ParseBlock(a) == Some((yes, [Else] + b)) && HasCommand(yes)
    requires ParseBlock(b) == Some((no, [Fi] + c)) && HasCommand(no)
    requires ParseBlock(c) == Some((next, tail))
    ensures ParseBlock([If(p)] + a) == Some((IfFile(p, yes, no, next), tail))
  {
    hide HasCommand;
    assert ([If(p)] + a)[1..] == a && ([Else] + b)[1..] == b && ([Fi] + c)[1..] == c;
  }

  lemma PlainParses(c: Command, rest: Script, a: seq<Line>, tail: seq<Line>)
    requires ParseBlock(a) == Some((rest, tail))
    ensures ParseBlock([Plain(c)] + a) == Some((Then(c, rest), tail))
  {
    assert ([Plain(c)] + a)[1..] == a;
  }

  lemma EndParses(tail: seq<Line>)
    requires tail == [] || tail[0].Else? || tail[0].Fi?
    ensures ParseBlock(tail) == Some((End, tail))
  {
  }

  lemma Regroup<T>(a: seq<T>, yes: seq<T>, b: seq<T>, no: seq<T>, c: seq<T>, next: seq<T>, tail: seq<T>)
    ensures a + yes + (b + no) + (c + next) + tail == a + (yes + (b + (no + (c + (next + tail)))))
  {
  }

  lemma {:induction false} TokensParse(s: Script, tail: seq<Line>)
    requires Clean(s) && (tail == [] || tail[0].Else? || tail[0].Fi?)
    ensures ParseBlock(Tokens(s) + tail) == Some((s, tail))
    decreases s
  {
    hide CleanWord, CleanCommand, HasCommand, ParseBlock;
    var ls := Tokens(s) + tail;
    match s
    case End =>
      assert ls == tail;
      EndParses(tail);
    case Then(c, rest) =>
      TokensParse(rest, tail);
      PlainParses(c, rest, Tokens(rest) + tail, tail);
      assert ls == [Plain(c)] + (Tokens(rest) + tail);
    case IfFile(p, yes, no, next) =>
      var c := Tokens(next) + tail;
      var b := Tokens(no) + ([Fi] + c);
      var a := Tokens(yes) + ([Else] + b);
      TokensParse(next, tail);
      TokensParse(no, [Fi] + c);
      TokensParse(yes, [Else] + b);
      IfParses(p, yes, no, next, a, b, c, tail);
      Regroup([If(p)], Tokens(yes), [Else], Tokens(no), [Fi], Tokens(next), tail);
  }

  // ----- What the parser accepts is clean -----

  lemma {:induction false} SplitIsOneLine(s: string)
    ensures forall i :: 0 <= i < |SplitLines(s)| ==> OneLine(SplitLines(s)[i])
    decreases |s|
  {
    if s != "" {
      var n := Find('\n', s);
      assert OneLine(s[..n]);
      if n < |s| { SplitIsOneLine(s[n + 1..]); }
    }
  }

  lemma {:induction false} TrimIsOneLine(s: string)
    requires OneLine(s)
    ensures OneLine(Trim(s))
  {
    if s != "" && s[0] == ' ' { TrimIsOneLine(s[1..]); }
  }

  lemma ParsedLineIsClean(line: string)
    requires OneLine(line) && ParseLine(line).Some?
    ensures CleanLine(ParseLine(line).value)
  {
    hide CleanWord, IsName, Between, Find;
    TrimIsOneLine(line);
    var s := Trim(line);
    if s != "" && s[0] == '#' { assert OneLine(s[1..]); }
  }

  lemma {:induction false} ParsedLinesAreClean(lines: seq<string>)
    requires ParseLines(lines).Some? && forall i :: 0 <= i < |lines| ==> OneLine(lines[i])
    ensures forall i :: 0 <= i < |ParseLines(lines).value| ==> CleanLine(ParseLines(lines).value[i])
  {
    hide OneLine, ParseLine, CleanLine;
    if lines != [] {
      ParsedLineIsClean(lines[0]);
      ParsedLinesAreClean(lines[1..]);
    }
  }

  lemma {:induction false} ParsedBlockIsClean(ls: seq<Line>)
    requires ParseBlock(ls).Some? && forall i :: 0 <= i < |ls| ==> CleanLine(ls[i])
    ensures Clean(ParseBlock(ls).value.0)
    ensures forall i :: 0 <= i < |ParseBlock(ls).value.1| ==> CleanLine(ParseBlock(ls).value.1[i])
    decreases |ls|
  {
    hide CleanWord, CleanCommand, HasCommand;
    if ls == [] || ls[0].Else? || ls[0].Fi? {
    } else if ls[0].Plain? {
      ParsedBlockIsClean(ls[1..]);
    } else {
      ParsedBlockIsClean(ls[1..]);
      var a := ParseBlock(ls[1..]).value.1;
      ParsedBlockIsClean(a[1..]);
      var b := ParseBlock(a[1..]).value.1;
      ParsedBlockIsClean(b[1..]);
    }
  }

  /** Whatever text is parsed, the script has only clean words and no empty branch. */
  lemma ParseIsClean(text: string)
    requires Parse(text).Some?
    ensures Clean(Parse(text).value)
  {
    hide OneLine, CleanLine, Clean;
    SplitIsOneLine(text);
    ParsedLinesAreClean(SplitLines(text));
    ParsedBlockIsClean(ParseLines(SplitLines(text)).value);
  }

  /** The text of a script is read back as that script iff its words are clean. */
  lemma ParsePrint(s: Script)
    ensures Parse(Print(s)) == Some(s) <==> Clean(s)
  {
    if Clean(s) {
      LinesParse(s, 0);
      SplitJoined(Lines(s, 0));
      TokensParse(s, []);
      assert Tokens(s) + [] == Tokens(s);
    } else if Parse(Print(s)) == Some(s) {
      ParseIsClean(Print(s));
    }
  }
}
