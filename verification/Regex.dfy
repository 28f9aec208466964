/**
 A small regular-expression language with the backtracking semantics of Python's `re`
 and Go's `regexp`: `Ends` lists, in the order the engine tries them, the positions where
 a match that starts at a given position may end.  The engine reports the first one.
 */
module Regex {
  import opened Options

  /** What `\w`, `\d` and `\s` mean outside ASCII is left to the table. */
  datatype CharTable = CharTable(word: char -> bool, digit: char -> bool, space: char -> bool) {
    ghost predicate Valid() {
      && (forall c :: digit(c) ==> word(c))
      && (forall c :: c < '\U{80}' ==> (word(c) <==> AsciiWord(c)))
      && (forall c :: c < '\U{80}' ==> (digit(c) <==> AsciiDigit(c)))
    }
  }

  predicate AsciiDigit(c: char) { '0' <= c <= '9' }
  predicate AsciiLetter(c: char) { 'a' <= c <= 'z' || 'A' <= c <= 'Z' }
  predicate AsciiWord(c: char) { AsciiLetter(c) || AsciiDigit(c) || c == '_' }

  datatype CharSet =
    | One(c: char)
    | Range(lo: char, hi: char)
    | Digit
    | Either(left: CharSet, right: CharSet)

  predicate In(t: CharTable, cs: CharSet, c: char) {
    match cs
    case One(d) => c == d
    case Range(lo, hi) => lo <= c <= hi
    case Digit => t.digit(c)
    case Either(l, r) => In(t, l, c) || In(t, r, c)
  }

  /** How often a repetition may go round. */
  datatype Cap = Unbounded | AtMost(n: nat)

  predicate Open(hi: Cap) { hi.AtMost? ==> hi.n > 0 }
  function Lower(hi: Cap): Cap { if hi.AtMost? then AtMost(Fewer(hi.n)) else hi }
  function Fewer(n: nat): nat { if n == 0 then 0 else n - 1 }

  datatype Regex =
    | Empty
    | Chars(cs: CharSet)
    | Greedy(rep: CharSet, lo: nat, hi: Cap)
    | Cat(first: Regex, second: Regex)
    | Or(left: Regex, right: Regex)
    | Boundary
    | NotAhead(ahead: Regex)

  /** A literal string, one character after the other, followed by `rest`. */
  function Lit(text: string, rest: Regex): Regex {
    if text == "" then rest else Cat(Chars(One(text[0])), Lit(text[1..], rest))
  }

  predicate WordAt(t: CharTable, s: string, i: int) { 0 <= i < |s| && t.word(s[i]) }

  predicate AtBoundary(t: CharTable, s: string, i: nat) {
    WordAt(t, s, i - 1) != WordAt(t, s, i)
  }

  /** Greedy repetition of one character class: try one more first, then stop. */
  function GreedyEnds(t: CharTable, cs: CharSet, lo: nat, hi: Cap, s: string, i: nat): (es: seq<nat>)
    requires i <= |s|
    ensures forall k :: 0 <= k < |es| ==> i <= es[k] <= |s|
    decreases |s| - i
  {
    (if Open(hi) && i < |s| && In(t, cs, s[i])
     then GreedyEnds(t, cs, Fewer(lo), Lower(hi), s, i + 1)
     else []) + (if lo == 0 then [i] else [])
  }

  function Ends(t: CharTable, re: Regex, s: string, i: nat): (es: seq<nat>)
    requires i <= |s|
    ensures forall k :: 0 <= k < |es| ==> i <= es[k] <= |s|
    decreases re, 0
  {
    match re
    case Empty => [i]
    case Chars(cs) => if i < |s| && In(t, cs, s[i]) then [i + 1] else []
    case Greedy(cs, lo, hi) => GreedyEnds(t, cs, lo, hi, s, i)
    case Cat(a, b) => AllEnds(t, b, s, i, Ends(t, a, s, i))
    case Or(a, b) => Ends(t, a, s, i) + Ends(t, b, s, i)
    case Boundary => if AtBoundary(t, s, i) then [i] else []
    case NotAhead(a) => if Ends(t, a, s, i) == [] then [i] else []
  }

  /** Continue with `re` from every position in `starts`, in order. */
  function AllEnds(t: CharTable, re: Regex, s: string, i: nat, starts: seq<nat>): (es: seq<nat>)
    requires forall k :: 0 <= k < |starts| ==> i <= starts[k] <= |s|
    ensures forall k :: 0 <= k < |es| ==> i <= es[k] <= |s|
    decreases re, 1 + |starts|
  {
    if starts == [] then [] else Ends(t, re, s, starts[0]) + AllEnds(t, re, s, i, starts[1..])
  }

  /** Where the match the engine reports at `i` ends. */
  function MatchEnd(t: CharTable, re: Regex, s: string, i: nat): (r: Option<nat>)
    requires i <= |s|
    ensures r.Some? ==> i <= r.value <= |s|
  {
    var es := Ends(t, re, s, i);
    if es == [] then None else Some(es[0])
  }

  /** The non-empty match at `i`, as the position after it; `i` itself when there is none. */
  function HitEnd(t: CharTable, re: Regex, s: string, i: nat): (j: nat)
    requires i <= |s|
    ensures i <= j <= |s|
  {
    var m := MatchEnd(t, re, s, i);
    if m.Some? then m.value else i
  }

  ghost predicate NoMatchFrom(t: CharTable, re: Regex, s: string, from: nat) {
    forall i :: from <= i <= |s| ==> Ends(t, re, s, i) == []
  }

  ghost predicate NoMatch(t: CharTable, re: Regex, s: string) { NoMatchFrom(t, re, s, 0) }

  /** `re.sub(repl, s)` from position `pos` on, for patterns that never match the empty string. */
  function Sub(t: CharTable, re: Regex, repl: string, s: string, pos: nat): string
    requires pos <= |s|
    decreases |s| - pos
  {
    if pos == |s| then ""
    else
      var e := HitEnd(t, re, s, pos);
      if e > pos then repl + Sub(t, re, repl, s, e)
      else [s[pos]] + Sub(t, re, repl, s, pos + 1)
  }

  lemma SubStep(t: CharTable, re: Regex, repl: string, s: string, pos: nat)
    requires pos <= |s|
    ensures Sub(t, re, repl, s, pos) ==
      if pos == |s| then ""
      else
        var e := HitEnd(t, re, s, pos);
        if e > pos then repl + Sub(t, re, repl, s, e) else [s[pos]] + Sub(t, re, repl, s, pos + 1)
  {
    hide HitEnd;
  }

  // ----- What a substitution does, stated without the loop -----

  datatype Hit = Hit(start: nat, end: nat)

  /** `hits` are the leftmost non-overlapping matches of `re` in `s` from `pos` on. */
  ghost predicate Leftmost(t: CharTable, re: Regex, s: string, pos: nat, hits: seq<Hit>)
    requires pos <= |s|
    decreases hits
  {
    if hits == [] then
      forall i :: pos <= i < |s| ==> HitEnd(t, re, s, i) == i
    else
      && pos <= hits[0].start < hits[0].end <= |s|
      && (forall i :: pos <= i < hits[0].start ==> HitEnd(t, re, s, i) == i)
      && HitEnd(t, re, s, hits[0].start) == hits[0].end
      && Leftmost(t, re, s, hits[0].end, hits[1..])
  }

  /** `s` from `pos` on with every hit replaced and every gap copied, in order. */
  ghost function Splice(repl: string, s: string, pos: nat, hits: seq<Hit>): string
    decreases hits
  {
    if hits == [] then (if pos <= |s| then s[pos..] else "")
    else if pos <= hits[0].start < hits[0].end <= |s| then
      s[pos..hits[0].start] + repl + Splice(repl, s, hits[0].end, hits[1..])
    else ""
  }

  ghost function Hits(t: CharTable, re: Regex, s: string, pos: nat): (hits: seq<Hit>)
    requires pos <= |s|
    decreases |s| - pos
  {
    if pos == |s| then []
    else
      var e := HitEnd(t, re, s, pos);
      if e > pos then [Hit(pos, e)] + Hits(t, re, s, e) else Hits(t, re, s, pos + 1)
  }

  lemma {:induction false} HitsAreLeftmost(t: CharTable, re: Regex, s: string, pos: nat)
    requires pos <= |s|
    ensures Leftmost(t, re, s, pos, Hits(t, re, s, pos))
    decreases |s| - pos
  {
    hide HitEnd;
    if pos < |s| {
      var e := HitEnd(t, re, s, pos);
      if e > pos {
        HitsAreLeftmost(t, re, s, e);
        assert Hits(t, re, s, pos)[1..] == Hits(t, re, s, e);
      } else {
        HitsAreLeftmost(t, re, s, pos + 1);
      }
    }
  }

  /** Starting one gap character earlier only copies that character. */
  lemma SpliceStep(repl: string, s: string, pos: nat, hits: seq<Hit>)
    requires pos < |s|
    requires hits == [] || pos + 1 <= hits[0].start < hits[0].end <= |s|
    ensures Splice(repl, s, pos, hits) == [s[pos]] + Splice(repl, s, pos + 1, hits)
  {
    if hits == [] {
      assert s[pos..] == [s[pos]] + s[pos + 1..];
    } else {
      var tail := Splice(repl, s, hits[0].end, hits[1..]);
      assert s[pos..hits[0].start] == [s[pos]] + s[pos + 1..hits[0].start];
      assert [s[pos]] + (s[pos + 1..hits[0].start] + repl + tail) == s[pos..hits[0].start] + repl + tail;
    }
  }

  lemma {:induction false} SubIsSplice(t: CharTable, re: Regex, repl: string, s: string, pos: nat)
    requires pos <= |s|
    ensures Sub(t, re, repl, s, pos) == Splice(repl, s, pos, Hits(t, re, s, pos))
    decreases |s| - pos
  {
    hide HitEnd;
    if pos < |s| {
      var e := HitEnd(t, re, s, pos);
      var hits := Hits(t, re, s, pos);
      if e > pos {
        SubIsSplice(t, re, repl, s, e);
        assert hits[1..] == Hits(t, re, s, e);
        assert s[pos..pos] + repl == repl;
      } else {
        SubIsSplice(t, re, repl, s, pos + 1);
        HitsAreLeftmost(t, re, s, pos + 1);
        SpliceStep(repl, s, pos, hits);
      }
    }
  }

  /** The leftmost non-overlapping matches are unique, so `Leftmost` pins the substitution down. */
  lemma {:induction false} LeftmostIsUnique(t: CharTable, re: Regex, s: string, pos: nat, a: seq<Hit>, b: seq<Hit>)
    requires pos <= |s|
    requires Leftmost(t, re, s, pos, a) && Leftmost(t, re, s, pos, b)
    ensures a == b
    decreases a
  {
    hide HitEnd;
    if a != [] && b != [] {
      assert a[0] == b[0];
      LeftmostIsUnique(t, re, s, a[0].end, a[1..], b[1..]);
      assert a == [a[0]] + a[1..] && b == [b[0]] + b[1..];
    }
  }

  /** The substitution copies every gap of the leftmost non-overlapping matches and replaces every match. */
  lemma SubReplacesLeftmostMatches(t: CharTable, re: Regex, repl: string, s: string, hits: seq<Hit>)
    requires Leftmost(t, re, s, 0, hits)
    ensures Sub(t, re, repl, s, 0) == Splice(repl, s, 0, hits)
  {
    HitsAreLeftmost(t, re, s, 0);
    LeftmostIsUnique(t, re, s, 0, hits, Hits(t, re, s, 0));
    SubIsSplice(t, re, repl, s, 0);
  }

  // ----- Reasoning about patterns piece by piece -----

  /** Length of the run of class members that `u` starts with. */
  function Run(t: CharTable, cs: CharSet, u: string): (n: nat)
    ensures n <= |u|
    ensures forall k :: 0 <= k < n ==> In(t, cs, u[k])
    ensures n < |u| ==> !In(t, cs, u[n])
  {
    if u != "" && In(t, cs, u[0]) then 1 + Run(t, cs, u[1..]) else 0
  }

  /** The run is the stretch of members that ends where the text does or no member follows. */
  lemma {:induction false} RunIs(t: CharTable, cs: CharSet, u: string, m: nat)
    requires m <= |u| && (forall k :: 0 <= k < m ==> In(t, cs, u[k])) && (m < |u| ==> !In(t, cs, u[m]))
    ensures Run(t, cs, u) == m
  {
    hide In;
    if u != "" && In(t, cs, u[0]) { RunIs(t, cs, u[1..], m - 1); }
  }

  lemma {:induction false} AllEndsConcat(t: CharTable, re: Regex, s: string, i: nat, a: seq<nat>, b: seq<nat>)
    requires forall k :: 0 <= k < |a| ==> i <= a[k] <= |s|
    requires forall k :: 0 <= k < |b| ==> i <= b[k] <= |s|
    ensures forall k :: 0 <= k < |a + b| ==> i <= (a + b)[k] <= |s|
    ensures AllEnds(t, re, s, i, a + b) == AllEnds(t, re, s, i, a) + AllEnds(t, re, s, i, b)
    decreases |a|
  {
    hide Ends;
    if a == [] {
      assert a + b == b;
    } else {
      AllEndsConcat(t, re, s, i, a[1..], b);
      assert (a + b)[1..] == a[1..] + b && (a + b)[0] == a[0];
    }
  }

  /** The lower bound `i` of `AllEnds` only serves its contract. */
  lemma {:induction false} AllEndsShift(t: CharTable, re: Regex, s: string, i: nat, j: nat, starts: seq<nat>)
    requires forall k :: 0 <= k < |starts| ==> i <= starts[k] <= |s|
    requires forall k :: 0 <= k < |starts| ==> j <= starts[k] <= |s|
    ensures AllEnds(t, re, s, i, starts) == AllEnds(t, re, s, j, starts)
    decreases |starts|
  {
    if starts != [] { AllEndsShift(t, re, s, i, j, starts[1..]); }
  }

  lemma AllEndsOne(t: CharTable, re: Regex, s: string, i: nat, e: nat)
    requires i <= e <= |s|
    ensures AllEnds(t, re, s, i, [e]) == Ends(t, re, s, e)
  {
    assert [e][1..] == [];
  }

  lemma CatIs(t: CharTable, a: Regex, b: Regex, s: string, i: nat)
    requires i <= |s|
    ensures Ends(t, Cat(a, b), s, i) == AllEnds(t, b, s, i, Ends(t, a, s, i))
  {
  }

  lemma AllEndsNone(t: CharTable, rest: Regex, s: string, i: nat)
    requires i <= |s|
    ensures AllEnds(t, rest, s, i, []) == []
  {
  }

  lemma CatChar(t: CharTable, cs: CharSet, rest: Regex, s: string, i: nat)
    requires i <= |s|
    ensures Ends(t, Cat(Chars(cs), rest), s, i)
         == if i < |s| && In(t, cs, s[i]) then Ends(t, rest, s, i + 1) else []
  {
    hide AllEnds, In;
    if i < |s| && In(t, cs, s[i]) { AllEndsOne(t, rest, s, i, i + 1); } else { AllEndsNone(t, rest, s, i); }
  }

  lemma {:induction false} CatLit(t: CharTable, text: string, rest: Regex, s: string, i: nat)
    requires i <= |s|
    ensures Ends(t, Lit(text, rest), s, i)
         == if text <= s[i..] then Ends(t, rest, s, i + |text|) else []
    decreases |text|
  {
    hide Ends, AllEnds;
    if text != "" {
      CatChar(t, One(text[0]), Lit(text[1..], rest), s, i);
      if i < |s| {
        CatLit(t, text[1..], rest, s, i + 1);
        PrefixStep(text, s, i);
      }
    }
  }

  lemma {:induction false} AllEndsCat(t: CharTable, b: Regex, c: Regex, s: string, i: nat, starts: seq<nat>)
    requires forall k :: 0 <= k < |starts| ==> i <= starts[k] <= |s|
    ensures AllEnds(t, c, s, i, AllEnds(t, b, s, i, starts)) == AllEnds(t, Cat(b, c), s, i, starts)
    decreases |starts|
  {
    if starts != [] {
      hide Ends, AllEnds;
      var head, tail := Ends(t, b, s, starts[0]), starts[1..];
      assert i <= starts[0] <= |s|;
      AllEndsStep(t, b, s, i, starts);
      AllEndsStep(t, Cat(b, c), s, i, starts);
      CatIs(t, b, c, s, starts[0]);
      AllEndsCat(t, b, c, s, i, tail);
      AllEndsShift(t, c, s, i, starts[0], head);
      AllEndsConcat(t, c, s, i, head, AllEnds(t, b, s, i, tail));
    }
  }

  lemma AllEndsStep(t: CharTable, re: Regex, s: string, i: nat, starts: seq<nat>)
    requires starts != [] && forall k :: 0 <= k < |starts| ==> i <= starts[k] <= |s|
    ensures AllEnds(t, re, s, i, starts) == Ends(t, re, s, starts[0]) + AllEnds(t, re, s, i, starts[1..])
  {
    hide Ends;
  }

  lemma CatAssoc(t: CharTable, a: Regex, b: Regex, c: Regex, s: string, i: nat)
    requires i <= |s|
    ensures Ends(t, Cat(Cat(a, b), c), s, i) == Ends(t, Cat(a, Cat(b, c)), s, i)
  {
    hide Ends, AllEnds;
    CatIs(t, Cat(a, b), c, s, i);
    CatIs(t, a, b, s, i);
    CatIs(t, a, Cat(b, c), s, i);
    AllEndsCat(t, b, c, s, i, Ends(t, a, s, i));
  }

  lemma CatOr(t: CharTable, a: Regex, b: Regex, c: Regex, s: string, i: nat)
    requires i <= |s|
    ensures Ends(t, Cat(Or(a, b), c), s, i) == Ends(t, Cat(a, c), s, i) + Ends(t, Cat(b, c), s, i)
  {
    hide Ends, AllEnds;
    CatIs(t, Or(a, b), c, s, i);
    CatIs(t, a, c, s, i);
    CatIs(t, b, c, s, i);
    OrEnds(t, a, b, s, i);
    AllEndsConcat(t, c, s, i, Ends(t, a, s, i), Ends(t, b, s, i));
  }

  lemma CatEmpty(t: CharTable, c: Regex, s: string, i: nat)
    requires i <= |s|
    ensures Ends(t, Cat(Empty, c), s, i) == Ends(t, c, s, i)
  {
    AllEndsOne(t, c, s, i, i);
  }

  lemma CatBoundary(t: CharTable, c: Regex, s: string, i: nat)
    requires i <= |s|
    ensures Ends(t, Cat(Boundary, c), s, i) == if AtBoundary(t, s, i) then Ends(t, c, s, i) else []
  {
    hide Ends, AllEnds;
    CatIs(t, Boundary, c, s, i);
    BoundaryAlone(t, s, i);
    if AtBoundary(t, s, i) { AllEndsOne(t, c, s, i, i); } else { AllEndsNone(t, c, s, i); }
  }

  lemma BoundaryAlone(t: CharTable, s: string, i: nat)
    requires i <= |s|
    ensures Ends(t, Boundary, s, i) == if AtBoundary(t, s, i) then [i] else []
  {
  }

  lemma NotAheadAlone(t: CharTable, a: Regex, s: string, i: nat)
    requires i <= |s|
    ensures Ends(t, NotAhead(a), s, i) == if Ends(t, a, s, i) == [] then [i] else []
  {
  }

  lemma OrEnds(t: CharTable, a: Regex, b: Regex, s: string, i: nat)
    requires i <= |s|
    ensures Ends(t, Or(a, b), s, i) == Ends(t, a, s, i) + Ends(t, b, s, i)
  {
  }

  lemma CatNotAhead(t: CharTable, a: Regex, c: Regex, s: string, i: nat)
    requires i <= |s|
    ensures Ends(t, Cat(NotAhead(a), c), s, i) == if Ends(t, a, s, i) == [] then Ends(t, c, s, i) else []
  {
    hide Ends, AllEnds;
    CatIs(t, NotAhead(a), c, s, i);
    NotAheadAlone(t, a, s, i);
    if Ends(t, a, s, i) == [] { AllEndsOne(t, c, s, i, i); } else { AllEndsNone(t, c, s, i); }
  }

  /** A literal prefix inside a group is a literal prefix of the whole. */
  lemma {:induction false} LitCat(t: CharTable, text: string, rest: Regex, c: Regex, s: string, i: nat)
    requires i <= |s|
    ensures Ends(t, Cat(Lit(text, rest), c), s, i)
         == if text <= s[i..] then Ends(t, Cat(rest, c), s, i + |text|) else []
    decreases |text|
  {
    hide Ends, AllEnds;
    if text != "" {
      CatAssoc(t, Chars(One(text[0])), Lit(text[1..], rest), c, s, i);
      CatChar(t, One(text[0]), Cat(Lit(text[1..], rest), c), s, i);
      if i < |s| {
        LitCat(t, text[1..], rest, c, s, i + 1);
        PrefixStep(text, s, i);
      }
    }
  }

  lemma PrefixStep(text: string, s: string, i: nat)
    requires text != "" && i < |s|
    ensures text <= s[i..] <==> text[0] == s[i] && text[1..] <= s[i + 1..]
  {
    assert s[i..] == [s[i]] + s[i + 1..];
    assert text == [text[0]] + text[1..];
  }

  /** An unbounded repetition matches iff its run is long enough, and first tries the whole run. */
  lemma {:induction false} UnboundedRun(t: CharTable, cs: CharSet, lo: nat, s: string, i: nat)
    requires i <= |s|
    ensures var es := GreedyEnds(t, cs, lo, Unbounded, s, i);
      if Run(t, cs, s[i..]) < lo then es == [] else es != [] && es[0] == i + Run(t, cs, s[i..])
    decreases |s| - i
  {
    hide In;
    if i < |s| && In(t, cs, s[i]) {
      assert s[i..][1..] == s[i + 1..];
      assert Run(t, cs, s[i..]) == 1 + Run(t, cs, s[i + 1..]);
      UnboundedRun(t, cs, Fewer(lo), s, i + 1);
      var more := GreedyEnds(t, cs, Fewer(lo), Unbounded, s, i + 1);
      var last := if lo == 0 then [i] else [];
      assert GreedyEnds(t, cs, lo, Unbounded, s, i) == more + last;
      if more != [] { assert (more + last)[0] == more[0]; }
    } else {
      assert Run(t, cs, s[i..]) == 0;
      assert GreedyEnds(t, cs, lo, Unbounded, s, i) == if lo == 0 then [i] else [];
    }
  }

  predicate Within(n: nat, lo: nat, hi: Cap) { lo <= n && (hi.AtMost? ==> n <= hi.n) }

  lemma CatUnfold(t: CharTable, cs: CharSet, lo: nat, hi: Cap, rest: Regex, s: string, i: nat)
    requires i <= |s|
    ensures Ends(t, Cat(Greedy(cs, lo, hi), rest), s, i) == AllEnds(t, rest, s, i, GreedyEnds(t, cs, lo, hi, s, i))
  {
  }

  lemma GreedyStep(t: CharTable, cs: CharSet, lo: nat, hi: Cap, rest: Regex, s: string, i: nat)
    requires i <= |s|
    ensures Ends(t, Cat(Greedy(cs, lo, hi), rest), s, i)
         == (if Open(hi) && i < |s| && In(t, cs, s[i])
             then Ends(t, Cat(Greedy(cs, Fewer(lo), Lower(hi)), rest), s, i + 1)
             else []) + (if lo == 0 then Ends(t, rest, s, i) else [])
  {
    hide Ends, AllEnds, In;
    var last := if lo == 0 then [i] else [];
    CatUnfold(t, cs, lo, hi, rest, s, i);
    if lo == 0 { AllEndsOne(t, rest, s, i, i); } else { AllEndsNone(t, rest, s, i); }
    if Open(hi) && i < |s| && In(t, cs, s[i]) {
      var more := GreedyEnds(t, cs, Fewer(lo), Lower(hi), s, i + 1);
      CatUnfold(t, cs, Fewer(lo), Lower(hi), rest, s, i + 1);
      AllEndsShift(t, rest, s, i, i + 1, more);
      AllEndsConcat(t, rest, s, i, more, last);
    } else {
      assert [] + last == last;
    }
  }

  /** What is left when only the whole run may be followed by `rest`. */
  function AfterRun(t: CharTable, cs: CharSet, lo: nat, hi: Cap, rest: Regex, s: string, i: nat): seq<nat>
    requires i <= |s|
  {
    var n := Run(t, cs, s[i..]);
    if Within(n, lo, hi) then Ends(t, rest, s, i + n) else []
  }

  /** `rest` matches at no position from `from` up to `to`. */
  ghost predicate Fails(t: CharTable, rest: Regex, s: string, from: nat, to: nat)
    requires to <= |s|
  {
    forall e :: from <= e < to ==> Ends(t, rest, s, e) == []
  }

  lemma AfterRunStep(t: CharTable, cs: CharSet, lo: nat, hi: Cap, rest: Regex, s: string, i: nat)
    requires i < |s| && In(t, cs, s[i]) && Open(hi)
    requires Fails(t, rest, s, i + lo, i + Run(t, cs, s[i..]))
    ensures lo == 0 ==> Ends(t, rest, s, i) == []
    ensures AfterRun(t, cs, lo, hi, rest, s, i) == AfterRun(t, cs, Fewer(lo), Lower(hi), rest, s, i + 1)
    ensures Fails(t, rest, s, i + 1 + Fewer(lo), i + 1 + Run(t, cs, s[i + 1..]))
  {
    hide Ends, In;
    assert s[i..][1..] == s[i + 1..];
  }

  lemma AfterRunStop(t: CharTable, cs: CharSet, lo: nat, hi: Cap, rest: Regex, s: string, i: nat)
    requires i <= |s|
    requires !(Open(hi) && i < |s| && In(t, cs, s[i]))
    requires Fails(t, rest, s, i + lo, i + Run(t, cs, s[i..]))
    ensures AfterRun(t, cs, lo, hi, rest, s, i) == if lo == 0 then Ends(t, rest, s, i) else []
  {
    hide Ends, In;
  }

  /** A continuation that fails wherever the run could have gone on leaves only the whole run. */
  lemma {:induction false} CatGreedy(t: CharTable, cs: CharSet, lo: nat, hi: Cap, rest: Regex, s: string, i: nat)
    requires i <= |s|
    requires Fails(t, rest, s, i + lo, i + Run(t, cs, s[i..]))
    ensures Ends(t, Cat(Greedy(cs, lo, hi), rest), s, i) == AfterRun(t, cs, lo, hi, rest, s, i)
    decreases |s| - i
  {
    hide Ends, AllEnds, Run, Fails, AfterRun;
    GreedyStep(t, cs, lo, hi, rest, s, i);
    var here := if lo == 0 then Ends(t, rest, s, i) else [];
    if Open(hi) && i < |s| && In(t, cs, s[i]) {
      AfterRunStep(t, cs, lo, hi, rest, s, i);
      CatGreedy(t, cs, Fewer(lo), Lower(hi), rest, s, i + 1);
      var more := AfterRun(t, cs, Fewer(lo), Lower(hi), rest, s, i + 1);
      assert more + [] == more;
    } else {
      AfterRunStop(t, cs, lo, hi, rest, s, i);
      assert [] + here == here;
    }
  }
}
