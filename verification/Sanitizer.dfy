/**
 `sanitize_privacy` of the Hindsight bridge: two regular-expression substitutions, one after
 the other.  Scanners that work left to right on the remaining text, with one bit of memory for
 the character before it, are proved to agree with the patterns.
 */
module Sanitizer {
  import opened Regex

  const IP_MARK := "[REDACTED-RFC1918-IP]"
  const PATH_MARK := "[REDACTED-USER-PATH]"

  // ----- The two patterns -----

  /** `\d{1,3}` written `n` times with `\.` in between. */
  function OctetsPattern(n: nat): Regex
    requires n >= 1
  {
    var octet := Greedy(Digit, 1, AtMost(3));
    if n == 1 then octet else Cat(octet, Lit(".", OctetsPattern(n - 1)))
  }

  /** `(1[6-9]|2\d|3[01])` */
  function SecondOctet172(): Regex {
    Or(Cat(Chars(One('1')), Chars(Range('6', '9'))),
       Or(Cat(Chars(One('2')), Chars(Digit)), Cat(Chars(One('3')), Chars(Range('0', '1')))))
  }

  function IpPattern(): Regex {
    Cat(Boundary,
        Cat(Or(Lit("10.", OctetsPattern(3)),
               Or(Lit("192.168.", OctetsPattern(2)),
                  Lit("172.", Cat(SecondOctet172(), Lit(".", OctetsPattern(2)))))),
            Boundary))
  }

  /** `[a-zA-Z0-9_-]` */
  function NameSet(): CharSet {
    Either(Range('a', 'z'), Either(Range('A', 'Z'), Either(Range('0', '9'), Either(One('_'), One('-')))))
  }

  function LetterSet(): CharSet { Either(Range('A', 'Z'), Range('a', 'z')) }

  function NamePattern(): Regex { Greedy(NameSet(), 1, Unbounded) }

  /** `(ubuntu|username|runner)\b` */
  function ExemptPattern(): Regex {
    Cat(Or(Lit("ubuntu", Empty), Or(Lit("username", Empty), Lit("runner", Empty))), Boundary)
  }

  function PathPattern(): Regex {
    Or(Lit("/home/", Cat(NotAhead(ExemptPattern()), NamePattern())),
       Or(Lit("/Users/", NamePattern()),
          Cat(Chars(LetterSet()), Lit(":\\Users\\", NamePattern()))))
  }

  function FirstPass(t: CharTable, text: string): string { Sub(t, IpPattern(), IP_MARK, text, 0) }

  function SanitizePrivacy(t: CharTable, text: string): string {
    Sub(t, PathPattern(), PATH_MARK, FirstPass(t, text), 0)
  }

  /** Neither pattern matches anywhere: the zero-leak invariant. */
  ghost predicate Clean(t: CharTable, text: string) {
    NoMatch(t, IpPattern(), text) && NoMatch(t, PathPattern(), text)
  }

  // ----- Scanners -----

  predicate StartsWithWord(t: CharTable, u: string) { u != "" && t.word(u[0]) }

  /** Length of `n` dotted runs of one to three digits; 0 if `u` does not start with that. */
  function OctetsLen(t: CharTable, u: string, n: nat): (len: nat)
    requires n >= 1
    ensures len <= |u|
    decreases n
  {
    var r := Run(t, Digit, u);
    if !(1 <= r <= 3) then 0
    else if n == 1 then r
    else if r < |u| && u[r] == '.' then Behind(r + 1, OctetsLen(t, u[r + 1..], n - 1))
    else 0
  }

  predicate Second172(t: CharTable, c: char, d: char) {
    (c == '1' && '6' <= d <= '9') || (c == '2' && t.digit(d)) || (c == '3' && '0' <= d <= '1')
  }

  function Behind(skip: nat, len: nat): nat { if len > 0 then skip + len else 0 }

  /** A private address without the closing `\b`; `prev`: is the character before `u` a word character? */
  function IpBody(t: CharTable, prev: bool, u: string): (n: nat)
    ensures n <= |u|
  {
    if prev then 0
    else if "10." <= u then Behind(3, OctetsLen(t, u[3..], 3))
    else if "192.168." <= u then Behind(8, OctetsLen(t, u[8..], 2))
    else if "172." <= u && |u| >= 7 && Second172(t, u[4], u[5]) && u[6] == '.' then Behind(7, OctetsLen(t, u[7..], 2))
    else 0
  }

  function IpLen(t: CharTable, prev: bool, u: string): (n: nat)
    ensures n <= |u|
  {
    Closed(t, u, IpBody(t, prev, u))
  }

  /** `n`, unless a word character follows there. */
  function Closed(t: CharTable, u: string, n: nat): (m: nat)
    requires n <= |u|
    ensures m <= n
  {
    if StartsWithWord(t, u[n..]) then 0 else n
  }

  predicate ExemptWord(t: CharTable, w: string, u: string) { w <= u && !StartsWithWord(t, u[|w|..]) }

  predicate Exempt(t: CharTable, u: string) {
    ExemptWord(t, "ubuntu", u) || ExemptWord(t, "username", u) || ExemptWord(t, "runner", u)
  }

  function NameRun(t: CharTable, u: string): (n: nat)
    ensures n <= |u|
  {
    Run(t, NameSet(), u)
  }

  /** Length of a path below a Windows user directory at the start of `u`, or 0. */
  function DriveLen(t: CharTable, u: string): (n: nat)
    ensures n <= |u|
  {
    if u != "" && AsciiLetter(u[0]) && ":\\Users\\" <= u[1..] then Behind(9, NameRun(t, u[9..])) else 0
  }

  function HomeLen(t: CharTable, u: string): (n: nat)
    ensures n <= |u|
  {
    if "/home/" <= u && !Exempt(t, u[6..]) then Behind(6, NameRun(t, u[6..])) else 0
  }

  function UsersLen(t: CharTable, u: string): (n: nat)
    ensures n <= |u|
  {
    if "/Users/" <= u then Behind(7, NameRun(t, u[7..])) else 0
  }

  function PathLen(t: CharTable, u: string): (n: nat)
    ensures n <= |u|
  {
    if u == "" then 0
    else if u[0] != '/' then DriveLen(t, u)
    else if "/home/" <= u then HomeLen(t, u)
    else UsersLen(t, u)
  }

  function RedactIps(t: CharTable, prev: bool, u: string): string
    decreases |u|
  {
    if u == "" then ""
    else
      var n := IpLen(t, prev, u);
      if n > 0 then IP_MARK + RedactIps(t, t.word(u[n - 1]), u[n..])
      else [u[0]] + RedactIps(t, t.word(u[0]), u[1..])
  }

  function RedactPaths(t: CharTable, u: string): string
    decreases |u|
  {
    if u == "" then ""
    else
      var n := PathLen(t, u);
      if n > 0 then PATH_MARK + RedactPaths(t, u[n..])
      else [u[0]] + RedactPaths(t, u[1..])
  }

  // ----- The scanners agree with the patterns -----

  lemma RunDigits(t: CharTable, s: string, i: nat)
    requires i <= |s|
    ensures forall j :: i <= j < i + Run(t, Digit, s[i..]) ==> t.digit(s[j])
  {
    var u := s[i..];
    forall j | i <= j < i + Run(t, Digit, u) ensures t.digit(s[j]) {
      assert In(t, Digit, u[j - i]);
    }
  }

  lemma LastOctet(t: CharTable, s: string, i: nat)
    requires t.Valid() && i <= |s|
    ensures var r := Run(t, Digit, s[i..]);
      Ends(t, Cat(OctetsPattern(1), Boundary), s, i)
      == if 1 <= r <= 3 && !WordAt(t, s, i + r) then [i + r] else []
  {
    hide Ends, AllEnds, Run;
    var r := Run(t, Digit, s[i..]);
    RunDigits(t, s, i);
    forall e | i + 1 <= e <= i + r
      ensures Ends(t, Boundary, s, e) == if WordAt(t, s, e) then [] else [e]
    {
      BoundaryAlone(t, s, e);
      assert t.digit(s[e - 1]);
    }
    CatGreedy(t, Digit, 1, AtMost(3), Boundary, s, i);
  }

  lemma OctetThenDot(t: CharTable, s: string, i: nat, more: Regex)
    requires t.Valid() && i <= |s|
    ensures var r := Run(t, Digit, s[i..]);
      Ends(t, Cat(Cat(Greedy(Digit, 1, AtMost(3)), Lit(".", more)), Boundary), s, i)
      == if 1 <= r <= 3 && i + r < |s| && s[i + r] == '.' then Ends(t, Cat(more, Boundary), s, i + r + 1) else []
  {
    hide Ends, AllEnds, Lit, Run;
    var octet := Greedy(Digit, 1, AtMost(3));
    var rest := Cat(Lit(".", more), Boundary);
    var r := Run(t, Digit, s[i..]);
    RunDigits(t, s, i);
    CatAssoc(t, octet, Lit(".", more), Boundary, s, i);
    forall e | i + 1 <= e <= i + r
      ensures Ends(t, rest, s, e) == if e < |s| && s[e] == '.' then Ends(t, Cat(more, Boundary), s, e + 1) else []
    {
      DotThen(t, s, e, more);
    }
    CatGreedy(t, Digit, 1, AtMost(3), rest, s, i);
  }

  lemma DotThen(t: CharTable, s: string, e: nat, more: Regex)
    requires e <= |s|
    ensures Ends(t, Cat(Lit(".", more), Boundary), s, e)
         == if e < |s| && s[e] == '.' then Ends(t, Cat(more, Boundary), s, e + 1) else []
  {
    hide Ends, AllEnds, Lit;
    LitCat(t, ".", more, Boundary, s, e);
    assert "." <= s[e..] <==> e < |s| && s[e] == '.';
  }

  /** Where the octets end in `s` when the closing boundary holds there. */
  function OctetsEnds(t: CharTable, s: string, i: nat, n: nat): seq<nat>
    requires i <= |s| && n >= 1
  {
    var m := OctetsLen(t, s[i..], n);
    if m > 0 && !WordAt(t, s, i + m) then [i + m] else []
  }

  lemma OneOctetEnds(t: CharTable, s: string, i: nat)
    requires i <= |s|
    ensures var r := Run(t, Digit, s[i..]);
      OctetsEnds(t, s, i, 1) == if 1 <= r <= 3 && !WordAt(t, s, i + r) then [i + r] else []
  {
    hide Run;
  }

  lemma OctetsUnfolds(t: CharTable, u: string, n: nat)
    requires n >= 2
    ensures var r := Run(t, Digit, u);
      OctetsLen(t, u, n) ==
        if 1 <= r <= 3 && r < |u| && u[r] == '.' then Behind(r + 1, OctetsLen(t, u[r + 1..], n - 1)) else 0
  {
    hide Run, Behind;
  }

  lemma OctetsEndsStep(t: CharTable, s: string, i: nat, n: nat)
    requires i <= |s| && n >= 2
    ensures var r := Run(t, Digit, s[i..]);
      OctetsEnds(t, s, i, n)
      == if 1 <= r <= 3 && i + r < |s| && s[i + r] == '.' then OctetsEnds(t, s, i + r + 1, n - 1) else []
  {
    hide Run, OctetsLen, WordAt;
    OctetsUnfolds(t, s[i..], n);
    var r := Run(t, Digit, s[i..]);
    if i + r < |s| {
      assert s[i..][r + 1..] == s[i + r + 1..];
    }
  }

  lemma {:induction false} OctetsAgree(t: CharTable, s: string, i: nat, n: nat)
    requires t.Valid() && i <= |s| && n >= 1
    ensures Ends(t, Cat(OctetsPattern(n), Boundary), s, i) == OctetsEnds(t, s, i, n)
    decreases n
  {
    hide Ends, AllEnds, Run, Lit, OctetsEnds;
    if n == 1 {
      LastOctet(t, s, i);
      OneOctetEnds(t, s, i);
    } else {
      OctetThenDot(t, s, i, OctetsPattern(n - 1));
      OctetsEndsStep(t, s, i, n);
      var r := Run(t, Digit, s[i..]);
      if 1 <= r <= 3 && i + r < |s| && s[i + r] == '.' {
        OctetsAgree(t, s, i + r + 1, n - 1);
      }
    }
  }

  lemma PrefixedOctets(t: CharTable, text: string, n: nat, s: string, i: nat)
    requires t.Valid() && i <= |s| && n >= 1
    ensures Ends(t, Cat(Lit(text, OctetsPattern(n)), Boundary), s, i)
         == if text <= s[i..] then OctetsEnds(t, s, i + |text|, n) else []
  {
    hide *;
    LitCat(t, text, OctetsPattern(n), Boundary, s, i);
    if text <= s[i..] { OctetsAgree(t, s, i + |text|, n); }
  }

  lemma TwoChars(t: CharTable, a: CharSet, b: CharSet, rest: Regex, s: string, i: nat)
    requires i <= |s|
    ensures Ends(t, Cat(Cat(Chars(a), Chars(b)), rest), s, i)
         == if i + 1 < |s| && In(t, a, s[i]) && In(t, b, s[i + 1]) then Ends(t, rest, s, i + 2) else []
  {
    CatAssoc(t, Chars(a), Chars(b), rest, s, i);
    CatChar(t, a, Cat(Chars(b), rest), s, i);
    if i < |s| { CatChar(t, b, rest, s, i + 1); }
  }

  lemma SecondOctet172Agrees(t: CharTable, rest: Regex, s: string, i: nat)
    requires i <= |s|
    ensures Ends(t, Cat(SecondOctet172(), rest), s, i)
         == if i + 1 < |s| && Second172(t, s[i], s[i + 1]) then Ends(t, rest, s, i + 2) else []
  {
    var one := Cat(Chars(One('1')), Chars(Range('6', '9')));
    var two := Cat(Chars(One('2')), Chars(Digit));
    var three := Cat(Chars(One('3')), Chars(Range('0', '1')));
    CatOr(t, one, Or(two, three), rest, s, i);
    CatOr(t, two, three, rest, s, i);
    TwoChars(t, One('1'), Range('6', '9'), rest, s, i);
    TwoChars(t, One('2'), Digit, rest, s, i);
    TwoChars(t, One('3'), Range('0', '1'), rest, s, i);
  }

  lemma Prefixed172(t: CharTable, s: string, i: nat)
    requires t.Valid() && i <= |s|
    ensures Ends(t, Cat(Lit("172.", Cat(SecondOctet172(), Lit(".", OctetsPattern(2)))), Boundary), s, i)
         == if "172." <= s[i..] && i + 6 < |s| && Second172(t, s[i + 4], s[i + 5]) && s[i + 6] == '.'
            then OctetsEnds(t, s, i + 7, 2) else []
  {
    var tail := Lit(".", OctetsPattern(2));
    LitCat(t, "172.", Cat(SecondOctet172(), tail), Boundary, s, i);
    if "172." <= s[i..] {
      CatAssoc(t, SecondOctet172(), tail, Boundary, s, i + 4);
      SecondOctet172Agrees(t, Cat(tail, Boundary), s, i + 4);
      if i + 6 <= |s| {
        DotThen(t, s, i + 6, OctetsPattern(2));
        if i + 6 < |s| { OctetsAgree(t, s, i + 7, 2); }
      }
    }
  }

  /** Where the scanner says the address at `i` ends, as a list. */
  function IpEnds(t: CharTable, s: string, i: nat): seq<nat>
    requires i <= |s|
  {
    EndList(i, IpLen(t, WordAt(t, s, i - 1), s[i..]))
  }

  function EndList(i: nat, n: nat): seq<nat> { if n > 0 then [i + n] else [] }

  lemma SuffixOctets(t: CharTable, s: string, i: nat, skip: nat, n: nat)
    requires n >= 1 && i + skip <= |s| && skip > 0
    ensures OctetsEnds(t, s, i + skip, n)
         == EndList(i, Closed(t, s[i..], Behind(skip, OctetsLen(t, s[i..][skip..], n))))
  {
    assert s[i..][skip..] == s[i + skip..];
    var m := Behind(skip, OctetsLen(t, s[i..][skip..], n));
    assert s[i..][m..] == s[i + m..];
  }

  // ----- The three alternatives of the address pattern -----

  predicate Ten(u: string) { "10." <= u }

  predicate OneNineTwo(u: string) { "192.168." <= u }

  predicate OneSevenTwo(t: CharTable, u: string) {
    "172." <= u && |u| >= 7 && Second172(t, u[4], u[5]) && u[6] == '.'
  }

  /** Where an address without the opening boundary ends at `i`. */
  function Alternatives(t: CharTable, s: string, i: nat): seq<nat>
    requires i <= |s|
  {
    var u := s[i..];
    if Ten(u) then OctetsEnds(t, s, i + 3, 3)
    else if OneNineTwo(u) then OctetsEnds(t, s, i + 8, 2)
    else if OneSevenTwo(t, u) then OctetsEnds(t, s, i + 7, 2)
    else []
  }

  lemma PrefixesExclude(u: string)
    ensures "10." <= u ==> !("192.168." <= u) && !("172." <= u)
    ensures "192.168." <= u ==> !("172." <= u)
    ensures "10." <= u || "192.168." <= u || "172." <= u ==> u[0] == '1'
  {
    if "10." <= u { assert u[0] == '1' && u[1] == '0'; }
    if "192.168." <= u { assert u[0] == '1' && u[1] == '9'; }
    if "172." <= u { assert u[0] == '1' && u[1] == '7'; }
  }

  lemma IpPatternIs()
    ensures IpPattern() == Cat(Boundary, Cat(Or(Lit("10.", OctetsPattern(3)),
      Or(Lit("192.168.", OctetsPattern(2)), Lit("172.", Cat(SecondOctet172(), Lit(".", OctetsPattern(2)))))), Boundary))
  {
    hide Lit, OctetsPattern, SecondOctet172;
  }

  lemma TenEnds(t: CharTable, s: string, i: nat)
    requires t.Valid() && i <= |s|
    ensures Ends(t, Cat(Lit("10.", OctetsPattern(3)), Boundary), s, i)
         == if Ten(s[i..]) then OctetsEnds(t, s, i + 3, 3) else []
  {
    hide Ends, AllEnds, OctetsEnds, Lit, OctetsPattern;
    PrefixedOctets(t, "10.", 3, s, i);
  }

  lemma OneNineTwoEnds(t: CharTable, s: string, i: nat)
    requires t.Valid() && i <= |s|
    ensures Ends(t, Cat(Lit("192.168.", OctetsPattern(2)), Boundary), s, i)
         == if OneNineTwo(s[i..]) then OctetsEnds(t, s, i + 8, 2) else []
  {
    hide Ends, AllEnds, OctetsEnds, Lit, OctetsPattern;
    PrefixedOctets(t, "192.168.", 2, s, i);
  }

  lemma OneSevenTwoEnds(t: CharTable, s: string, i: nat)
    requires t.Valid() && i <= |s|
    ensures Ends(t, Cat(Lit("172.", Cat(SecondOctet172(), Lit(".", OctetsPattern(2)))), Boundary), s, i)
         == if OneSevenTwo(t, s[i..]) then OctetsEnds(t, s, i + 7, 2) else []
  {
    hide Ends, AllEnds, OctetsEnds, Lit, OctetsPattern, SecondOctet172, Second172;
    Prefixed172(t, s, i);
  }

  lemma OneAtMost(t: CharTable, u: string)
    ensures !(Ten(u) && OneNineTwo(u)) && !(Ten(u) && OneSevenTwo(t, u)) && !(OneNineTwo(u) && OneSevenTwo(t, u))
  {
    PrefixesExclude(u);
    hide Second172;
  }

  lemma AlternativesEnd(t: CharTable, s: string, i: nat)
    requires t.Valid() && i <= |s|
    ensures Alternatives(t, s, i) ==
      Ends(t, Cat(Lit("10.", OctetsPattern(3)), Boundary), s, i)
      + (Ends(t, Cat(Lit("192.168.", OctetsPattern(2)), Boundary), s, i)
         + Ends(t, Cat(Lit("172.", Cat(SecondOctet172(), Lit(".", OctetsPattern(2)))), Boundary), s, i))
  {
    hide Ends, AllEnds, OctetsEnds, Lit, OctetsPattern, SecondOctet172, Ten, OneNineTwo, OneSevenTwo;
    OneAtMost(t, s[i..]);
    TenEnds(t, s, i);
    OneNineTwoEnds(t, s, i);
    OneSevenTwoEnds(t, s, i);
  }

  lemma AlternativesAgree(t: CharTable, s: string, i: nat)
    requires t.Valid() && i <= |s|
    ensures Ends(t, IpPattern(), s, i) == if AtBoundary(t, s, i) then Alternatives(t, s, i) else []
  {
    IpPatternIs();
    hide *;
    var a := Lit("10.", OctetsPattern(3));
    var b := Lit("192.168.", OctetsPattern(2));
    var c := Lit("172.", Cat(SecondOctet172(), Lit(".", OctetsPattern(2))));
    CatBoundary(t, Cat(Or(a, Or(b, c)), Boundary), s, i);
    CatOr(t, a, Or(b, c), Boundary, s, i);
    CatOr(t, b, c, Boundary, s, i);
    AlternativesEnd(t, s, i);
  }

  lemma AlternativesScan(t: CharTable, s: string, i: nat)
    requires t.Valid() && i <= |s|
    ensures (if AtBoundary(t, s, i) then Alternatives(t, s, i) else []) == IpEnds(t, s, i)
  {
    hide OctetsEnds, OctetsLen, Second172, Closed, Behind;
    var u := s[i..];
    PrefixesExclude(u);
    if "10." <= u {
      SuffixOctets(t, s, i, 3, 3);
    } else if "192.168." <= u {
      SuffixOctets(t, s, i, 8, 2);
    } else if "172." <= u && |u| >= 7 {
      SuffixOctets(t, s, i, 7, 2);
    }
    ClosedZero(t, u);
  }

  lemma ClosedZero(t: CharTable, u: string)
    ensures Closed(t, u, 0) == 0
  {
  }

  /** The address pattern matches at `i` iff the scanner finds an address there, with the same end. */
  lemma IpAgrees(t: CharTable, s: string, i: nat)
    requires t.Valid() && i <= |s|
    ensures Ends(t, IpPattern(), s, i) == IpEnds(t, s, i)
  {
    hide *;
    AlternativesAgree(t, s, i);
    AlternativesScan(t, s, i);
  }

  /** An exempt word followed by a boundary is the word followed by no word character. */
  lemma WordThenBoundary(t: CharTable, w: string, s: string, i: nat)
    requires t.Valid() && i <= |s|
    requires w != "" && t.word(w[|w| - 1])
    ensures Ends(t, Cat(Lit(w, Empty), Boundary), s, i) != [] <==> ExemptWord(t, w, s[i..])
  {
    hide Ends, AllEnds, Lit;
    LitCat(t, w, Empty, Boundary, s, i);
    if w <= s[i..] {
      BoundaryAlone(t, s, i + |w|);
      CatEmpty(t, Boundary, s, i + |w|);
      assert s[i + |w| - 1] == s[i..][|w| - 1] == w[|w| - 1];
      assert s[i..][|w|..] == s[i + |w|..];
    }
  }

  lemma ExemptAgrees(t: CharTable, s: string, i: nat)
    requires t.Valid() && i <= |s|
    ensures Ends(t, ExemptPattern(), s, i) != [] <==> Exempt(t, s[i..])
  {
    hide Ends, AllEnds, Lit, ExemptWord;
    CatOr(t, Lit("ubuntu", Empty), Or(Lit("username", Empty), Lit("runner", Empty)), Boundary, s, i);
    CatOr(t, Lit("username", Empty), Lit("runner", Empty), Boundary, s, i);
    WordThenBoundary(t, "ubuntu", s, i);
    WordThenBoundary(t, "username", s, i);
    WordThenBoundary(t, "runner", s, i);
  }

  /** `es` is empty when `n` is 0, and otherwise first reports the end `i + n`. */
  predicate Reports(es: seq<nat>, i: nat, n: nat) {
    if n == 0 then es == [] else es != [] && es[0] == i + n
  }

  lemma NameAgrees(t: CharTable, s: string, i: nat, skip: nat)
    requires i + skip <= |s|
    ensures Reports(Ends(t, NamePattern(), s, i + skip), i, Behind(skip, NameRun(t, s[i..][skip..])))
  {
    hide In, Run, GreedyEnds, NameSet;
    assert s[i..][skip..] == s[i + skip..];
    UnboundedRun(t, NameSet(), 1, s, i + skip);
  }

  lemma HomeAgrees(t: CharTable, s: string, i: nat)
    requires t.Valid() && i <= |s|
    ensures Reports(Ends(t, Lit("/home/", Cat(NotAhead(ExemptPattern()), NamePattern())), s, i), i, HomeLen(t, s[i..]))
  {
    hide Ends, AllEnds, Lit, Exempt, ExemptPattern, NamePattern, NameRun, Behind;
    CatLit(t, "/home/", Cat(NotAhead(ExemptPattern()), NamePattern()), s, i);
    if "/home/" <= s[i..] {
      CatNotAhead(t, ExemptPattern(), NamePattern(), s, i + 6);
      ExemptAgrees(t, s, i + 6);
      assert s[i..][6..] == s[i + 6..];
      NameAgrees(t, s, i, 6);
    }
  }

  lemma UsersAgrees(t: CharTable, s: string, i: nat)
    requires i <= |s|
    ensures Reports(Ends(t, Lit("/Users/", NamePattern()), s, i), i, UsersLen(t, s[i..]))
  {
    hide Ends, AllEnds, Lit, NamePattern, NameRun, Behind;
    CatLit(t, "/Users/", NamePattern(), s, i);
    if "/Users/" <= s[i..] { NameAgrees(t, s, i, 7); }
  }

  lemma DriveAgrees(t: CharTable, s: string, i: nat)
    requires i <= |s|
    ensures Reports(Ends(t, Cat(Chars(LetterSet()), Lit(":\\Users\\", NamePattern())), s, i), i, DriveLen(t, s[i..]))
  {
    hide Ends, AllEnds, Lit, NamePattern, NameRun, Behind;
    CatChar(t, LetterSet(), Lit(":\\Users\\", NamePattern()), s, i);
    if i < |s| && AsciiLetter(s[i]) {
      CatLit(t, ":\\Users\\", NamePattern(), s, i + 1);
      assert s[i..][1..] == s[i + 1..];
      if ":\\Users\\" <= s[i + 1..] { NameAgrees(t, s, i, 9); }
    }
  }

  lemma PathCases(t: CharTable, u: string)
    ensures u == "" || u[0] != '/' ==> HomeLen(t, u) == UsersLen(t, u) == 0 && PathLen(t, u) == DriveLen(t, u)
    ensures u != "" && u[0] == '/' ==> DriveLen(t, u) == 0
    ensures "/home/" <= u ==> UsersLen(t, u) == DriveLen(t, u) == 0 && PathLen(t, u) == HomeLen(t, u)
    ensures u != "" && u[0] == '/' && !("/home/" <= u) ==> HomeLen(t, u) == 0 && PathLen(t, u) == UsersLen(t, u)
  {
    hide NameRun, Behind, Exempt;
    if "/home/" <= u { assert u[0] == '/' && u[1] == 'h'; }
    if "/Users/" <= u { assert u[0] == '/' && u[1] == 'U'; }
  }

  lemma ReportsOr(a: seq<nat>, b: seq<nat>, i: nat, n: nat)
    ensures b == [] ==> Reports(a + b, i, n) == Reports(a, i, n)
    ensures a == [] ==> Reports(a + b, i, n) == Reports(b, i, n)
  {
    if b == [] { assert a + b == a; }
    if a == [] { assert a + b == b; }
  }

  /** The path pattern matches at `i` iff the scanner finds a path there, with the same end. */
  lemma PathAgrees(t: CharTable, s: string, i: nat)
    requires t.Valid() && i <= |s|
    ensures Reports(Ends(t, PathPattern(), s, i), i, PathLen(t, s[i..]))
  {
    hide Ends, HomeLen, UsersLen, DriveLen, PathLen, Lit, LetterSet, NamePattern, ExemptPattern;
    var home := Lit("/home/", Cat(NotAhead(ExemptPattern()), NamePattern()));
    var users := Lit("/Users/", NamePattern());
    var drive := Cat(Chars(LetterSet()), Lit(":\\Users\\", NamePattern()));
    OrEnds(t, home, Or(users, drive), s, i);
    OrEnds(t, users, drive, s, i);
    PathCases(t, s[i..]);
    HomeAgrees(t, s, i);
    UsersAgrees(t, s, i);
    DriveAgrees(t, s, i);
    var n := PathLen(t, s[i..]);
    ReportsOr(Ends(t, users, s, i), Ends(t, drive, s, i), i, n);
    ReportsOr(Ends(t, home, s, i), Ends(t, Or(users, drive), s, i), i, n);
  }

  // ----- The passes as scans -----

  lemma IpHit(t: CharTable, s: string, i: nat)
    requires t.Valid() && i <= |s|
    ensures HitEnd(t, IpPattern(), s, i) == i + IpLen(t, WordAt(t, s, i - 1), s[i..])
  {
    hide Ends, IpPattern, IpLen;
    IpAgrees(t, s, i);
  }

  lemma PathHit(t: CharTable, s: string, i: nat)
    requires t.Valid() && i <= |s|
    ensures HitEnd(t, PathPattern(), s, i) == i + PathLen(t, s[i..])
  {
    hide Ends, PathPattern, PathLen;
    PathAgrees(t, s, i);
  }

  lemma RedactIpsStep(t: CharTable, prev: bool, u: string)
    requires u != ""
    ensures var n := IpLen(t, prev, u);
      RedactIps(t, prev, u) ==
        if n > 0 then IP_MARK + RedactIps(t, t.word(u[n - 1]), u[n..]) else [u[0]] + RedactIps(t, t.word(u[0]), u[1..])
  {
    hide IpLen, IP_MARK;
  }

  lemma {:induction false} FirstPassScans(t: CharTable, s: string, pos: nat)
    requires t.Valid() && pos <= |s|
    ensures Sub(t, IpPattern(), IP_MARK, s, pos) == RedactIps(t, WordAt(t, s, pos - 1), s[pos..])
    decreases |s| - pos
  {
    hide *;
    SubStep(t, IpPattern(), IP_MARK, s, pos);
    if pos == |s| {
      NothingRedacted(t, WordAt(t, s, pos - 1));
      assert s[pos..] == "";
    } else {
      var prev, u := WordAt(t, s, pos - 1), s[pos..];
      IpHit(t, s, pos);
      RedactIpsStep(t, prev, u);
      var n := IpLen(t, prev, u);
      if n > 0 {
        FirstPassScans(t, s, pos + n);
        WordAtIn(t, s, pos, n - 1);
        assert u[n..] == s[pos + n..];
      } else {
        FirstPassScans(t, s, pos + 1);
        WordAtIn(t, s, pos, 0);
        assert u[1..] == s[pos + 1..];
      }
    }
  }

  lemma WordAtIn(t: CharTable, s: string, pos: nat, k: nat)
    requires pos + k < |s|
    ensures WordAt(t, s, pos + k) == t.word(s[pos..][k])
  {
  }

  lemma NothingRedacted(t: CharTable, prev: bool)
    ensures RedactIps(t, prev, "") == ""
  {
  }

  lemma {:induction false} SecondPassScans(t: CharTable, s: string, pos: nat)
    requires t.Valid() && pos <= |s|
    ensures Sub(t, PathPattern(), PATH_MARK, s, pos) == RedactPaths(t, s[pos..])
    decreases |s| - pos
  {
    hide HitEnd, PathPattern, PathLen;
    if pos < |s| {
      var u := s[pos..];
      PathHit(t, s, pos);
      var n := PathLen(t, u);
      if n > 0 {
        SecondPassScans(t, s, pos + n);
        assert u[n..] == s[pos + n..];
      } else {
        SecondPassScans(t, s, pos + 1);
        assert u[1..] == s[pos + 1..];
      }
    }
  }
}
