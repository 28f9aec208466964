/**
 The exact condition under which the second pass undoes the privacy guarantee, and what follows
 for `sanitize_privacy` as a whole.
 */
module SecondPass {
  import opened Regex
  import opened Sanitizer
  import opened SanitizerSafety

  // ----- The two ways a Windows user path can be glued to what stands before it -----

  /** A private address whose last digit touches the drive letter of a Windows user path. */
  predicate GluedAddress(t: CharTable, prev: bool, u: string) {
    var n := IpBody(t, prev, u);
    n > 0 && DriveLen(t, u[n..]) > 0
  }

  /** The last letter of `w` is at the same time the drive letter of a Windows user path. */
  predicate CutWord(t: CharTable, w: string, u: string)
    requires w != ""
  {
    w <= u && DriveLen(t, u[|w| - 1..]) > 0
  }

  /** An exempt home directory whose last letter is taken for a drive letter. */
  predicate CutHome(t: CharTable, u: string) {
    "/home/" <= u
    && (CutWord(t, "ubuntu", u[6..]) || CutWord(t, "username", u[6..]) || CutWord(t, "runner", u[6..]))
  }

  /** Some position the second pass copies starts one of the two glued shapes. */
  predicate Exposed(t: CharTable, prev: bool, u: string)
    decreases |u|
  {
    if u == "" then false
    else
      var n := PathLen(t, u);
      if n > 0 then Exposed(t, t.word(u[n - 1]), u[n..])
      else GluedAddress(t, prev, u) || CutHome(t, u) || Exposed(t, t.word(u[0]), u[1..])
  }

  // ----- Shape of a path -----

  predicate NameChar(c: char) { AsciiWord(c) || c == '-' }

  lemma NameSetIs(t: CharTable, c: char)
    ensures In(t, NameSet(), c) <==> NameChar(c)
  {
    var special := Either(One('_'), One('-'));
    var digits := Either(Range('0', '9'), special);
    var upper := Either(Range('A', 'Z'), digits);
    assert In(t, special, c) <==> c == '_' || c == '-';
    assert In(t, digits, c) <==> '0' <= c <= '9' || In(t, special, c);
    assert In(t, upper, c) <==> 'A' <= c <= 'Z' || In(t, digits, c);
  }

  lemma NameRunIs(t: CharTable, u: string)
    ensures forall k :: 0 <= k < NameRun(t, u) ==> NameChar(u[k])
    ensures NameRun(t, u) < |u| ==> !NameChar(u[NameRun(t, u)])
  {
    var n := NameRun(t, u);
    forall k | 0 <= k < n ensures NameChar(u[k]) { NameSetIs(t, u[k]); }
    if n < |u| { NameSetIs(t, u[n]); }
  }

  /** A removed path takes the whole name, so the text after it does not start with a name character. */
  lemma PathStops(t: CharTable, u: string)
    requires PathLen(t, u) > 0
    ensures var n := PathLen(t, u); n < |u| ==> !NameChar(u[n])
  {
    hide NameRun;
    if "/home/" <= u { NameRunIs(t, u[6..]); }
    if "/Users/" <= u { NameRunIs(t, u[7..]); }
    if |u| >= 9 { NameRunIs(t, u[9..]); }
  }

  /** A path starts with a slash, or with a drive letter and a colon. */
  lemma PathHead(t: CharTable, u: string)
    requires PathLen(t, u) > 0
    ensures u[0] == '/' || (AsciiLetter(u[0]) && |u| > 1 && u[1] == ':' && DriveLen(t, u) == PathLen(t, u))
  {
    if u[0] != '/' { assert ":\\Users\\"[0] == u[1..][0]; }
  }

  lemma {:induction false} IpFreeSuffix(t: CharTable, prev: bool, u: string, n: nat)
    requires n <= |u| && IpFree(t, prev, u)
    ensures IpFree(t, LastWord(t, prev, u[..n]), u[n..])
    decreases n
  {
    hide IpLen;
    if n == 0 {
      assert u[0..] == u;
    } else {
      IpFreeSuffix(t, t.word(u[0]), u[1..], n - 1);
      LastWordStep(t, prev, u, n);
    }
  }

  // ----- What the second pass makes of one copied position -----

  /** What the second pass writes after copied text either is the same character or a bracket. */
  lemma NextChar(t: CharTable, u: string)
    requires u != ""
    ensures RedactPaths(t, u) != ""
    ensures RedactPaths(t, u)[0] == if PathLen(t, u) > 0 then '[' else u[0]
  {
    assert PATH_MARK[0] == '[';
  }

  lemma CopyOne(t: CharTable, u: string)
    requires u != "" && PathLen(t, u) == 0
    ensures RedactPaths(t, u) == [u[0]] + RedactPaths(t, u[1..])
  {
  }

  lemma {:induction false} CopyRun(t: CharTable, u: string, n: nat)
    requires n <= |u|
    requires forall k :: 0 <= k < n ==> PathLen(t, u[k..]) == 0
    ensures RedactPaths(t, u) == u[..n] + RedactPaths(t, u[n..])
    decreases n
  {
    hide PathLen, RedactPaths;
    assert u[0..] == u;
    if n > 0 {
      CopyOne(t, u);
      forall k | 0 <= k < n - 1 ensures PathLen(t, u[1..][k..]) == 0 { assert u[1..][k..] == u[k + 1..]; }
      CopyRun(t, u[1..], n - 1);
      assert u[1..][n - 1..] == u[n..];
      assert u[..n] == [u[0]] + u[1..][..n - 1];
    }
  }

  /** An address appears at a copied position iff a Windows user path was glued to it. */
  lemma AddressAppears(t: CharTable, prev: bool, u: string)
    requires t.Valid() && u != "" && PathLen(t, u) == 0 && IpLen(t, prev, u) == 0
    ensures IpLen(t, prev, RedactPaths(t, u)) > 0 <==> GluedAddress(t, prev, u)
  {
    hide IpBody, PathLen, DriveLen;
    var out := RedactPaths(t, u);
    if IpLen(t, prev, out) > 0 { AddressAppearsOnlyGlued(t, prev, u); }
    if GluedAddress(t, prev, u) { GluedAddressAppears(t, prev, u); }
  }

  lemma AddressAppearsOnlyGlued(t: CharTable, prev: bool, u: string)
    requires t.Valid() && IpLen(t, prev, u) == 0 && IpLen(t, prev, RedactPaths(t, u)) > 0
    ensures GluedAddress(t, prev, u)
  {
    hide IpBody, PathLen, DriveLen, RedactPaths;
    var out := RedactPaths(t, u);
    var n := IpLen(t, prev, out);
    BodyShape(t, prev, out);
    assert '[' !in out[..n];
    SecondPassCopies(t, u, n);
    if n < |u| {
      NextChar(t, u[n..]);
      assert u[n..][0] == u[n];
      assert out[n..][0] == out[n];
      if PathLen(t, u[n..]) > 0 { PathHead(t, u[n..]); }
    }
    BodyLocal(t, prev, out, u);
  }

  lemma GluedAddressAppears(t: CharTable, prev: bool, u: string)
    requires t.Valid() && GluedAddress(t, prev, u)
    ensures IpLen(t, prev, RedactPaths(t, u)) > 0
  {
    hide IpBody, RedactPaths;
    var n := IpBody(t, prev, u);
    BodyShape(t, prev, u);
    forall k | 0 <= k < n ensures PathLen(t, u[k..]) == 0 {
      assert Dotted(t, u[k]) && u[k..][0] == u[k];
      if k + 1 < n { assert Dotted(t, u[k + 1]); }
      NoPathAt(t, u[k..]);
    }
    CopyRun(t, u, n);
    NextChar(t, u[n..]);
    var out := RedactPaths(t, u);
    assert out[n..] == RedactPaths(t, u[n..]);
    assert out[..n] == u[..n];
    assert out[n] == out[n..][0];
    BodyLocal(t, prev, u, out);
  }

  lemma NoPathAt(t: CharTable, u: string)
    requires u != "" && u[0] != '/' && !AsciiLetter(u[0])
    ensures PathLen(t, u) == 0
  {
  }

  lemma NameRunPositive(t: CharTable, u: string)
    ensures NameRun(t, u) > 0 <==> u != "" && NameChar(u[0])
  {
    if u != "" { NameSetIs(t, u[0]); }
  }

  /** Enough of a path for the scanner to see it: the fixed part and one name character. */
  lemma PathSeen(t: CharTable, u: string)
    ensures DriveShape(u) ==> PathLen(t, u) > 0
    ensures UsersShape(u) ==> PathLen(t, u) > 0
    ensures |u| > 6 && u[..6] == "/home/" && NameChar(u[6]) && !Exempt(t, u[6..]) ==> PathLen(t, u) > 0
  {
    hide NameRun, Exempt;
    if |u| > 9 { NameRunPositive(t, u[9..]); assert u[1..9] == u[1..][..8]; }
    if |u| > 7 { NameRunPositive(t, u[7..]); if u[..7] == "/Users/" { assert u[0] == '/' && u[1] == 'U'; } }
    if |u| > 6 { NameRunPositive(t, u[6..]); if u[..6] == "/home/" { assert u[0] == '/'; } }
  }

  lemma PathParts(t: CharTable, u: string)
    requires PathLen(t, u) > 0
    ensures || DriveShape(u)
            || UsersShape(u)
            || (|u| > 6 && u[..6] == "/home/" && !Exempt(t, u[6..]) && NameRun(t, u[6..]) > 0)
  {
    hide NameRun, Exempt;
    if |u| >= 9 { NameRunPositive(t, u[9..]); assert u[1..9] == u[1..][..8]; }
    if |u| >= 7 { NameRunPositive(t, u[7..]); }
  }

  lemma NoBracket(x: string, n: nat)
    requires n <= |x| && forall k :: 0 <= k < n ==> x[k] != '['
    ensures '[' !in x[..n]
  {
  }

  predicate DriveShape(u: string) {
    |u| > 9 && AsciiLetter(u[0]) && u[1..9] == ":\\Users\\" && NameChar(u[9])
  }

  predicate UsersShape(u: string) { |u| > 7 && u[..7] == "/Users/" && NameChar(u[7]) }

  lemma DriveWasThere(t: CharTable, u: string)
    requires DriveShape(RedactPaths(t, u))
    ensures DriveShape(u)
  {
    hide RedactPaths;
    var out := RedactPaths(t, u);
    forall k | 0 <= k < 10 ensures out[k] != '[' { if 1 <= k < 9 { assert out[k] == out[1..9][k - 1]; } }
    NoBracket(out, 10);
    SecondPassCopies(t, u, 10);
    assert u[1..9] == u[..10][1..9] == out[..10][1..9] == out[1..9];
    assert u[0] == u[..10][0] && u[9] == u[..10][9];
  }

  lemma UsersWasThere(t: CharTable, u: string)
    requires UsersShape(RedactPaths(t, u))
    ensures UsersShape(u)
  {
    hide RedactPaths;
    var out := RedactPaths(t, u);
    forall k | 0 <= k < 8 ensures out[k] != '[' { if k < 7 { assert out[k] == out[..7][k]; } }
    NoBracket(out, 8);
    SecondPassCopies(t, u, 8);
    assert u[..7] == u[..8][..7] == out[..8][..7] == out[..7];
    assert u[7] == u[..8][7];
  }

  /** A Windows or macOS path in the output was already there, so it would have been removed. */
  lemma OnlyHomeAppears(t: CharTable, u: string)
    requires PathLen(t, u) == 0
    requires PathLen(t, RedactPaths(t, u)) > 0
    ensures var out := RedactPaths(t, u);
      |out| > 6 && out[..6] == "/home/" && !Exempt(t, out[6..]) && NameRun(t, out[6..]) > 0
  {
    hide RedactPaths, NameRun, Exempt, PathLen;
    var out := RedactPaths(t, u);
    PathParts(t, out);
    PathSeen(t, u);
    if DriveShape(out) { DriveWasThere(t, u); }
    if UsersShape(out) { UsersWasThere(t, u); }
  }

  predicate Lettered(w: string) { |w| >= 2 && forall k :: 0 <= k < |w| ==> AsciiLetter(w[k]) }

  /** An exempt word that was copied together with the character after it is still exempt. */
  lemma CopiedWordStaysExempt(t: CharTable, w: string, x: string, y: string, m: nat)
    requires t.Valid() && ExemptWord(t, w, x)
    requires |w| <= m <= |x| && m <= |y| && x[..m] == y[..m]
    requires y[m..] == RedactPaths(t, x[m..])
    ensures ExemptWord(t, w, y)
  {
    hide RedactPaths, PathLen;
    var l := |w|;
    SuffixLocal(x, y, 0, m);
    assert w == x[..l] == x[..m][..l] == y[..m][..l] == y[..l];
    if m < |x| { NextChar(t, x[m..]); assert x[m..][0] == x[m] && y[m..][0] == y[m]; }
    if m == |x| { EmptyStaysEmpty(t); assert x[m..] == ""; }
    if l < |y| { assert y[l..][0] == y[l]; if l < |x| { assert x[l..][0] == x[l]; } }
  }

  lemma EmptyStaysEmpty(t: CharTable)
    ensures RedactPaths(t, "") == ""
  {
  }

  /** If `x` is exempt and what the pass makes of it is not, the last letter of the word was taken. */
  lemma WordWasCut(t: CharTable, w: string, x: string, y: string)
    requires t.Valid() && Lettered(w)
    requires ExemptWord(t, w, x) && !ExemptWord(t, w, y)
    requires NameRun(t, y) <= |x| && x[..NameRun(t, y)] == y[..NameRun(t, y)]
    requires y[NameRun(t, y)..] == RedactPaths(t, x[NameRun(t, y)..])
    ensures CutWord(t, w, x)
  {
    hide RedactPaths, NameRun, DriveLen, PathLen;
    var m := NameRun(t, y);
    NameRunIs(t, y);
    SuffixLocal(x, y, 0, m);
    if m >= |w| { CopiedWordStaysExempt(t, w, x, y, m); }
    assert m < |w|;
    NextChar(t, x[m..]);
    assert y[m] == y[m..][0] && x[m] == x[m..][0];
    assert x[m] == w[m];
    PathHead(t, x[m..]);
    assert x[m..][1] == x[m + 1];
  }

  lemma ExemptWords()
    ensures Lettered("ubuntu") && Lettered("username") && Lettered("runner")
  {
  }

  lemma PathAppearsOnlyCut(t: CharTable, u: string)
    requires t.Valid() && PathLen(t, u) == 0
    requires PathLen(t, RedactPaths(t, u)) > 0
    ensures CutHome(t, u)
  {
    hide RedactPaths, NameRun, CutWord, PathLen, ExemptWord;
    var out := RedactPaths(t, u);
    OnlyHomeAppears(t, u);
    var y := out[6..];
    var m := NameRun(t, y);
    NameRunIs(t, y);
    forall k | 0 <= k < 6 + m ensures out[k] != '[' {
      if k < 6 { assert out[k] == out[..6][k]; } else { assert out[k] == y[k - 6]; }
    }
    NoBracket(out, 6 + m);
    SecondPassCopies(t, u, 6 + m);
    var x := u[6..];
    assert u[..6] == u[..6 + m][..6] == out[..6 + m][..6] == out[..6];
    assert x[..m] == u[..6 + m][6..] == out[..6 + m][6..] == y[..m];
    assert y[m..] == out[6 + m..] && x[m..] == u[6 + m..];
    PathSeen(t, u);
    assert u[6] == x[0] == x[..m][0] == y[0];
    assert Exempt(t, x);
    ExemptWords();
    if ExemptWord(t, "ubuntu", x) {
      WordWasCut(t, "ubuntu", x, y);
    } else if ExemptWord(t, "username", x) {
      WordWasCut(t, "username", x, y);
    } else {
      WordWasCut(t, "runner", x, y);
    }
  }

  /** Between the slash of an exempt home directory and the last letter of its word no path starts. */
  lemma NoPathInside(t: CharTable, w: string, u: string, k: nat)
    requires Lettered(w) && w[0] != 'h' && w[0] != 'U'
    requires "/home/" <= u && w <= u[6..] && 0 < k < 5 + |w|
    ensures PathLen(t, u[k..]) == 0
  {
    hide NameRun;
    assert forall j :: 0 <= j < |w| ==> u[6 + j] == u[6..][j] == w[j];
    assert u[..6] == "/home/";
    assert u[1] == 'h' && u[2] == 'o' && u[3] == 'm' && u[4] == 'e' && u[5] == '/';
    var v := u[k..];
    assert v[0] == u[k] && v[1] == u[k + 1];
    if k == 5 {
      assert u[6] == w[0];
    } else {
      assert v[1] != ':';
      if PathLen(t, v) > 0 { PathHead(t, v); }
    }
  }

  /** Cutting the word leaves a home directory that is no longer exempt. */
  lemma CutHomeAppears(t: CharTable, w: string, u: string)
    requires t.Valid() && PathLen(t, u) == 0 && Lettered(w)
    requires w == "ubuntu" || w == "username" || w == "runner"
    requires "/home/" <= u && CutWord(t, w, u[6..])
    ensures PathLen(t, RedactPaths(t, u)) > 0
  {
    hide RedactPaths, NameRun, DriveLen, PathLen;
    var n := 5 + |w|;
    assert u[6..][|w| - 1..] == u[n..];
    forall k | 0 <= k < n ensures PathLen(t, u[k..]) == 0 {
      if k == 0 { assert u[0..] == u; } else { NoPathInside(t, w, u, k); }
    }
    CopyRun(t, u, n);
    DriveIsPath(t, u[n..]);
    NextChar(t, u[n..]);
    var out := RedactPaths(t, u);
    assert out[n] == '[';
    assert out[..6] == u[..n][..6] == u[..6];
    var y := out[6..];
    assert y[..|w| - 1] == u[..n][6..] == u[6..][..|w| - 1] == w[..|w| - 1];
    assert y[|w| - 1] == '[';
    assert y[0] == y[..|w| - 1][0] == w[0];
    NotExempt(t, w, y);
    PathSeen(t, out);
  }

  lemma DriveIsPath(t: CharTable, u: string)
    requires DriveLen(t, u) > 0
    ensures u != "" && PathLen(t, u) > 0
  {
  }

  lemma NotExempt(t: CharTable, w: string, y: string)
    requires w == "ubuntu" || w == "username" || w == "runner"
    requires |y| >= |w| && y[..|w| - 1] == w[..|w| - 1] && y[|w| - 1] == '['
    ensures !Exempt(t, y)
  {
    assert y[0] == y[..|w| - 1][0] == w[0] && y[1] == y[..|w| - 1][1] == w[1];
    PrefixChar("ubuntu", y, 1);
    PrefixChar("ubuntu", y, |w| - 1);
    PrefixChar("username", y, 1);
    PrefixChar("username", y, |w| - 1);
    PrefixChar("runner", y, 0);
    PrefixChar("runner", y, |w| - 1);
  }

  lemma PrefixChar(v: string, y: string, k: nat)
    ensures v <= y && k < |v| ==> y[k] == v[k]
  {
  }

  /** A path appears at a copied position iff an exempt word was cut there. */
  lemma PathAppears(t: CharTable, u: string)
    requires t.Valid() && u != "" && PathLen(t, u) == 0
    ensures PathLen(t, RedactPaths(t, u)) > 0 <==> CutHome(t, u)
  {
    hide RedactPaths, PathLen, CutWord;
    if PathLen(t, RedactPaths(t, u)) > 0 { PathAppearsOnlyCut(t, u); }
    ExemptWords();
    if CutHome(t, u) {
      if CutWord(t, "ubuntu", u[6..]) { CutHomeAppears(t, "ubuntu", u); }
      else if CutWord(t, "username", u[6..]) { CutHomeAppears(t, "username", u); }
      else { CutHomeAppears(t, "runner", u); }
    }
  }

  // ----- The exact condition -----

  lemma {:induction false} PathFreeAfter(t: CharTable, m: string, x: string)
    requires forall k :: 0 <= k < |m| ==> m[k] != '/'
    requires forall k :: 1 <= k < |m| ==> m[k] != ':'
    requires m != "" ==> !AsciiLetter(m[|m| - 1])
    ensures PathFree(t, m + x) <==> PathFree(t, x)
    decreases |m|
  {
    hide PathLen;
    if m == "" {
      assert m + x == x;
    } else {
      assert (m + x)[1..] == m[1..] + x;
      assert forall k :: 0 <= k < |m[1..]| ==> m[1..][k] == m[k + 1];
      PathFreeAfter(t, m[1..], x);
      if PathLen(t, m + x) > 0 { PathHead(t, m + x); }
    }
  }

  lemma MarkIsPathFree(t: CharTable, x: string)
    ensures PathFree(t, PATH_MARK + x) <==> PathFree(t, x)
  {
    hide PathFree;
    assert PATH_MARK[|PATH_MARK| - 1] == ']';
    PathFreeAfter(t, PATH_MARK, x);
  }

  ghost predicate Free(t: CharTable, prev: bool, u: string) { IpFree(t, prev, u) && PathFree(t, u) }

  lemma FreeAfterMark(t: CharTable, prev: bool, x: string)
    requires t.Valid()
    ensures Free(t, prev, PATH_MARK + x) <==> Free(t, false, x)
  {
    hide IpFree, PathFree, Inert;
    MarksAreInert(t, prev);
    IpFreeAfterInert(t, prev, PATH_MARK, x);
    MarkIsPathFree(t, x);
  }

  lemma FreeStep(t: CharTable, prev: bool, c: char, x: string)
    ensures Free(t, prev, [c] + x)
       <==> IpLen(t, prev, [c] + x) == 0 && PathLen(t, [c] + x) == 0 && Free(t, t.word(c), x)
  {
    hide IpLen, PathLen;
    assert ([c] + x)[1..] == x;
  }

  /** A position where the scanner stands: `u` is left, and the output so far ends differently from the input. */
  predicate AfterName(t: CharTable, prev: bool, prev': bool, u: string) {
    prev' == prev || (!prev' && (u == "" || !NameChar(u[0])))
  }

  lemma HeadAppears(t: CharTable, prev: bool, prev': bool, u: string)
    requires t.Valid() && u != "" && PathLen(t, u) == 0 && IpLen(t, prev, u) == 0
    requires AfterName(t, prev, prev', u)
    ensures IpLen(t, prev', RedactPaths(t, u)) == 0 && PathLen(t, RedactPaths(t, u)) == 0
       <==> !(GluedAddress(t, prev, u) || CutHome(t, u))
  {
    hide IpLen, PathLen, CutHome, DriveLen;
    PathAppears(t, u);
    if prev' == prev {
      AddressAppears(t, prev, u);
    } else {
      NextChar(t, u);
      NoOneNoAddress(t, prev', RedactPaths(t, u));
      NoOneNoAddress(t, prev, u);
    }
  }

  /** From any scanner position: the rest of the output is free of both patterns iff nothing ahead is exposed. */
  lemma {:induction false} ExposedExactly(t: CharTable, prev: bool, prev': bool, u: string)
    requires t.Valid() && IpFree(t, prev, u) && AfterName(t, prev, prev', u)
    ensures Free(t, prev', RedactPaths(t, u)) <==> !Exposed(t, prev, u)
    decreases |u|
  {
    hide IpLen, PathLen, GluedAddress, CutHome, Free;
    if u == "" {
      EmptyIsFree(t, prev');
    } else {
      var n := PathLen(t, u);
      if n > 0 {
        PathStops(t, u);
        IpFreeSuffix(t, prev, u, n);
        assert LastWord(t, prev, u[..n]) == t.word(u[n - 1]);
        ExposedExactly(t, t.word(u[n - 1]), false, u[n..]);
        FreeAfterMark(t, prev', RedactPaths(t, u[n..]));
      } else {
        ExposedExactly(t, t.word(u[0]), t.word(u[0]), u[1..]);
        HeadAppears(t, prev, prev', u);
        FreeStep(t, prev', u[0], RedactPaths(t, u[1..]));
      }
    }
  }

  lemma EmptyIsFree(t: CharTable, prev: bool)
    ensures Free(t, prev, "")
  {
  }
}
