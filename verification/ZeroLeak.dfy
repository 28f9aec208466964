/**
 The zero-leak invariant of `sanitize_privacy` over all strings: when it holds, when a second
 application changes anything, and that two applications always establish it.
 */
module ZeroLeak {
  import opened Regex
  import opened Sanitizer
  import opened SanitizerSafety
  import opened SecondPass

  lemma PassesScan(t: CharTable, s: string)
    requires t.Valid()
    ensures FirstPass(t, s) == RedactIps(t, false, s)
    ensures SanitizePrivacy(t, s) == RedactPaths(t, FirstPass(t, s))
  {
    hide Sub, IpPattern, PathPattern, RedactIps, RedactPaths;
    FirstPassScans(t, s, 0);
    assert s[0..] == s;
    var u := FirstPass(t, s);
    SecondPassScans(t, u, 0);
    assert u[0..] == u;
  }

  /** For every text the first pass leaves no private address. */
  lemma FirstPassRemovesAddresses(t: CharTable, s: string)
    requires t.Valid()
    ensures NoMatch(t, IpPattern(), FirstPass(t, s))
  {
    hide NoMatch, IpFree, RedactIps;
    PassesScan(t, s);
    FirstPassLeavesNoAddress(t, false, false, s);
    CleanIsFree(t, FirstPass(t, s));
  }

  /** The output is clean iff no Windows user path was glued to an address or to an exempt home directory. */
  lemma CleanUnlessExposed(t: CharTable, s: string)
    requires t.Valid()
    ensures Clean(t, SanitizePrivacy(t, s)) <==> !Exposed(t, false, FirstPass(t, s))
  {
    hide NoMatch, IpFree, PathFree, RedactIps, RedactPaths, Exposed;
    PassesScan(t, s);
    FirstPassLeavesNoAddress(t, false, false, s);
    ExposedExactly(t, false, false, FirstPass(t, s));
    CleanIsFree(t, SanitizePrivacy(t, s));
  }

  /** For a text without private addresses the condition is on the text itself. */
  lemma CleanUnlessExposedAsIs(t: CharTable, s: string)
    requires t.Valid() && NoMatch(t, IpPattern(), s)
    ensures Clean(t, SanitizePrivacy(t, s)) <==> !Exposed(t, false, s)
  {
    hide NoMatch, IpFree, PathFree, RedactIps, Exposed, Clean, SanitizePrivacy;
    PassesScan(t, s);
    IpFreeFrom(t, s, 0);
    NoMatchIsFromStart(t, s);
    assert s[0..] == s;
    FreeIsFixed(t, false, s);
    CleanUnlessExposed(t, s);
  }

  lemma NoMatchIsFromStart(t: CharTable, s: string)
    ensures NoMatch(t, IpPattern(), s) == NoMatchFrom(t, IpPattern(), s, 0) && !WordAt(t, s, -1)
  {
    hide NoMatchFrom, IpPattern;
  }

  // ----- A sufficient condition on the input alone -----

  /** A Windows user path stands directly behind a word character. */
  ghost predicate GluedDrivePath(t: CharTable, s: string) {
    exists k :: 1 <= k < |s| && t.word(s[k - 1]) && DriveLen(t, s[k..]) > 0
  }

  predicate Glued(t: CharTable, prev: bool, u: string)
    decreases |u|
  {
    u != "" && ((prev && DriveLen(t, u) > 0) || Glued(t, t.word(u[0]), u[1..]))
  }

  lemma {:induction false} GluedFrom(t: CharTable, s: string, i: nat)
    requires i <= |s| && Glued(t, WordAt(t, s, i - 1), s[i..])
    ensures GluedDrivePath(t, s)
    decreases |s| - i
  {
    hide DriveLen;
    if !(WordAt(t, s, i - 1) && DriveLen(t, s[i..]) > 0) {
      assert s[i..][1..] == s[i + 1..];
      GluedFrom(t, s, i + 1);
    }
  }

  lemma {:induction false} GluedSuffix(t: CharTable, prev: bool, u: string, n: nat)
    requires n <= |u| && Glued(t, LastWord(t, prev, u[..n]), u[n..])
    ensures Glued(t, prev, u)
    decreases n
  {
    hide DriveLen;
    if n == 0 {
      assert u[0..] == u;
    } else {
      LastWordStep(t, prev, u, n);
      GluedSuffix(t, t.word(u[0]), u[1..], n - 1);
    }
  }

  lemma {:induction false} GluedAfter(t: CharTable, prev: bool, m: string, x: string)
    requires forall k :: 1 <= k < |m| ==> m[k] != ':'
    requires m != "" ==> !AsciiLetter(m[|m| - 1])
    ensures Glued(t, prev, m + x) <==> Glued(t, LastWord(t, prev, m), x)
    decreases |m|
  {
    hide DriveLen;
    if m == "" {
      assert m + x == x;
    } else {
      assert (m + x)[1..] == m[1..] + x;
      assert forall k :: 0 <= k < |m[1..]| ==> m[1..][k] == m[k + 1];
      GluedAfter(t, t.word(m[0]), m[1..], x);
      assert LastWord(t, t.word(m[0]), m[1..]) == LastWord(t, prev, m);
      if DriveLen(t, m + x) > 0 { DriveIsPath(t, m + x); DriveColon(t, m + x); }
    }
  }

  lemma DriveColon(t: CharTable, u: string)
    requires DriveLen(t, u) > 0
    ensures AsciiLetter(u[0]) && |u| > 1 && u[1] == ':' && DriveShape(u)
  {
    hide NameRun;
    assert ":\\Users\\"[0] == u[1..][0];
    NameRunPositive(t, u[9..]);
    assert u[1..9] == u[1..][..8];
  }

  lemma DriveShapeIsDrive(t: CharTable, u: string)
    requires DriveShape(u)
    ensures DriveLen(t, u) > 0 && PathLen(t, u) > 0
  {
    hide NameRun;
    NameRunPositive(t, u[9..]);
    assert u[1..9] == u[1..][..8];
  }

  lemma GluedAfterMark(t: CharTable, prev: bool, x: string)
    requires t.Valid()
    ensures Glued(t, prev, IP_MARK + x) <==> Glued(t, false, x)
    ensures Glued(t, prev, PATH_MARK + x) <==> Glued(t, false, x)
  {
    hide Glued, Inert;
    MarksAreInert(t, prev);
    assert IP_MARK[|IP_MARK| - 1] == ']' && PATH_MARK[|PATH_MARK| - 1] == ']';
    GluedAfter(t, prev, IP_MARK, x);
    GluedAfter(t, prev, PATH_MARK, x);
  }

  lemma FirstPassKeepsDrive(t: CharTable, prev: bool, u: string)
    requires DriveShape(RedactIps(t, prev, u))
    ensures DriveShape(u)
  {
    hide RedactIps;
    var out := RedactIps(t, prev, u);
    forall k | 0 <= k < 10 ensures out[k] != '[' { if 1 <= k < 9 { assert out[k] == out[1..9][k - 1]; } }
    NoBracket(out, 10);
    FirstPassCopies(t, prev, u, 10);
    assert u[1..9] == u[..10][1..9] == out[..10][1..9] == out[1..9];
    assert u[0] == u[..10][0] && u[9] == u[..10][9];
  }

  lemma {:induction false} FirstPassGluesNothing(t: CharTable, prev: bool, prev': bool, u: string)
    requires t.Valid() && (prev' ==> prev) && Glued(t, prev', RedactIps(t, prev, u))
    ensures Glued(t, prev, u)
    decreases |u|
  {
    hide IpLen, DriveLen;
    if u != "" {
      var n := IpLen(t, prev, u);
      var out := RedactIps(t, prev, u);
      if n > 0 {
        AddressEndsAtEdge(t, prev, u);
        GluedAfterMark(t, prev', RedactIps(t, true, u[n..]));
        FirstPassGluesNothing(t, true, false, u[n..]);
        GluedSuffix(t, prev, u, n);
      } else {
        assert out[1..] == RedactIps(t, t.word(u[0]), u[1..]);
        if Glued(t, t.word(u[0]), out[1..]) {
          FirstPassGluesNothing(t, t.word(u[0]), t.word(u[0]), u[1..]);
        } else {
          DriveColon(t, out);
          FirstPassKeepsDrive(t, prev, u);
          DriveShapeIsDrive(t, u);
        }
      }
    }
  }

  lemma GluedAddressIsGlued(t: CharTable, prev: bool, u: string)
    requires t.Valid() && GluedAddress(t, prev, u)
    ensures Glued(t, prev, u)
  {
    hide IpBody, DriveLen;
    var n := IpBody(t, prev, u);
    BodyShape(t, prev, u);
    DriveIsPath(t, u[n..]);
    GluedSuffix(t, prev, u, n);
  }

  lemma CutWordIsGlued(t: CharTable, w: string, prev: bool, u: string)
    requires t.Valid() && Lettered(w) && "/home/" <= u && CutWord(t, w, u[6..])
    ensures Glued(t, prev, u)
  {
    hide DriveLen, Glued;
    var n := 5 + |w|;
    assert u[6..][|w| - 1..] == u[n..];
    DriveIsPath(t, u[n..]);
    assert u[n - 1] == u[6..][|w| - 2] == w[|w| - 2];
    GluedHere(t, u[n..]);
    GluedSuffix(t, prev, u, n);
  }

  lemma GluedHere(t: CharTable, u: string)
    requires DriveLen(t, u) > 0
    ensures Glued(t, true, u)
  {
  }

  lemma {:induction false} ExposedIsGlued(t: CharTable, prev: bool, u: string)
    requires t.Valid() && Exposed(t, prev, u)
    ensures Glued(t, prev, u)
    decreases |u|
  {
    hide PathLen, DriveLen, GluedAddress, CutWord;
    var n := PathLen(t, u);
    if n > 0 {
      ExposedIsGlued(t, t.word(u[n - 1]), u[n..]);
      GluedSuffix(t, prev, u, n);
    } else if GluedAddress(t, prev, u) {
      GluedAddressIsGlued(t, prev, u);
    } else if CutHome(t, u) {
      ExemptWords();
      if CutWord(t, "ubuntu", u[6..]) { CutWordIsGlued(t, "ubuntu", prev, u); }
      else if CutWord(t, "username", u[6..]) { CutWordIsGlued(t, "username", prev, u); }
      else { CutWordIsGlued(t, "runner", prev, u); }
    } else {
      ExposedIsGlued(t, t.word(u[0]), u[1..]);
    }
  }

  /** Text in which no Windows user path is glued to a word character comes out clean. */
  lemma CleanWithoutGluedDrive(t: CharTable, s: string)
    requires t.Valid() && !GluedDrivePath(t, s)
    ensures Clean(t, SanitizePrivacy(t, s))
  {
    hide NoMatch, Exposed, RedactIps, Glued, GluedDrivePath;
    PassesScan(t, s);
    CleanUnlessExposed(t, s);
    var u := FirstPass(t, s);
    if Exposed(t, false, u) {
      ExposedIsGlued(t, false, u);
      FirstPassGluesNothing(t, false, false, s);
      assert s[0..] == s;
      GluedFrom(t, s, 0);
    }
  }

  // ----- Applying the sanitizer again -----

  lemma {:induction false} SecondPassLeavesNoDrive(t: CharTable, prev: bool, u: string)
    requires t.Valid()
    ensures !Glued(t, prev, RedactPaths(t, u))
    decreases |u|
  {
    hide PathLen, DriveLen;
    if u != "" {
      var n := PathLen(t, u);
      var out := RedactPaths(t, u);
      if n > 0 {
        SecondPassLeavesNoDrive(t, false, u[n..]);
        GluedAfterMark(t, prev, RedactPaths(t, u[n..]));
      } else {
        SecondPassLeavesNoDrive(t, t.word(u[0]), u[1..]);
        assert out[1..] == RedactPaths(t, u[1..]);
        if DriveLen(t, out) > 0 {
          DriveColon(t, out);
          DriveWasThere(t, u);
          DriveShapeIsDrive(t, u);
        }
      }
    }
  }

  lemma {:induction false} GluedFind(t: CharTable, s: string, i: nat, k: nat)
    requires 1 <= k < |s| && i <= k && t.word(s[k - 1]) && DriveLen(t, s[k..]) > 0
    ensures Glued(t, WordAt(t, s, i - 1), s[i..])
    decreases k - i
  {
    hide DriveLen;
    if i < k {
      assert s[i..][1..] == s[i + 1..];
      GluedFind(t, s, i + 1, k);
    }
  }

  /** Two applications always establish the zero-leak invariant, whatever the text. */
  lemma TwiceIsClean(t: CharTable, s: string)
    requires t.Valid()
    ensures Clean(t, SanitizePrivacy(t, SanitizePrivacy(t, s)))
  {
    hide NoMatch, RedactPaths, Glued, SanitizePrivacy, FirstPass;
    PassesScan(t, s);
    var out := SanitizePrivacy(t, s);
    SecondPassLeavesNoDrive(t, false, FirstPass(t, s));
    if GluedDrivePath(t, out) {
      var k :| 1 <= k < |out| && t.word(out[k - 1]) && DriveLen(t, out[k..]) > 0;
      assert out[0..] == out;
      GluedFind(t, out, 0, k);
    }
    CleanWithoutGluedDrive(t, out);
  }

  // ----- Fixed points -----

  function Brackets(u: string): nat { if u == "" then 0 else (if u[0] == '[' then 1 else 0) + Brackets(u[1..]) }

  lemma {:induction false} BracketsConcat(a: string, b: string)
    ensures Brackets(a + b) == Brackets(a) + Brackets(b)
    decreases |a|
  {
    if a == "" { assert a + b == b; } else { BracketsConcat(a[1..], b); assert (a + b)[1..] == a[1..] + b; }
  }

  lemma BracketsCons(c: char, x: string)
    ensures Brackets([c] + x) == (if c == '[' then 1 else 0) + Brackets(x)
  {
    assert ([c] + x)[1..] == x;
  }

  lemma MarksAddBrackets(x: string)
    ensures Brackets(IP_MARK + x) > Brackets(x) && Brackets(PATH_MARK + x) > Brackets(x)
  {
    hide Brackets;
    assert IP_MARK[0] == '[' && PATH_MARK[0] == '[';
    assert IP_MARK + x == ['['] + (IP_MARK[1..] + x) && PATH_MARK + x == ['['] + (PATH_MARK[1..] + x);
    BracketsCons('[', IP_MARK[1..] + x);
    BracketsCons('[', PATH_MARK[1..] + x);
    BracketsConcat(IP_MARK[1..], x);
    BracketsConcat(PATH_MARK[1..], x);
  }

  lemma {:induction false} NoBrackets(a: string)
    requires forall k :: 0 <= k < |a| ==> a[k] != '['
    ensures Brackets(a) == 0
    decreases |a|
  {
    if a != "" { NoBrackets(a[1..]); }
  }

  lemma RemovedTextHasNoBracket(t: CharTable, prev: bool, u: string)
    requires t.Valid()
    ensures var n := IpLen(t, prev, u); Brackets(u) == Brackets(u[n..])
    ensures var n := PathLen(t, u); Brackets(u) == Brackets(u[n..])
  {
    hide IpBody, PathLen, Brackets;
    var n := IpLen(t, prev, u);
    if n > 0 {
      BodyShape(t, prev, u);
      NoBrackets(u[..n]);
    } else {
      NoBrackets(u[..0]);
    }
    BracketsConcat(u[..n], u[n..]);
    assert u == u[..n] + u[n..];
    var m := PathLen(t, u);
    PathChars(t, u);
    NoBrackets(u[..m]);
    BracketsConcat(u[..m], u[m..]);
    assert u == u[..m] + u[m..];
  }

  lemma PathChars(t: CharTable, u: string)
    ensures forall k :: 0 <= k < PathLen(t, u) ==> u[k] != '['
  {
    hide NameRun;
    if |u| >= 6 && u[..6] == "/home/" {
      NameRunIs(t, u[6..]);
      assert u[0] == '/' && forall k :: 0 <= k < 6 ==> u[k] == u[..6][k];
    } else if |u| >= 7 && u[..7] == "/Users/" {
      NameRunIs(t, u[7..]);
      assert u[0] == '/' && forall k :: 0 <= k < 7 ==> u[k] == u[..7][k];
    } else if |u| >= 9 && AsciiLetter(u[0]) {
      NameRunIs(t, u[9..]);
      assert forall k :: 1 <= k < 9 ==> u[k] == u[1..][..8][k - 1];
    }
  }

  /** Redaction only adds brackets, and adds none only when it changes nothing. */
  lemma {:induction false} FirstPassAddsBrackets(t: CharTable, prev: bool, u: string)
    requires t.Valid()
    ensures Brackets(RedactIps(t, prev, u)) >= Brackets(u)
    ensures Brackets(RedactIps(t, prev, u)) == Brackets(u) ==> RedactIps(t, prev, u) == u && IpFree(t, prev, u)
    decreases |u|
  {
    hide IpLen, Brackets;
    if u != "" {
      var n := IpLen(t, prev, u);
      if n > 0 {
        FirstPassAddsBrackets(t, t.word(u[n - 1]), u[n..]);
        RemovedTextHasNoBracket(t, prev, u);
        MarksAddBrackets(RedactIps(t, t.word(u[n - 1]), u[n..]));
      } else {
        FirstPassAddsBrackets(t, t.word(u[0]), u[1..]);
        BracketsCons(u[0], u[1..]);
        BracketsCons(u[0], RedactIps(t, t.word(u[0]), u[1..]));
        assert u == [u[0]] + u[1..];
      }
    }
  }

  lemma {:induction false} SecondPassAddsBrackets(t: CharTable, u: string)
    requires t.Valid()
    ensures Brackets(RedactPaths(t, u)) >= Brackets(u)
    ensures Brackets(RedactPaths(t, u)) == Brackets(u) ==> RedactPaths(t, u) == u && PathFree(t, u)
    decreases |u|
  {
    hide PathLen, Brackets;
    if u != "" {
      var n := PathLen(t, u);
      if n > 0 {
        SecondPassAddsBrackets(t, u[n..]);
        RemovedTextHasNoBracket(t, false, u);
        MarksAddBrackets(RedactPaths(t, u[n..]));
      } else {
        SecondPassAddsBrackets(t, u[1..]);
        BracketsCons(u[0], u[1..]);
        BracketsCons(u[0], RedactPaths(t, u[1..]));
        assert u == [u[0]] + u[1..];
      }
    }
  }

  lemma {:induction false} FreeIsFixed(t: CharTable, prev: bool, u: string)
    ensures IpFree(t, prev, u) ==> RedactIps(t, prev, u) == u
    ensures PathFree(t, u) ==> RedactPaths(t, u) == u
    decreases |u|
  {
    hide IpLen, PathLen;
    if u != "" {
      FreeIsFixed(t, t.word(u[0]), u[1..]);
      assert u == [u[0]] + u[1..];
    }
  }

  /** The sanitizer leaves exactly the clean texts unchanged. */
  lemma FixedIffClean(t: CharTable, s: string)
    requires t.Valid()
    ensures SanitizePrivacy(t, s) == s <==> Clean(t, s)
  {
    hide *;
    PassesScan(t, s);
    CleanMeans(t, s);
    FreeIsFixed(t, false, s);
    FirstPassAddsBrackets(t, false, s);
    SecondPassAddsBrackets(t, FirstPass(t, s));
  }

  /** Sanitizing twice equals sanitizing once iff nothing was exposed. */
  lemma IdempotentUnlessExposed(t: CharTable, s: string)
    requires t.Valid()
    ensures SanitizePrivacy(t, SanitizePrivacy(t, s)) == SanitizePrivacy(t, s)
       <==> !Exposed(t, false, FirstPass(t, s))
  {
    hide *;
    CleanUnlessExposed(t, s);
    FixedIffClean(t, SanitizePrivacy(t, s));
  }

  /** A third application never changes anything. */
  lemma ThirdChangesNothing(t: CharTable, s: string)
    requires t.Valid()
    ensures var twice := SanitizePrivacy(t, SanitizePrivacy(t, s)); SanitizePrivacy(t, twice) == twice
  {
    hide *;
    TwiceIsClean(t, s);
    FixedIffClean(t, SanitizePrivacy(t, SanitizePrivacy(t, s)));
  }

  // ----- The two shapes really occur -----

  const GLUED_ADDRESS := "10.0.0.1" + "C:\\Users\\bob"
  const CUT_HOME := "/home/ubuntu" + ":\\Users\\bob"

  /** An address glued to a Windows user path survives: the first pass sees no boundary behind it. */
  lemma GluedAddressSurvives(t: CharTable)
    requires t.Valid()
    ensures GluedDrivePath(t, GLUED_ADDRESS) && !Clean(t, SanitizePrivacy(t, GLUED_ADDRESS))
  {
    hide *;
    GluedAddressExposed(t);
    GluedAddressPassesFirst(t);
    StaysExposed(t, GLUED_ADDRESS);
  }

  lemma GluedAddressExposed(t: CharTable)
    requires t.Valid()
    ensures GluedDrivePath(t, GLUED_ADDRESS) && Exposed(t, false, GLUED_ADDRESS) && IpLen(t, false, GLUED_ADDRESS) == 0
  {
    hide Exposed, IpBody, IpLen, DriveLen, PathLen;
    var path := "C:\\Users\\bob";
    var s := GLUED_ADDRESS;
    assert s == "10.0.0.1" + path && s[8..] == path;
    DottedOne(t, path);
    assert path[1..9] == ":\\Users\\" && path[9] == 'b';
    assert DriveShape(path);
    DriveShapeIsDrive(t, path);
    NotAPath(t, s);
    ExposedHere(t, s);
    assert t.word(s[8 - 1]);
  }

  lemma DrivePathIsInert(t: CharTable, prev: bool)
    ensures Inert(t, prev, "C:\\Users\\bob")
  {
    var s := "C:\\Users\\bob";
    hide Inert;
    InertIf(t, prev, s);
  }

  lemma ZerosAreInert(t: CharTable)
    requires t.Valid()
    ensures Inert(t, true, "0.0.0.") && LastWord(t, true, "0.0.0.") == false
  {
    var s := "0.0.0.";
    hide Inert;
    InertIf(t, true, s);
  }

  lemma GluedParts(path: string)
    ensures var s, tail := "10.0.0.1" + path, "1" + path;
      s[0] == '1' && s[1..] == "0.0.0." + tail && tail[1..] == path && path + "" == path
  {
  }

  lemma GluedTextIsFree(t: CharTable, path: string)
    requires t.Valid() && path != "" && path[0] == 'C' && Inert(t, true, path)
    requires IpLen(t, false, "10.0.0.1" + path) == 0
    ensures IpFree(t, false, "10.0.0.1" + path)
  {
    hide *;
    GluedParts(path);
    OneIsWord(t);
    ZerosAreInert(t);
    var s, tail := "10.0.0.1" + path, "1" + path;
    LoneOne(t, false, tail);
    IpFreeStep(t, false, s);
    IpFreeAfterInert(t, true, "0.0.0.", tail);
    IpFreeStep(t, false, tail);
    IpFreeAfterInert(t, true, path, "");
    IpFreeStep(t, LastWord(t, true, path), "");
  }

  lemma OneIsWord(t: CharTable)
    requires t.Valid()
    ensures t.word('1')
  {
  }

  lemma GluedAddressPassesFirst(t: CharTable)
    requires t.Valid()
    ensures IpFree(t, false, GLUED_ADDRESS)
  {
    var path := "C:\\Users\\bob";
    assert path[0] == 'C';
    hide Exposed, GluedDrivePath, Inert, IpFree, IpLen;
    GluedAddressExposed(t);
    DrivePathIsInert(t, true);
    GluedTextIsFree(t, path);
  }

  lemma DottedOne(t: CharTable, path: string)
    requires t.Valid() && StartsWithWord(t, path) && !t.digit(path[0])
    ensures IpBody(t, false, "10.0.0.1" + path) == 8 && IpLen(t, false, "10.0.0.1" + path) == 0
  {
    hide OctetsLen, Run;
    var u := "10.0.0.1" + path;
    assert u[..3] == "10.";
    assert u[3..] == "0.0.1" + path && u[8..] == path;
    LastDigit(t, "1", path);
    OneDigit(t, "0.1" + path, 2);
    assert ("0.1" + path)[2..] == "1" + path;
    OneDigit(t, "0.0.1" + path, 3);
    assert ("0.0.1" + path)[2..] == "0.1" + path;
  }

  lemma LastDigit(t: CharTable, d: string, path: string)
    requires t.Valid() && |d| == 1 && AsciiDigit(d[0]) && path != "" && !t.digit(path[0])
    ensures OctetsLen(t, d + path, 1) == 1
  {
    RunIs(t, Digit, d + path, 1);
  }

  lemma OneDigit(t: CharTable, u: string, n: nat)
    requires t.Valid() && n >= 2 && |u| > 1 && AsciiDigit(u[0]) && u[1] == '.'
    ensures OctetsLen(t, u, n) == Behind(2, OctetsLen(t, u[2..], n - 1))
  {
    hide OctetsLen;
    RunIs(t, Digit, u, 1);
    OctetsUnfold(t, u, n);
  }

  lemma NotAPath(t: CharTable, u: string)
    requires u != "" && u[0] == '1'
    ensures PathLen(t, u) == 0
  {
  }

  lemma ExposedHere(t: CharTable, u: string)
    requires u != "" && PathLen(t, u) == 0 && (GluedAddress(t, false, u) || CutHome(t, u))
    ensures Exposed(t, false, u)
  {
  }

  /** Text without an address reaches the second pass unchanged. */
  lemma StaysExposed(t: CharTable, s: string)
    requires t.Valid() && IpFree(t, false, s) && Exposed(t, false, s)
    ensures !Clean(t, SanitizePrivacy(t, s))
  {
    hide Exposed, IpFree, Clean, RedactIps;
    PassesScan(t, s);
    FreeIsFixed(t, false, s);
    CleanUnlessExposed(t, s);
  }

  lemma LoneOne(t: CharTable, prev: bool, u: string)
    requires |u| > 1 && u[1] == 'C'
    ensures IpLen(t, prev, u) == 0
  {
    PrefixChar("10.", u, 1);
    PrefixChar("192.168.", u, 1);
    PrefixChar("172.", u, 1);
  }

  /** Taking the last letter of an exempt user name for a drive letter exposes the home directory. */
  lemma CutHomeSurfaces(t: CharTable)
    requires t.Valid()
    ensures GluedDrivePath(t, CUT_HOME) && !Clean(t, SanitizePrivacy(t, CUT_HOME))
  {
    hide *;
    CutHomeExposed(t);
    CutHomePassesFirst(t);
    StaysExposed(t, CUT_HOME);
  }

  lemma HomeIsInert(t: CharTable)
    ensures Inert(t, false, "/home/ubuntu")
  {
    var s := "/home/ubuntu";
    hide Inert;
    InertIf(t, false, s);
  }

  lemma BareDriveIsInert(t: CharTable, prev: bool)
    ensures Inert(t, prev, ":\\Users\\bob")
  {
    var s := ":\\Users\\bob";
    hide Inert;
    InertIf(t, prev, s);
  }

  lemma CutHomePassesFirst(t: CharTable)
    requires t.Valid()
    ensures IpFree(t, false, CUT_HOME)
  {
    var a, b := "/home/ubuntu", ":\\Users\\bob";
    HomeIsInert(t);
    hide IpLen, Inert, IpFree, LastWord;
    var prev := LastWord(t, false, a);
    BareDriveIsInert(t, prev);
    IpFreeAfterInert(t, false, a, b);
    IpFreeAfterInert(t, prev, b, "");
    IpFreeStep(t, LastWord(t, prev, b), "");
    assert b + "" == b;
  }

  /** The directory, its word, and the drive path that takes the word's last letter. */
  lemma CutHomeParts(rest: string)
    ensures var s := "/home/ubuntu" + rest;
      && s[..6] == "/home/" && s[6..] == "ubuntu" + rest && s[11..] == "u" + rest && s[10] == 't'
      && s[6..][5..] == "u" + rest && |s| == 12 + |rest| && (rest != "" ==> s[12] == rest[0])
  {
  }

  lemma CutHomeExposed(t: CharTable)
    requires t.Valid()
    ensures GluedDrivePath(t, CUT_HOME) && Exposed(t, false, CUT_HOME)
  {
    var rest := ":\\Users\\bob";
    CutHomeParts(rest);
    var s, path := CUT_HOME, "u" + rest;
    assert path[1..9] == ":\\Users\\" && path[9] == 'b';
    hide Exposed, DriveLen, PathLen, CUT_HOME;
    DriveShapeIsDrive(t, path);
    CutHomeIsExempt(t, s, rest);
    ExposedHere(t, s);
    assert t.word(s[11 - 1]);
  }

  lemma CutHomeIsExempt(t: CharTable, s: string, rest: string)
    requires t.Valid() && |s| > 12 && s[..6] == "/home/" && s[6..] == "ubuntu" + rest && s[12] == ':'
    requires s[6..][5..] == "u" + rest && DriveLen(t, "u" + rest) > 0
    ensures PathLen(t, s) == 0 && CutHome(t, s)
  {
    assert (s[6..])[..6] == "ubuntu";
    hide DriveLen, PathLen;
    ExemptHere(t, s);
    assert CutWord(t, "ubuntu", s[6..]);
  }

  lemma ExemptHere(t: CharTable, s: string)
    requires t.Valid() && "/home/" <= s && "ubuntu" <= s[6..] && |s| > 12 && s[12] == ':'
    ensures PathLen(t, s) == 0
  {
    assert s[0] == '/';
    assert s[6..][6..] == s[12..];
    assert ExemptWord(t, "ubuntu", s[6..]);
  }
}
