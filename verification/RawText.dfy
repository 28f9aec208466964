/**
 The zero-leak condition on the text as it comes in.  What the second pass sees of a text up to the next address
 is the text itself, and behind it the bracket of a mark; a scan of the text with names cut there decides
 whether the output is clean.
 */
module RawText {
  import opened Regex
  import opened Sanitizer
  import opened SanitizerSafety
  import opened SecondPass
  import opened ZeroLeak

  /** Number of characters in front of the next address that is redacted. */
  function KeptLen(t: CharTable, prev: bool, s: string): (k: nat)
    ensures k <= |s|
    decreases |s|
  {
    if s == "" || IpLen(t, prev, s) > 0 then 0 else 1 + KeptLen(t, t.word(s[0]), s[1..])
  }

  /** The text up to the next address, and a bracket if there is one. */
  function Visible(t: CharTable, prev: bool, s: string): (v: string)
    ensures |v| <= |s|
  {
    var k := KeptLen(t, prev, s);
    if k == |s| then s else s[..k] + "["
  }

  /** A scan of the raw text: some copied position starts one of the two glued shapes. */
  predicate RawExposed(t: CharTable, prev: bool, s: string)
    decreases |s|
  {
    if s == "" then false
    else
      var n := IpLen(t, prev, s);
      if n > 0 then RawExposed(t, true, s[n..])
      else
        var v := Visible(t, prev, s);
        var m := PathLen(t, v);
        if m > 0 then RawExposed(t, t.word(s[m - 1]), s[m..])
        else GluedAddress(t, prev, v) || CutHome(t, v) || RawExposed(t, t.word(s[0]), s[1..])
  }

  // ----- What can be told from the visible part -----

  /** `v` is `u`, or `u` up to one of its brackets. */
  predicate Sees(v: string, u: string) {
    v <= u && (v == u || (v != "" && v[|v| - 1] == '['))
  }

  lemma SeesHead(v: string, u: string)
    requires Sees(v, u)
    ensures u == "" <==> v == ""
    ensures v != "" ==> v[0] == u[0]
  {
  }

  lemma SeesPrefix(w: string, v: string, u: string)
    requires Sees(v, u) && '[' !in w
    ensures w <= u <==> w <= v
    ensures w <= v ==> Sees(v[|w|..], u[|w|..])
  {
    assert w <= u && 0 < |v| <= |w| ==> w[|v| - 1] == u[|v| - 1];
    assert w <= v && 0 < |v| == |w| ==> w[|v| - 1] == v[|v| - 1];
  }

  lemma SeesTail(v: string, u: string)
    requires Sees(v, u) && v != "" && v[0] != '['
    ensures Sees(v[1..], u[1..])
  {
    if v != u { assert |v| > 1; }
  }

  lemma {:induction false} SeesRun(t: CharTable, cs: CharSet, v: string, u: string)
    requires Sees(v, u) && !In(t, cs, '[')
    ensures Run(t, cs, v) == Run(t, cs, u)
    decreases |v|
  {
    hide In;
    SeesHead(v, u);
    if v != "" && In(t, cs, v[0]) {
      SeesTail(v, u);
      SeesRun(t, cs, v[1..], u[1..]);
    }
  }

  lemma SeesName(t: CharTable, v: string, u: string)
    requires Sees(v, u)
    ensures NameRun(t, v) == NameRun(t, u)
  {
    NameSetIs(t, '[');
    hide In, NameSet, Run;
    SeesRun(t, NameSet(), v, u);
  }

  lemma SeesExemptWord(t: CharTable, w: string, v: string, u: string)
    requires Sees(v, u) && '[' !in w
    ensures ExemptWord(t, w, u) <==> ExemptWord(t, w, v)
  {
    SeesPrefix(w, v, u);
    if w <= v { SeesHead(v[|w|..], u[|w|..]); }
    hide Sees;
  }

  lemma NoBracketInWords()
    ensures '[' !in "/home/" && '[' !in "/Users/" && '[' !in ":\\Users\\"
    ensures '[' !in "ubuntu" && '[' !in "username" && '[' !in "runner"
  {
  }

  lemma SeesDrive(t: CharTable, v: string, u: string)
    requires Sees(v, u)
    ensures DriveLen(t, v) == DriveLen(t, u)
  {
    NoBracketInWords();
    SeesHead(v, u);
    hide NameRun;
    if v != "" && AsciiLetter(v[0]) {
      SeesTail(v, u);
      SeesPrefix(":\\Users\\", v[1..], u[1..]);
      if ":\\Users\\" <= v[1..] {
        assert v[1..][8..] == v[9..] && u[1..][8..] == u[9..];
        SeesName(t, v[9..], u[9..]);
      }
    }
  }

  lemma SeesHome(t: CharTable, v: string, u: string)
    requires Sees(v, u)
    ensures HomeLen(t, v) == HomeLen(t, u)
  {
    NoBracketInWords();
    hide NameRun, Sees, ExemptWord;
    SeesPrefix("/home/", v, u);
    if "/home/" <= v {
      SeesExemptWord(t, "ubuntu", v[6..], u[6..]);
      SeesExemptWord(t, "username", v[6..], u[6..]);
      SeesExemptWord(t, "runner", v[6..], u[6..]);
      SeesName(t, v[6..], u[6..]);
    }
  }

  lemma SeesUsers(t: CharTable, v: string, u: string)
    requires Sees(v, u)
    ensures UsersLen(t, v) == UsersLen(t, u)
  {
    NoBracketInWords();
    hide NameRun, Sees;
    SeesPrefix("/Users/", v, u);
    if "/Users/" <= v { SeesName(t, v[7..], u[7..]); }
  }

  lemma SeesPath(t: CharTable, v: string, u: string)
    requires Sees(v, u)
    ensures PathLen(t, v) == PathLen(t, u)
  {
    NoBracketInWords();
    SeesHead(v, u);
    hide Sees, DriveLen, HomeLen, UsersLen;
    SeesDrive(t, v, u);
    SeesHome(t, v, u);
    SeesUsers(t, v, u);
    SeesPrefix("/home/", v, u);
  }

  lemma SeesCutWord(t: CharTable, w: string, v: string, u: string)
    requires Sees(v, u) && '[' !in w && w != ""
    ensures CutWord(t, w, u) <==> CutWord(t, w, v)
  {
    hide DriveLen;
    SeesPrefix(w, v, u);
    if w <= v {
      var a := w[..|w| - 1];
      assert a <= v && '[' !in a;
      SeesPrefix(a, v, u);
      SeesDrive(t, v[|w| - 1..], u[|w| - 1..]);
    }
  }

  lemma SeesCutHome(t: CharTable, v: string, u: string)
    requires Sees(v, u)
    ensures CutHome(t, u) <==> CutHome(t, v)
  {
    NoBracketInWords();
    hide Sees, CutWord;
    SeesPrefix("/home/", v, u);
    if "/home/" <= v {
      SeesCutWord(t, "ubuntu", v[6..], u[6..]);
      SeesCutWord(t, "username", v[6..], u[6..]);
      SeesCutWord(t, "runner", v[6..], u[6..]);
    }
  }

  lemma BodyIsVisible(t: CharTable, prev: bool, v: string, u: string)
    requires t.Valid() && Sees(v, u) && IpBody(t, prev, u) > 0
    ensures IpBody(t, prev, u) <= |v| && (v != u ==> IpBody(t, prev, u) < |v|)
    ensures IpBody(t, prev, v) == IpBody(t, prev, u)
  {
    hide IpBody;
    var n := IpBody(t, prev, u);
    BodyShape(t, prev, u);
    assert 0 < |v| <= n ==> Dotted(t, u[|v| - 1]);
    BodyLocal(t, prev, u, v);
  }

  lemma VisibleBody(t: CharTable, prev: bool, v: string, u: string)
    requires t.Valid() && Sees(v, u) && IpBody(t, prev, v) > 0
    ensures IpBody(t, prev, v) == IpBody(t, prev, u)
  {
    hide IpBody;
    var n := IpBody(t, prev, v);
    BodyShape(t, prev, v);
    assert |v| == n ==> Dotted(t, v[|v| - 1]);
    assert u[..n] == v[..n];
    BodyLocal(t, prev, v, u);
  }

  lemma SeesGluedAddress(t: CharTable, prev: bool, v: string, u: string)
    requires t.Valid() && Sees(v, u)
    ensures GluedAddress(t, prev, u) <==> GluedAddress(t, prev, v)
  {
    hide IpBody, DriveLen;
    if IpBody(t, prev, u) > 0 {
      BodyIsVisible(t, prev, v, u);
      SeesDrive(t, v[IpBody(t, prev, u)..], u[IpBody(t, prev, u)..]);
    } else if IpBody(t, prev, v) > 0 {
      VisibleBody(t, prev, v, u);
    }
  }

  // ----- The visible part of the first pass's text -----

  lemma VisibleStep(t: CharTable, prev: bool, s: string)
    ensures Visible(t, prev, s) ==
      if s == "" then "" else if IpLen(t, prev, s) > 0 then "[" else [s[0]] + Visible(t, t.word(s[0]), s[1..])
  {
    hide IpLen;
    if s != "" && IpLen(t, prev, s) == 0 {
      var k := KeptLen(t, t.word(s[0]), s[1..]);
      assert KeptLen(t, prev, s) == 1 + k;
      hide KeptLen;
      assert s == [s[0]] + s[1..] && s[..1 + k] == [s[0]] + s[1..][..k];
    } else {
      assert s[..0] + "[" == "[";
    }
  }

  lemma SeesCons(c: char, v: string, u: string)
    requires Sees(v, u)
    ensures Sees([c] + v, [c] + u)
  {
  }

  lemma SeesMark(rest: string)
    ensures Sees("[", IP_MARK + rest) && Sees("", "")
  {
    assert IP_MARK[0] == '[';
  }

  lemma {:induction false} VisibleIsSeen(t: CharTable, prev: bool, s: string)
    ensures Sees(Visible(t, prev, s), RedactIps(t, prev, s))
    decreases |s|
  {
    hide *;
    VisibleStep(t, prev, s);
    if s == "" {
      NothingRedacted(t, prev);
      SeesMark("");
    } else {
      RedactIpsStep(t, prev, s);
      var n := IpLen(t, prev, s);
      if n > 0 {
        SeesMark(RedactIps(t, t.word(s[n - 1]), s[n..]));
      } else {
        VisibleIsSeen(t, t.word(s[0]), s[1..]);
        SeesCons(s[0], Visible(t, t.word(s[0]), s[1..]), RedactIps(t, t.word(s[0]), s[1..]));
      }
    }
  }

  /** Nothing starts inside a mark, and what follows is met as after a non-word character. */
  lemma {:induction false} ExposedAfter(t: CharTable, prev: bool, m: string, x: string)
    requires t.Valid() && Inert(t, prev, m)
    requires forall k :: 0 <= k < |m| ==> m[k] != '/'
    requires forall k :: 1 <= k < |m| ==> m[k] != ':'
    requires m != "" ==> !AsciiLetter(m[|m| - 1])
    ensures Exposed(t, prev, m + x) <==> Exposed(t, LastWord(t, prev, m), x)
    decreases |m|
  {
    hide PathLen, IpBody, IpLen, DriveLen, Exposed;
    if m == "" {
      assert m + x == x;
    } else {
      var u := m + x;
      assert u[1..] == m[1..] + x && u[0] == m[0];
      assert forall k :: 0 <= k < |m[1..]| ==> m[1..][k] == m[k + 1];
      ExposedAfter(t, t.word(m[0]), m[1..], x);
      if PathLen(t, u) > 0 { PathHead(t, u); }
      NoOneNoAddress(t, prev, u);
      ExposedStep(t, prev, u);
    }
  }

  lemma ExposedStep(t: CharTable, prev: bool, u: string)
    requires u != ""
    ensures PathLen(t, u) == 0 && u[0] != '/' && IpBody(t, prev, u) == 0 ==>
      (Exposed(t, prev, u) <==> Exposed(t, t.word(u[0]), u[1..]))
    ensures PathLen(t, u) == 0 ==>
      (Exposed(t, prev, u) <==> GluedAddress(t, prev, u) || CutHome(t, u) || Exposed(t, t.word(u[0]), u[1..]))
    ensures PathLen(t, u) > 0 ==>
        (Exposed(t, prev, u) <==> Exposed(t, t.word(u[PathLen(t, u) - 1]), u[PathLen(t, u)..]))
  {
    hide PathLen, IpBody, DriveLen, CutWord;
  }

  lemma ExposedAfterMark(t: CharTable, prev: bool, x: string)
    requires t.Valid()
    ensures Exposed(t, prev, IP_MARK + x) <==> Exposed(t, false, x)
  {
    hide Inert, Exposed;
    MarksAreInert(t, prev);
    assert IP_MARK[|IP_MARK| - 1] == ']';
    ExposedAfter(t, prev, IP_MARK, x);
  }

  // ----- The scan of the raw text is exact -----

  /** Behind a removed address the two passes differ in what they saw before, but no address starts there. */
  lemma SameStart(t: CharTable, prev: bool, prev': bool, u: string)
    requires t.Valid() && u != "" && (prev' == prev || (!prev' && !t.word(u[0])))
    ensures GluedAddress(t, prev', u) <==> GluedAddress(t, prev, u)
  {
    hide DriveLen, IpBody, IpLen;
    if prev' != prev {
      NoOneNoAddress(t, prev', u);
      NoOneNoAddress(t, prev, u);
    }
  }

  lemma RawStep(t: CharTable, prev: bool, s: string)
    requires s != ""
    ensures IpLen(t, prev, s) > 0 ==> (RawExposed(t, prev, s) <==> RawExposed(t, true, s[IpLen(t, prev, s)..]))
    ensures IpLen(t, prev, s) == 0 ==>
      (var v := Visible(t, prev, s); var m := PathLen(t, v);
       RawExposed(t, prev, s) <==>
         if m > 0 then RawExposed(t, t.word(s[m - 1]), s[m..])
         else GluedAddress(t, prev, v) || CutHome(t, v) || RawExposed(t, t.word(s[0]), s[1..]))
  {
    hide IpLen, PathLen, GluedAddress, CutHome, Visible;
  }

  lemma {:induction false} RawExposedExactly(t: CharTable, prev: bool, prev': bool, s: string)
    requires t.Valid()
    requires prev' == prev || (!prev' && !StartsWithWord(t, s))
    ensures RawExposed(t, prev, s) <==> Exposed(t, prev', RedactIps(t, prev, s))
    decreases |s|
  {
    hide IpLen, PathLen, GluedAddress, CutHome, Visible, RawExposed, Exposed, RedactIps, IP_MARK, Sees;
    if s == "" {
      NothingRedacted(t, prev);
      NothingExposed(t, prev, prev');
    } else {
      RawStep(t, prev, s);
      RedactIpsStep(t, prev, s);
      var n, u := IpLen(t, prev, s), RedactIps(t, prev, s);
      if n > 0 {
        AddressEndsAtEdge(t, prev, s);
        RawExposedExactly(t, true, false, s[n..]);
        ExposedAfterMark(t, prev', RedactIps(t, true, s[n..]));
      } else {
        CopiedExactly(t, prev, prev', s);
        var m := PathLen(t, u);
        if m > 0 {
          RawExposedExactly(t, t.word(s[m - 1]), t.word(s[m - 1]), s[m..]);
        } else {
          RawExposedExactly(t, t.word(s[0]), t.word(s[0]), s[1..]);
        }
      }
    }
  }

  lemma NothingExposed(t: CharTable, prev: bool, prev': bool)
    ensures !RawExposed(t, prev, "") && !Exposed(t, prev', "")
  {
  }

  /** Where a character is copied, both scans look at the same path, the same glued shapes and the same rest. */
  lemma CopiedExactly(t: CharTable, prev: bool, prev': bool, s: string)
    requires t.Valid() && s != "" && IpLen(t, prev, s) == 0
    requires prev' == prev || (!prev' && !StartsWithWord(t, s))
    ensures var u, v := RedactIps(t, prev, s), Visible(t, prev, s); var m := PathLen(t, u);
      && u == [s[0]] + RedactIps(t, t.word(s[0]), s[1..]) && PathLen(t, v) == m && m <= |s|
      && (m > 0 ==> u[m..] == RedactIps(t, t.word(s[m - 1]), s[m..]))
      && (Exposed(t, prev', u) <==>
            if m > 0 then Exposed(t, t.word(s[m - 1]), u[m..])
            else GluedAddress(t, prev, v) || CutHome(t, v) || Exposed(t, t.word(s[0]), u[1..]))
  {
    hide IpLen, PathLen, GluedAddress, CutHome, Visible, Exposed, RedactIps, IP_MARK, Sees;
    RedactIpsStep(t, prev, s);
    VisibleIsSeen(t, prev, s);
    var u, v := RedactIps(t, prev, s), Visible(t, prev, s);
    SeesPath(t, v, u);
    SeesCutHome(t, v, u);
    SeesGluedAddress(t, prev, v, u);
    SameStart(t, prev, prev', u);
    ExposedStep(t, prev', u);
    var m := PathLen(t, u);
    PathChars(t, u);
    assert '[' !in u[..m];
    FirstPassCopies(t, prev, s, m);
    if m > 0 {
      assert s[..m][m - 1] == u[..m][m - 1];
      assert LastWord(t, prev, s[..m]) == t.word(s[m - 1]);
    }
  }

  /** The output contains no match of either pattern iff the raw text is not exposed. */
  lemma CleanUnlessRawExposed(t: CharTable, s: string)
    requires t.Valid()
    ensures Clean(t, SanitizePrivacy(t, s)) <==> !RawExposed(t, false, s)
  {
    hide Clean, SanitizePrivacy, FirstPass, Exposed, RawExposed, RedactIps;
    PassesScan(t, s);
    CleanUnlessExposed(t, s);
    RawExposedExactly(t, false, false, s);
  }
}
