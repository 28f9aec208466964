/**
 What `sanitize_privacy` leaves behind.  The first pass always removes every private address.
 The second pass can put one back, or expose a home directory, in exactly one situation:
 a Windows user path whose drive letter is glued to the text before it.
 */
module SanitizerSafety {
  import opened Regex
  import opened Sanitizer

  // ----- No match, as a scan -----

  ghost predicate IpFree(t: CharTable, prev: bool, u: string)
    decreases |u|
  {
    u == "" || (IpLen(t, prev, u) == 0 && IpFree(t, t.word(u[0]), u[1..]))
  }

  ghost predicate PathFree(t: CharTable, u: string)
    decreases |u|
  {
    u == "" || (PathLen(t, u) == 0 && PathFree(t, u[1..]))
  }

  lemma {:induction false} IpFreeFrom(t: CharTable, s: string, i: nat)
    requires t.Valid() && i <= |s|
    ensures IpFree(t, WordAt(t, s, i - 1), s[i..]) <==> NoMatchFrom(t, IpPattern(), s, i)
    decreases |s| - i
  {
    hide Ends, IpPattern, IpLen;
    IpAgrees(t, s, i);
    if i == |s| {
      NothingToScan(t, WordAt(t, s, i - 1));
    } else {
      assert s[i..][1..] == s[i + 1..];
      IpFreeFrom(t, s, i + 1);
    }
  }

  lemma {:induction false} PathFreeFrom(t: CharTable, s: string, i: nat)
    requires t.Valid() && i <= |s|
    ensures PathFree(t, s[i..]) <==> NoMatchFrom(t, PathPattern(), s, i)
    decreases |s| - i
  {
    hide Ends, PathPattern, PathLen;
    PathAgrees(t, s, i);
    if i == |s| {
      NothingToScan(t, false);
    } else {
      assert s[i..][1..] == s[i + 1..];
      PathFreeFrom(t, s, i + 1);
    }
  }

  lemma NothingToScan(t: CharTable, prev: bool)
    ensures IpLen(t, prev, "") == 0 && PathLen(t, "") == 0
  {
  }

  lemma CleanIsFree(t: CharTable, s: string)
    requires t.Valid()
    ensures NoMatch(t, IpPattern(), s) <==> IpFree(t, false, s)
    ensures NoMatch(t, PathPattern(), s) <==> PathFree(t, s)
  {
    hide NoMatchFrom, IpPattern, PathPattern;
    assert s[0..] == s;
    IpFreeFrom(t, s, 0);
    PathFreeFrom(t, s, 0);
  }

  lemma CleanMeans(t: CharTable, s: string)
    requires t.Valid()
    ensures Clean(t, s) <==> IpFree(t, false, s) && PathFree(t, s)
  {
    hide NoMatch, IpFree, PathFree;
    CleanIsFree(t, s);
  }

  // ----- Shape of a match -----

  predicate Dotted(t: CharTable, c: char) { t.digit(c) || c == '.' }

  lemma OctetsUnfold(t: CharTable, u: string, n: nat)
    requires n >= 1
    ensures var r := Run(t, Digit, u);
      OctetsLen(t, u, n)
      == if !(1 <= r <= 3) then 0
         else if n == 1 then r
         else if r < |u| && u[r] == '.' then Behind(r + 1, OctetsLen(t, u[r + 1..], n - 1))
         else 0
  {
  }

  lemma {:induction false} OctetsShape(t: CharTable, u: string, n: nat)
    requires t.Valid() && n >= 1 && OctetsLen(t, u, n) > 0
    ensures var m := OctetsLen(t, u, n);
      && (forall k :: 0 <= k < m ==> Dotted(t, u[k]))
      && t.digit(u[m - 1])
      && (m < |u| ==> !t.digit(u[m]))
    decreases n
  {
    hide OctetsLen;
    OctetsUnfold(t, u, n);
    var r := Run(t, Digit, u);
    forall k | 0 <= k < r ensures t.digit(u[k]) { assert In(t, Digit, u[k]); }
    if n > 1 {
      var v := u[r + 1..];
      OctetsShape(t, v, n - 1);
      var m := OctetsLen(t, v, n - 1);
      forall k | 0 <= k < r + 1 + m ensures Dotted(t, u[k]) {
        if k > r { assert u[k] == v[k - r - 1]; }
      }
    }
  }

  /** Octets are decided by their own characters and by no digit following. */
  lemma {:induction false} OctetsLocal(t: CharTable, u: string, v: string, n: nat)
    requires t.Valid() && n >= 1 && OctetsLen(t, u, n) > 0
    requires OctetsLen(t, u, n) <= |v| && v[..OctetsLen(t, u, n)] == u[..OctetsLen(t, u, n)]
    requires OctetsLen(t, u, n) < |v| ==> !t.digit(v[OctetsLen(t, u, n)])
    ensures OctetsLen(t, v, n) == OctetsLen(t, u, n)
    decreases n
  {
    hide OctetsLen;
    var m := OctetsLen(t, u, n);
    var r := Run(t, Digit, u);
    OctetsUnfold(t, u, n);
    RunLocal(t, u, v, m);
    OctetsUnfold(t, v, n);
    if n > 1 {
      SuffixLocal(u, v, r + 1, m);
      OctetsLocal(t, u[r + 1..], v[r + 1..], n - 1);
    }
  }

  lemma SuffixLocal(u: string, v: string, skip: nat, m: nat)
    requires skip <= m <= |u| && m <= |v| && v[..m] == u[..m]
    ensures v[skip..][..m - skip] == u[skip..][..m - skip]
    ensures forall k :: 0 <= k < m ==> v[k] == u[k]
  {
    assert v[skip..][..m - skip] == v[..m][skip..];
    assert u[skip..][..m - skip] == u[..m][skip..];
    forall k | 0 <= k < m ensures v[k] == u[k] { assert v[k] == v[..m][k] && u[k] == u[..m][k]; }
  }

  /** The digit run that opens an address is the same in any text with the same address. */
  lemma RunLocal(t: CharTable, u: string, v: string, m: nat)
    requires 0 < m <= |u| && m <= |v| && v[..m] == u[..m]
    requires Run(t, Digit, u) <= m
    requires Run(t, Digit, u) == m ==> m < |v| ==> !t.digit(v[m])
    ensures Run(t, Digit, v) == Run(t, Digit, u)
  {
    var r := Run(t, Digit, u);
    SuffixLocal(u, v, 0, m);
    forall k | 0 <= k < r ensures In(t, Digit, v[k]) { assert In(t, Digit, u[k]); }
    RunIs(t, Digit, v, r);
  }

  /** The part of an address before its octet runs: `10.`, `192.168.` or `172.xx.`. */
  predicate Opens(t: CharTable, u: string, skip: nat, n: nat) {
    || (skip == 3 && n == 3 && "10." <= u)
    || (skip == 8 && n == 2 && "192.168." <= u)
    || (skip == 7 && n == 2 && "172." <= u && |u| >= 7 && Second172(t, u[4], u[5]) && u[6] == '.')
  }

  lemma OpensIsLocal(t: CharTable, u: string, v: string, skip: nat, n: nat, m: nat)
    requires t.Valid() && Opens(t, u, skip, n)
    requires skip <= m <= |u| && m <= |v| && v[..m] == u[..m]
    ensures Opens(t, v, skip, n)
    ensures u[0] == '1' && forall k :: 0 <= k < skip ==> Dotted(t, u[k])
  {
    SuffixLocal(u, v, 0, m);
    PrefixesExclude(u);
    if skip == 3 {
      assert u[..3] == "10." && v[..3] == "10.";
    } else if skip == 8 {
      assert u[..8] == "192.168." && v[..8] == "192.168.";
    } else {
      assert u[..4] == "172." && v[..4] == "172.";
      assert u[..7] == u[..4] + [u[4], u[5], u[6]];
    }
  }

  lemma BodyUnfold(t: CharTable, prev: bool, u: string)
    ensures IpBody(t, prev, u) > 0 ==>
      && !prev
      && (exists skip: nat, n: nat ::
            skip <= |u| && n >= 1 && Opens(t, u, skip, n)
            && IpBody(t, prev, u) == Behind(skip, OctetsLen(t, u[skip..], n)))
    ensures forall skip: nat, n: nat :: !prev && skip <= |u| && n >= 1 && Opens(t, u, skip, n) ==>
      IpBody(t, prev, u) == Behind(skip, OctetsLen(t, u[skip..], n))
  {
    hide OctetsLen, Behind, Second172;
    PrefixesExclude(u);
    if !prev {
      if "10." <= u { assert Opens(t, u, 3, 3); }
      else if "192.168." <= u { assert Opens(t, u, 8, 2); }
      else if "172." <= u && |u| >= 7 && Second172(t, u[4], u[5]) && u[6] == '.' { assert Opens(t, u, 7, 2); }
    }
    BehindZero();
  }

  lemma BehindZero()
    ensures forall skip: nat :: Behind(skip, 0) == 0
  {
  }

  /** An address is digits and dots, starts with a `1` after a non-word character and ends in a digit. */
  lemma BodyShape(t: CharTable, prev: bool, u: string)
    requires t.Valid() && IpBody(t, prev, u) > 0
    ensures var m := IpBody(t, prev, u);
      && !prev && u[0] == '1' && t.digit(u[m - 1])
      && (forall k :: 0 <= k < m ==> Dotted(t, u[k]))
      && (m < |u| ==> !t.digit(u[m]))
  {
    hide IpBody, OctetsLen;
    BodyUnfold(t, prev, u);
    var skip: nat, n: nat :| skip <= |u| && n >= 1 && Opens(t, u, skip, n)
      && IpBody(t, prev, u) == Behind(skip, OctetsLen(t, u[skip..], n));
    var m := OctetsLen(t, u[skip..], n);
    OctetsShape(t, u[skip..], n);
    OpensIsLocal(t, u, u, skip, n, skip + m);
    forall k | 0 <= k < skip + m ensures Dotted(t, u[k]) {
      if k >= skip { assert u[k] == u[skip..][k - skip]; }
    }
  }

  /** An address is decided by its own characters, the character before it and no digit following. */
  lemma BodyLocal(t: CharTable, prev: bool, u: string, v: string)
    requires t.Valid() && IpBody(t, prev, u) > 0
    requires IpBody(t, prev, u) <= |v| && v[..IpBody(t, prev, u)] == u[..IpBody(t, prev, u)]
    requires IpBody(t, prev, u) < |v| ==> !t.digit(v[IpBody(t, prev, u)])
    ensures IpBody(t, prev, v) == IpBody(t, prev, u)
  {
    hide IpBody, OctetsLen, Opens;
    BodyUnfold(t, prev, u);
    BodyUnfold(t, prev, v);
    var skip: nat, n: nat :| skip <= |u| && n >= 1 && Opens(t, u, skip, n)
      && IpBody(t, prev, u) == Behind(skip, OctetsLen(t, u[skip..], n));
    var m := OctetsLen(t, u[skip..], n);
    SuffixLocal(u, v, skip, skip + m);
    OpensIsLocal(t, u, v, skip, n, skip + m);
    OctetsLocal(t, u[skip..], v[skip..], n);
  }

  // ----- What survives a pass -----

  function LastWord(t: CharTable, prev: bool, u: string): bool { if u == "" then prev else t.word(u[|u| - 1]) }

  /** Output of the first pass without an opening bracket is copied input. */
  lemma {:induction false} FirstPassCopies(t: CharTable, prev: bool, u: string, n: nat)
    requires n <= |RedactIps(t, prev, u)| && '[' !in RedactIps(t, prev, u)[..n]
    ensures n <= |u| && u[..n] == RedactIps(t, prev, u)[..n]
    ensures RedactIps(t, prev, u)[n..] == RedactIps(t, LastWord(t, prev, u[..n]), u[n..])
    decreases n
  {
    hide IpLen, RedactIps;
    var out := RedactIps(t, prev, u);
    if n == 0 {
      assert u[0..] == u && out[0..] == out;
    } else {
      assert out[0] in out[..n];
      FirstPassHead(t, prev, u);
      var rest := RedactIps(t, t.word(u[0]), u[1..]);
      assert out[..n] == [u[0]] + rest[..n - 1];
      FirstPassCopies(t, t.word(u[0]), u[1..], n - 1);
      LastWordStep(t, prev, u, n);
    }
  }

  lemma FirstPassHead(t: CharTable, prev: bool, u: string)
    requires RedactIps(t, prev, u) != "" && RedactIps(t, prev, u)[0] != '['
    ensures u != "" && IpLen(t, prev, u) == 0
    ensures RedactIps(t, prev, u) == [u[0]] + RedactIps(t, t.word(u[0]), u[1..])
  {
    hide IpLen;
    assert IP_MARK[0] == '[';
  }

  lemma LastWordStep(t: CharTable, prev: bool, u: string, n: nat)
    requires 1 <= n <= |u|
    ensures u[..n] == [u[0]] + u[1..][..n - 1] && u[1..][n - 1..] == u[n..]
    ensures LastWord(t, t.word(u[0]), u[1..][..n - 1]) == LastWord(t, prev, u[..n])
  {
  }

  /** Output of the second pass without an opening bracket is copied input. */
  lemma {:induction false} SecondPassCopies(t: CharTable, u: string, n: nat)
    requires n <= |RedactPaths(t, u)| && '[' !in RedactPaths(t, u)[..n]
    ensures n <= |u| && u[..n] == RedactPaths(t, u)[..n]
    ensures RedactPaths(t, u)[n..] == RedactPaths(t, u[n..])
    decreases n
  {
    hide PathLen, RedactPaths;
    var out := RedactPaths(t, u);
    if n == 0 {
      assert u[0..] == u && out[0..] == out;
    } else {
      assert out[0] in out[..n];
      SecondPassHead(t, u);
      var rest := RedactPaths(t, u[1..]);
      assert out[..n] == [u[0]] + rest[..n - 1];
      SecondPassCopies(t, u[1..], n - 1);
      LastWordStep(t, false, u, n);
    }
  }

  lemma SecondPassHead(t: CharTable, u: string)
    requires RedactPaths(t, u) != "" && RedactPaths(t, u)[0] != '['
    ensures u != "" && PathLen(t, u) == 0 && RedactPaths(t, u) == [u[0]] + RedactPaths(t, u[1..])
  {
    hide PathLen;
    assert PATH_MARK[0] == '[';
  }

  /** No address starts inside `m`: every `1` in it stands behind a word character. */
  predicate Inert(t: CharTable, prev: bool, m: string)
    decreases |m|
  {
    m == "" || ((prev || m[0] != '1') && Inert(t, t.word(m[0]), m[1..]))
  }

  lemma {:induction false} IpFreeAfterInert(t: CharTable, prev: bool, m: string, x: string)
    requires t.Valid() && Inert(t, prev, m)
    ensures IpFree(t, prev, m + x) <==> IpFree(t, LastWord(t, prev, m), x)
    decreases |m|
  {
    hide IpLen;
    if m == "" {
      assert m + x == x;
    } else {
      IpFreeAfterInert(t, t.word(m[0]), m[1..], x);
      assert (m + x)[1..] == m[1..] + x;
      assert LastWord(t, t.word(m[0]), m[1..]) == LastWord(t, prev, m);
      NoOneNoAddress(t, prev, m + x);
    }
  }

  lemma NoOneNoAddress(t: CharTable, prev: bool, u: string)
    requires t.Valid() && (prev || u == "" || u[0] != '1')
    ensures IpBody(t, prev, u) == 0 && IpLen(t, prev, u) == 0
  {
    PrefixesExclude(u);
  }

  lemma {:induction false} InertIf(t: CharTable, prev: bool, m: string)
    requires m != "" && m[0] == '1' ==> prev
    requires forall k :: 1 <= k < |m| && m[k] == '1' ==> t.word(m[k - 1])
    ensures Inert(t, prev, m)
    decreases |m|
  {
    if m != "" {
      assert forall k :: 1 <= k < |m[1..]| ==> m[1..][k] == m[k + 1];
      if |m| > 1 && m[1] == '1' { assert t.word(m[1 - 1]); }
      forall k | 1 <= k < |m[1..]| && m[1..][k] == '1' ensures t.word(m[1..][k - 1]) {
        assert m[k + 1] == '1' && t.word(m[k + 1 - 1]);
      }
      InertIf(t, t.word(m[0]), m[1..]);
    }
  }

  lemma MarksAreInert(t: CharTable, prev: bool)
    requires t.Valid()
    ensures Inert(t, prev, IP_MARK) && !LastWord(t, prev, IP_MARK)
    ensures Inert(t, prev, PATH_MARK) && !LastWord(t, prev, PATH_MARK)
  {
    hide Inert;
    assert IP_MARK[12] == 'C' && IP_MARK[13] == '1' && IP_MARK[14] == '9' && IP_MARK[15] == '1';
    forall k | 0 <= k < |IP_MARK| && IP_MARK[k] == '1' ensures k > 0 && t.word(IP_MARK[k - 1]) {
      assert k == 13 || k == 15;
    }
    InertIf(t, prev, IP_MARK);
    assert IP_MARK[|IP_MARK| - 1] == ']' && PATH_MARK[|PATH_MARK| - 1] == ']';
    forall k | 0 <= k < |PATH_MARK| ensures PATH_MARK[k] != '1' {
    }
    InertIf(t, prev, PATH_MARK);
  }

  // ----- The first pass is complete -----

  /** A removed address is followed by no word character, so the next scan starts at a true edge. */
  lemma AddressEndsAtEdge(t: CharTable, prev: bool, u: string)
    requires t.Valid() && IpLen(t, prev, u) > 0
    ensures var n := IpLen(t, prev, u); t.word(u[n - 1]) && !StartsWithWord(t, u[n..])
  {
    BodyShape(t, prev, u);
  }

  lemma FirstPassNext(t: CharTable, prev: bool, u: string)
    requires u != "" && IpLen(t, prev, u) == 0
    ensures RedactIps(t, prev, u) != "" && RedactIps(t, prev, u)[0] == u[0]
  {
  }

  /** Copying a character in front of redacted text creates no address. */
  lemma HeadStaysFree(t: CharTable, prev: bool, u: string)
    requires t.Valid() && u != "" && IpLen(t, prev, u) == 0
    ensures IpLen(t, prev, RedactIps(t, prev, u)) == 0
  {
    hide RedactIps, IpBody;
    var out := RedactIps(t, prev, u);
    var n := IpLen(t, prev, out);
    if n > 0 {
      BodyShape(t, prev, out);
      assert '[' !in out[..n];
      FirstPassCopies(t, prev, u, n);
      assert u[n - 1] == u[..n][n - 1] == out[n - 1];
      if n < |u| {
        NoOneNoAddress(t, true, u[n..]);
        FirstPassNext(t, true, u[n..]);
        assert u[n..][0] == u[n] && out[n..][0] == out[n];
      }
      BodyLocal(t, prev, out, u);
      assert false;
    }
  }

  lemma IpFreeStep(t: CharTable, prev: bool, u: string)
    ensures u == "" ==> IpFree(t, prev, u)
    ensures u != "" && IpLen(t, prev, u) == 0 ==> (IpFree(t, prev, u) <==> IpFree(t, t.word(u[0]), u[1..]))
  {
    hide IpLen;
  }

  /** Removed: the mark is inert, and what follows is redacted from a true edge on. */
  lemma RemovedStaysFree(t: CharTable, prev: bool, prev': bool, u: string)
    requires t.Valid() && u != "" && IpLen(t, prev, u) > 0
    requires IpFree(t, false, RedactIps(t, true, u[IpLen(t, prev, u)..]))
    ensures IpFree(t, prev', RedactIps(t, prev, u))
  {
    hide IpLen, RedactIps, IpFree, Inert, IP_MARK;
    AddressEndsAtEdge(t, prev, u);
    MarksAreInert(t, prev');
    RedactIpsStep(t, prev, u);
    IpFreeAfterInert(t, prev', IP_MARK, RedactIps(t, true, u[IpLen(t, prev, u)..]));
  }

  /** Copied: no address starts at the copied character, in the output as in the input. */
  lemma CopiedStaysFree(t: CharTable, prev: bool, prev': bool, u: string)
    requires t.Valid() && u != "" && IpLen(t, prev, u) == 0
    requires prev' == prev || (!prev' && !StartsWithWord(t, u))
    requires IpFree(t, t.word(u[0]), RedactIps(t, t.word(u[0]), u[1..]))
    ensures IpFree(t, prev', RedactIps(t, prev, u))
  {
    hide IpLen, RedactIps, IpFree;
    RedactIpsStep(t, prev, u);
    var rest := RedactIps(t, t.word(u[0]), u[1..]);
    var out := [u[0]] + rest;
    assert out[1..] == rest;
    if prev' == prev { HeadStaysFree(t, prev, u); } else { NoOneNoAddress(t, prev', out); }
    IpFreeStep(t, prev', out);
  }

  lemma {:induction false} FirstPassLeavesNoAddress(t: CharTable, prev: bool, prev': bool, u: string)
    requires t.Valid()
    requires prev' == prev || (!prev' && !StartsWithWord(t, u))
    ensures IpFree(t, prev', RedactIps(t, prev, u))
    decreases |u|
  {
    hide IpLen, RedactIps, IpFree;
    if u == "" {
      NothingRedacted(t, prev);
      IpFreeStep(t, prev', "");
    } else {
      var n := IpLen(t, prev, u);
      if n > 0 {
        AddressEndsAtEdge(t, prev, u);
        FirstPassLeavesNoAddress(t, true, false, u[n..]);
        RemovedStaysFree(t, prev, prev', u);
      } else {
        FirstPassLeavesNoAddress(t, t.word(u[0]), t.word(u[0]), u[1..]);
        CopiedStaysFree(t, prev, prev', u);
      }
    }
  }
}
