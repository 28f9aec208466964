/**
 What the two patterns of `sanitize_privacy` match, said of the text itself: which stretches are private addresses,
 which are user paths, and what replacing them all leaves.
 */
module Patterns {
  import opened Regex
  import opened Sanitizer

  // ----- Addresses -----

  predicate Octet(t: CharTable, x: string) {
    1 <= |x| <= 3 && forall k :: 0 <= k < |x| ==> t.digit(x[k])
  }

  /** `n` octets with dots between them. */
  ghost predicate Dotted(t: CharTable, x: string, n: nat)
    decreases n
  {
    if n <= 1 then n == 1 && Octet(t, x)
    else exists k :: 0 <= k < |x| && x[k] == '.' && Octet(t, x[..k]) && Dotted(t, x[k + 1..], n - 1)
  }

  lemma OctetRun(t: CharTable, u: string, m: nat)
    requires m <= |u| && (m < |u| ==> !t.digit(u[m]))
    ensures Octet(t, u[..m]) <==> Run(t, Digit, u) == m && 1 <= m <= 3
  {
    var r := Run(t, Digit, u);
    if Octet(t, u[..m]) {
      assert forall k :: 0 <= k < m ==> u[k] == u[..m][k];
      RunIs(t, Digit, u, m);
    }
  }

  lemma DottedOne(t: CharTable, x: string)
    ensures Dotted(t, x, 1) <==> Octet(t, x)
  {
  }

  lemma DottedMore(t: CharTable, x: string, n: nat, k: nat)
    requires n >= 2 && k < |x| && x[k] == '.' && Octet(t, x[..k]) && Dotted(t, x[k + 1..], n - 1)
    ensures Dotted(t, x, n)
  {
  }

  lemma DottedSplit(t: CharTable, x: string, n: nat) returns (k: nat)
    requires n >= 2 && Dotted(t, x, n)
    ensures k < |x| && x[k] == '.' && Octet(t, x[..k]) && Dotted(t, x[k + 1..], n - 1) && k + 1 < |x|
  {
    k :| 0 <= k < |x| && x[k] == '.' && Octet(t, x[..k]) && Dotted(t, x[k + 1..], n - 1);
    DottedIsSomething(t, x[k + 1..], n - 1);
  }

  lemma OneOctetMeaning(t: CharTable, u: string, m: nat)
    requires t.Valid() && 0 < m <= |u| && !StartsWithWord(t, u[m..])
    ensures OctetsLen(t, u, 1) == m <==> Octet(t, u[..m])
  {
    hide Run, Octet;
    if m < |u| { assert u[m..][0] == u[m]; }
    OctetRun(t, u, m);
  }

  /** The text in front of position `m`, cut after the dot at `k`. */
  lemma CutAt(u: string, m: nat, k: nat)
    requires k < m <= |u|
    ensures u[..m][..k] == u[..k] && u[..m][k] == u[k] && u[..m][k + 1..] == u[k + 1..][..m - k - 1]
    ensures u[k + 1..][m - k - 1..] == u[m..]
  {
  }

  lemma {:induction false} OctetsMeaning(t: CharTable, u: string, n: nat, m: nat)
    requires t.Valid() && n >= 1 && 0 < m <= |u| && !StartsWithWord(t, u[m..])
    ensures OctetsLen(t, u, n) == m <==> Dotted(t, u[..m], n)
    decreases n
  {
    hide Run, Octet, Dotted, OctetsLen, StartsWithWord;
    if n == 1 {
      OneOctetMeaning(t, u, m);
      DottedOne(t, u[..m]);
    } else {
      OctetsUnfolds(t, u, n);
      if OctetsLen(t, u, n) == m {
        var r := Run(t, Digit, u);
        CutAt(u, m, r);
        OctetsMeaning(t, u[r + 1..], n - 1, m - r - 1);
        OctetRun(t, u, r);
        DottedMore(t, u[..m], n, r);
      } else if Dotted(t, u[..m], n) {
        var k := DottedSplit(t, u[..m], n);
        CutAt(u, m, k);
        OctetRun(t, u, k);
        OctetsMeaning(t, u[k + 1..], n - 1, m - k - 1);
      }
    }
  }

  lemma DottedIsSomething(t: CharTable, x: string, n: nat)
    requires Dotted(t, x, n)
    ensures x != ""
  {
  }

  /** `skip` characters and then dotted octets. */
  lemma BehindMeaning(t: CharTable, u: string, skip: nat, n: nat, m: nat)
    requires t.Valid() && n >= 1 && 0 < m <= |u| && skip <= |u| && !StartsWithWord(t, u[m..])
    ensures Behind(skip, OctetsLen(t, u[skip..], n)) == m <==> skip <= m && Dotted(t, u[..m][skip..], n)
  {
    hide OctetsLen, Dotted;
    if skip < m {
      assert u[skip..][m - skip..] == u[m..] && u[..m][skip..] == u[skip..][..m - skip];
      OctetsMeaning(t, u[skip..], n, m - skip);
    } else if skip == m && Dotted(t, u[..m][skip..], n) {
      DottedIsSomething(t, u[..m][skip..], n);
    }
  }

  /** The three kinds of private address, without the boundaries around them. */
  ghost predicate PrivateAddress(t: CharTable, x: string) {
    || ("10." <= x && Dotted(t, x[3..], 3))
    || ("192.168." <= x && Dotted(t, x[8..], 2))
    || ("172." <= x && |x| > 6 && x[6] == '.' && Dotted(t, x[7..], 2)
        && ((x[4] == '1' && x[5] in "6789") || (x[4] == '2' && t.digit(x[5])) || (x[4] == '3' && x[5] in "01")))
  }

  lemma SecondMeans(t: CharTable, c: char, d: char)
    ensures Second172(t, c, d) <==>
        (c == '1' && d in "6789") || (c == '2' && t.digit(d)) || (c == '3' && d in "01")
  {
    assert '6' <= d <= '9' <==> d == '6' || d == '7' || d == '8' || d == '9';
    assert '0' <= d <= '1' <==> d == '0' || d == '1';
  }

  lemma PrefixOfTake(w: string, u: string, m: nat)
    requires m <= |u| && |w| <= m
    ensures w <= u[..m] <==> w <= u
  {
  }

  lemma BodyMeaning(t: CharTable, u: string, m: nat)
    requires t.Valid() && 0 < m <= |u| && !StartsWithWord(t, u[m..])
    ensures IpBody(t, false, u) == m <==> PrivateAddress(t, u[..m])
  {
    hide OctetsLen, Dotted, Second172, Behind;
    var x := u[..m];
    PrefixesExclude(u);
    PrefixesExclude(x);
    assert x + u[m..] == u;
    if "10." <= u {
      BehindMeaning(t, u, 3, 3, m);
      if 3 <= m { PrefixOfTake("10.", u, m); }
    } else if "192.168." <= u {
      BehindMeaning(t, u, 8, 2, m);
      if 8 <= m { PrefixOfTake("192.168.", u, m); }
    } else if "172." <= u && |u| >= 7 {
      BehindMeaning(t, u, 7, 2, m);
      SecondMeans(t, u[4], u[5]);
      BehindZero(t, u, m);
      if 7 <= m { PrefixOfTake("172.", u, m); }
    }
  }

  lemma BehindZero(t: CharTable, u: string, m: nat)
    requires |u| >= 7
    ensures Behind(7, OctetsLen(t, u[7..], 2)) == m ==> m == 0 || m > 7
  {
    hide OctetsLen;
  }

  /** A private address from `i` to `j`, with no word character on either side. */
  ghost predicate AddressAt(t: CharTable, s: string, i: nat, j: nat) {
    i < j <= |s| && (i == 0 || !t.word(s[i - 1])) && (j == |s| || !t.word(s[j])) && PrivateAddress(t, s[i..j])
  }

  /**
   The address pattern matches the stretch from `i` to `j` iff it is `10.`, `192.168.` or `172.16.` to `172.31.`
   followed by the octets that complete it, with no word character on either side.
   */
  lemma AddressMeaning(t: CharTable, s: string, i: nat, j: nat)
    requires t.Valid() && i < j <= |s|
    ensures HitEnd(t, IpPattern(), s, i) == j <==> AddressAt(t, s, i, j)
  {
    hide HitEnd, IpPattern, IpBody, PrivateAddress;
    IpHit(t, s, i);
    var u, m := s[i..], j - i;
    assert u[..m] == s[i..j] && u[m..] == s[j..];
    if j < |s| { assert s[j..][0] == s[j]; }
    if !StartsWithWord(t, u[m..]) && !WordAt(t, s, i - 1) { BodyMeaning(t, u, m); }
    BodyNeeds(t, u);
  }

  lemma BodyNeeds(t: CharTable, u: string)
    ensures IpBody(t, true, u) == 0
  {
  }

  // ----- User paths -----

  predicate NameChar(c: char) {
    'a' <= c <= 'z' || 'A' <= c <= 'Z' || '0' <= c <= '9' || c == '_' || c == '-'
  }

  /** A whole name: at least one character, and none left out at the end. */
  predicate WholeName(s: string, from: nat, to: nat) {
    from < to <= |s| && (forall k :: from <= k < to ==> NameChar(s[k])) && (to < |s| ==> !NameChar(s[to]))
  }

  predicate WordThere(t: CharTable, w: string, s: string, i: nat) {
    i <= |s| && w <= s[i..] && (i + |w| == |s| || !t.word(s[i + |w|]))
  }

  lemma NameMeaning(t: CharTable, s: string, i: nat, skip: nat, j: nat)
    requires i + skip <= |s| && i < j <= |s|
    ensures Behind(skip, NameRun(t, s[i..][skip..])) == j - i <==> WholeName(s, i + skip, j)
  {
    hide Run, NameSet;
    var u := s[i..][skip..];
    assert u == s[i + skip..];
    forall c ensures In(t, NameSet(), c) <==> NameChar(c) { NameSetMeans(t, c); }
    var n := Run(t, NameSet(), u);
    assert forall k :: 0 <= k < |u| ==> u[k] == s[i + skip + k];
    if Behind(skip, n) == j - i {
      forall k | i + skip <= k < j ensures NameChar(s[k]) { assert In(t, NameSet(), u[k - i - skip]); }
    }
    if WholeName(s, i + skip, j) { RunIs(t, NameSet(), u, j - i - skip); }
  }

  lemma NameSetMeans(t: CharTable, c: char)
    ensures In(t, NameSet(), c) <==> NameChar(c)
  {
    var marks := Either(One('_'), One('-'));
    var digits := Either(Range('0', '9'), marks);
    assert In(t, marks, c) <==> c == '_' || c == '-';
    var upper := Either(Range('A', 'Z'), digits);
    assert In(t, digits, c) <==> '0' <= c <= '9' || In(t, marks, c);
    assert In(t, upper, c) <==> 'A' <= c <= 'Z' || In(t, digits, c);
    assert NameSet() == Either(Range('a', 'z'), upper);
  }

  lemma ExemptMeans(t: CharTable, s: string, i: nat)
    requires i <= |s|
    ensures Exempt(t, s[i..]) <==>
        WordThere(t, "ubuntu", s, i) || WordThere(t, "username", s, i) || WordThere(t, "runner", s, i)
  {
    hide ExemptWord, WordThere;
    ExemptWordMeans(t, "ubuntu", s, i);
    ExemptWordMeans(t, "username", s, i);
    ExemptWordMeans(t, "runner", s, i);
  }

  lemma ExemptWordMeans(t: CharTable, w: string, s: string, i: nat)
    requires i <= |s|
    ensures ExemptWord(t, w, s[i..]) <==> WordThere(t, w, s, i)
  {
    if w <= s[i..] {
      assert s[i..][|w|..] == s[i + |w|..];
      if i + |w| < |s| { assert s[i + |w|..][0] == s[i + |w|]; }
    }
  }

  /** A user path from `i` to `j`. */
  predicate PathAt(t: CharTable, s: string, i: nat, j: nat) {
    i < j <= |s| &&
    (|| ("/Users/" <= s[i..] && WholeName(s, i + 7, j))
     || (AsciiLetter(s[i]) && ":\\Users\\" <= s[i + 1..] && WholeName(s, i + 9, j))
     || ("/home/" <= s[i..] && WholeName(s, i + 6, j)
         && !WordThere(t, "ubuntu", s, i + 6) && !WordThere(t, "username", s, i + 6)
         && !WordThere(t, "runner", s, i + 6)))
  }

  /**
   The path pattern matches the stretch from `i` to `j` iff it is `/home/`, `/Users/` or a drive letter with
   `:\Users\` and then the whole of a name, except that no path below `/home/` starts with the words `ubuntu`,
   `username` or `runner`.
   */
  lemma PathMeaning(t: CharTable, s: string, i: nat, j: nat)
    requires t.Valid() && i < j <= |s|
    ensures HitEnd(t, PathPattern(), s, i) == j <==> PathAt(t, s, i, j)
  {
    hide HitEnd, PathPattern, HomeLen, UsersLen, DriveLen, PathLen, WholeName, WordThere, AsciiLetter;
    PathHit(t, s, i);
    PathCases(t, s[i..]);
    Prefixes(s, i);
    HomeMeaning(t, s, i, j);
    UsersMeaning(t, s, i, j);
    DriveMeaning(t, s, i, j);
  }

  lemma Prefixes(s: string, i: nat)
    requires i < |s|
    ensures "/home/" <= s[i..] ==> s[i] == '/' && !("/Users/" <= s[i..])
    ensures "/Users/" <= s[i..] ==> s[i] == '/'
    ensures s[i] == s[i..][0] && !AsciiLetter('/')
  {
    if "/home/" <= s[i..] { assert s[i..][0] == '/' && s[i..][1] == 'h'; }
    if "/Users/" <= s[i..] { assert s[i..][0] == '/' && s[i..][1] == 'U'; }
  }

  lemma HomeMeaning(t: CharTable, s: string, i: nat, j: nat)
    requires i < j <= |s|
    ensures HomeLen(t, s[i..]) == j - i <==>
      ("/home/" <= s[i..] && WholeName(s, i + 6, j)
       && !WordThere(t, "ubuntu", s, i + 6) && !WordThere(t, "username", s, i + 6)
       && !WordThere(t, "runner", s, i + 6))
  {
    hide WholeName, WordThere, Exempt, NameRun, Behind;
    if "/home/" <= s[i..] {
      assert s[i..][6..] == s[i + 6..];
      ExemptMeans(t, s, i + 6);
      NameMeaning(t, s, i, 6, j);
    }
  }

  lemma UsersMeaning(t: CharTable, s: string, i: nat, j: nat)
    requires i < j <= |s|
    ensures UsersLen(t, s[i..]) == j - i <==> "/Users/" <= s[i..] && WholeName(s, i + 7, j)
  {
    hide WholeName, NameRun, Behind;
    if "/Users/" <= s[i..] { NameMeaning(t, s, i, 7, j); }
  }

  lemma DriveMeaning(t: CharTable, s: string, i: nat, j: nat)
    requires i < j <= |s|
    ensures DriveLen(t, s[i..]) == j - i <==>
      AsciiLetter(s[i]) && ":\\Users\\" <= s[i + 1..] && WholeName(s, i + 9, j)
  {
    hide WholeName, NameRun, Behind, AsciiLetter;
    assert s[i..][1..] == s[i + 1..];
    if ":\\Users\\" <= s[i + 1..] { NameMeaning(t, s, i, 9, j); }
  }

  // ----- The whole of `sanitize_privacy` -----

  lemma MatchIsHit(t: CharTable, s: string, i: nat)
    requires t.Valid() && i <= |s|
    ensures Ends(t, IpPattern(), s, i) == [] <==> HitEnd(t, IpPattern(), s, i) == i
    ensures Ends(t, PathPattern(), s, i) == [] <==> HitEnd(t, PathPattern(), s, i) == i
    ensures i == |s| ==> Ends(t, IpPattern(), s, i) == [] && Ends(t, PathPattern(), s, i) == []
  {
    hide Ends, IpPattern, PathPattern, IpLen, PathLen;
    IpAgrees(t, s, i);
    PathAgrees(t, s, i);
  }

  /** A text is clean iff no stretch of it is a private address or a user path. */
  lemma CleanMeaning(t: CharTable, s: string)
    requires t.Valid()
    ensures Clean(t, s) <==> forall i: nat, j: nat :: !AddressAt(t, s, i, j) && !PathAt(t, s, i, j)
  {
    hide Ends, HitEnd, IpPattern, PathPattern, AddressAt, PathAt;
    if Clean(t, s) {
      forall i: nat, j: nat ensures !AddressAt(t, s, i, j) && !PathAt(t, s, i, j) {
        Inside(t, s, i, j);
        if i < j <= |s| {
          MatchIsHit(t, s, i);
          AddressMeaning(t, s, i, j);
          PathMeaning(t, s, i, j);
        }
      }
    }
    if forall i: nat, j: nat :: !AddressAt(t, s, i, j) && !PathAt(t, s, i, j) {
      forall i: nat | i <= |s| ensures Ends(t, IpPattern(), s, i) == [] && Ends(t, PathPattern(), s, i) == [] {
        MatchIsHit(t, s, i);
        var j, k := HitEnd(t, IpPattern(), s, i), HitEnd(t, PathPattern(), s, i);
        if i < j { AddressMeaning(t, s, i, j); }
        if i < k { PathMeaning(t, s, i, k); }
      }
    }
  }

  lemma Inside(t: CharTable, s: string, i: nat, j: nat)
    ensures AddressAt(t, s, i, j) || PathAt(t, s, i, j) ==> i < j <= |s|
  {
  }

  /**
   Each address becomes `[REDACTED-RFC1918-IP]`, then each path of the result `[REDACTED-USER-PATH]`, and what
   stands between is copied in order.
   */
  lemma SanitizeReplaces(t: CharTable, s: string, ips: seq<Hit>, paths: seq<Hit>)
    requires Leftmost(t, IpPattern(), s, 0, ips)
    requires Leftmost(t, PathPattern(), Splice("[REDACTED-RFC1918-IP]", s, 0, ips), 0, paths)
    ensures SanitizePrivacy(t, s) ==
        Splice("[REDACTED-USER-PATH]", Splice("[REDACTED-RFC1918-IP]", s, 0, ips), 0, paths)
  {
    hide Leftmost, Splice, Sub, IpPattern, PathPattern;
    SubReplacesLeftmostMatches(t, IpPattern(), IP_MARK, s, ips);
    SubReplacesLeftmostMatches(t, PathPattern(), PATH_MARK, FirstPass(t, s), paths);
  }
}
