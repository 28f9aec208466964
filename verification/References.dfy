/**
 What the pull-request gate accepts, said of the metadata itself: what a reference to an issue or an epic is, and
 which labels and milestones pass.
 */
module References {
  import opened Regex
  import opened Tracker

  // ----- What a reference is -----

  /** `d` is `c`, its capital, or the long s for an `s`. */
  predicate SameLetter(c: char, d: char) {
    d == c || ('a' <= c <= 'z' && d == c - 'a' + 'A') || (c == 's' && d == '\U{17F}')
  }

  /** `s` continues at `i` with `word`, in either case. */
  predicate Spells(word: string, s: string, i: nat) {
    i + |word| <= |s| && forall k :: 0 <= k < |word| ==> SameLetter(word[k], s[i + k])
  }

  predicate DigitAt(s: string, i: nat) { i < |s| && '0' <= s[i] <= '9' }

  predicate BlankAt(s: string, i: nat) { i < |s| && s[i] in {' ', '\t', '\n', '\U{C}', '\r'} }

  predicate RepoCharAt(s: string, i: nat) {
    i < |s| && ('a' <= s[i] <= 'z' || 'A' <= s[i] <= 'Z' || '0' <= s[i] <= '9'
                || s[i] in {'_', '-', '.', '/', '\U{17F}', '\U{212A}'})
  }

  /** `#` and a digit, with or without a repository in front, or `EPIC-` and a digit. */
  ghost predicate TargetAt(s: string, i: nat) {
    || (exists j: nat ::
          i <= j < |s| && s[j] == '#' && DigitAt(s, j + 1) && forall k :: i <= k < j ==> RepoCharAt(s, k))
    || (Spells("epic-", s, i) && DigitAt(s, i + 5))
  }

  /** `word` in either case, at least one blank, and a target. */
  ghost predicate WordAndTarget(word: string, s: string, i: nat) {
    && Spells(word, s, i)
    && exists j: nat :: i + |word| < j <= |s| && TargetAt(s, j) && forall k :: i + |word| <= k < j ==> BlankAt(s, k)
  }

  ghost predicate ReferenceAt(s: string, i: nat) {
    || WordAndTarget("fixes", s, i)
    || WordAndTarget("closes", s, i)
    || WordAndTarget("resolves", s, i)
    || WordAndTarget("relates to", s, i)
    || WordAndTarget("ref", s, i)
  }

  // ----- The scan finds just that -----

  predicate Small(word: string) {
    forall k :: 0 <= k < |word| ==> word[k] in {' ', '-'} || 'a' <= word[k] <= 'z'
  }

  lemma LetterMeaning(t: CharTable, c: char, d: char)
    requires c in {' ', '-'} || 'a' <= c <= 'z'
    ensures In(t, Folded(c), d) <==> SameLetter(c, d)
  {
    if 'a' <= c <= 'z' { FoldedLetter(t, c, d); }
  }

  lemma SpellsStep(word: string, s: string, i: nat)
    requires word != "" && i < |s|
    ensures Spells(word, s, i) <==> SameLetter(word[0], s[i]) && Spells(word[1..], s, i + 1)
  {
    hide SameLetter;
    if SameLetter(word[0], s[i]) && Spells(word[1..], s, i + 1) {
      forall k | 0 <= k < |word| ensures SameLetter(word[k], s[i + k]) {
        if k > 0 { assert SameLetter(word[1..][k - 1], s[i + 1 + (k - 1)]); }
      }
    }
    if Spells(word, s, i) {
      assert SameLetter(word[0], s[i + 0]);
      forall k | 0 <= k < |word| - 1 ensures SameLetter(word[1..][k], s[i + 1 + k]) {
        assert SameLetter(word[k + 1], s[i + (k + 1)]);
      }
    }
  }

  lemma {:induction false} FoldsMeaning(t: CharTable, word: string, s: string, i: nat)
    requires i <= |s| && Small(word)
    ensures Folds(t, word, s[i..]) <==> Spells(word, s, i)
    decreases |word|
  {
    hide In, Folded, SameLetter;
    if word != "" && i < |s| {
      LetterMeaning(t, word[0], s[i]);
      assert s[i..][1..] == s[i + 1..];
      FoldsMeaning(t, word[1..], s, i + 1);
      hide Spells;
      SpellsStep(word, s, i);
    }
  }

  lemma EpicIsEpic(t: CharTable, u: string)
    ensures Folds(t, "EPIC-", u) <==> Folds(t, "epic-", u)
  {
    hide In;
    var a, b := "EPIC-", "epic-";
    FoldsSame(t, a, b, u);
  }

  lemma {:induction false} FoldsSame(t: CharTable, a: string, b: string, u: string)
    requires |a| == |b| && forall k :: 0 <= k < |a| ==> Folded(a[k]) == Folded(b[k])
    ensures Folds(t, a, u) <==> Folds(t, b, u)
    decreases |a|
  {
    hide In, Folded;
    if a != "" && u != "" {
      assert forall k :: 0 <= k < |a| - 1 ==> a[1..][k] == a[k + 1] && b[1..][k] == b[k + 1];
      FoldsSame(t, a[1..], b[1..], u[1..]);
    }
  }

  lemma DigitMeaning(s: string, i: nat)
    requires i <= |s|
    ensures DigitFirst(s[i..]) <==> DigitAt(s, i)
  {
  }

  lemma HashMeaning(s: string, i: nat)
    requires i <= |s|
    ensures HashNumber(s[i..]) <==> i < |s| && s[i] == '#' && DigitAt(s, i + 1)
  {
    if i < |s| {
      assert s[i..][1..] == s[i + 1..];
      DigitMeaning(s, i + 1);
    }
  }

  lemma RepoMeaning(t: CharTable, s: string, k: nat)
    requires k < |s|
    ensures In(t, RepoSet(), s[k]) <==> RepoCharAt(s, k)
    ensures s[k] == '#' ==> !RepoCharAt(s, k)
  {
    RepoChars(t, s[k]);
  }

  /** The run of repository characters is all of what stands before the `#`. */
  lemma RepoRun(t: CharTable, s: string, i: nat, j: nat)
    requires i <= j < |s| && s[j] == '#'
    ensures Run(t, RepoSet(), s[i..]) == j - i <==> forall k :: i <= k < j ==> RepoCharAt(s, k)
  {
    hide RepoSet, In, RepoCharAt;
    forall k: nat | i <= k <= j
      ensures In(t, RepoSet(), s[k]) <==> RepoCharAt(s, k)
      ensures s[k] == '#' ==> !RepoCharAt(s, k)
    {
      RepoMeaning(t, s, k);
    }
    var u := s[i..];
    var n := Run(t, RepoSet(), u);
    assert forall k: nat :: k < |u| ==> u[k] == s[i + k];
    if n == j - i {
      forall k | i <= k < j ensures RepoCharAt(s, k) { assert In(t, RepoSet(), u[k - i]); }
    }
    if forall k :: i <= k < j ==> RepoCharAt(s, k) { RunIs(t, RepoSet(), u, j - i); }
  }

  lemma NumberedMeaning(t: CharTable, s: string, i: nat)
    requires i <= |s|
    ensures var n := Run(t, RepoSet(), s[i..]);
      HashNumber(s[i..]) || (n >= 1 && HashNumber(s[i..][n..])) <==>
        exists j: nat :: i <= j < |s| && s[j] == '#' && DigitAt(s, j + 1) && forall k :: i <= k < j ==> RepoCharAt(s, k)
  {
    hide HashNumber, DigitAt, RepoCharAt, RepoSet, Run;
    var n := Run(t, RepoSet(), s[i..]);
    assert s[i..][n..] == s[i + n..];
    HashMeaning(s, i);
    HashMeaning(s, i + n);
    if n >= 1 && HashNumber(s[i..][n..]) {
      RepoRun(t, s, i, i + n);
    }
    if j: nat :| i <= j < |s| && s[j] == '#' && DigitAt(s, j + 1) && forall k :: i <= k < j ==> RepoCharAt(s, k) {
      RepoRun(t, s, i, j);
    }
  }

  lemma TargetMeaning(t: CharTable, s: string, i: nat)
    requires i <= |s|
    ensures Target(t, s[i..]) <==> TargetAt(s, i)
  {
    hide HashNumber, DigitAt, DigitFirst, RepoCharAt, RepoSet, Run, Folds, Spells;
    NumberedMeaning(t, s, i);
    EpicIsEpic(t, s[i..]);
    FoldsMeaning(t, "epic-", s, i);
    EpicIsLong(s, i);
    if i + 5 <= |s| {
      assert s[i..][5..] == s[i + 5..];
      DigitMeaning(s, i + 5);
    }
  }

  lemma EpicIsLong(s: string, i: nat)
    ensures Spells("epic-", s, i) ==> i + 5 <= |s|
  {
  }

  lemma BlankMeaning(t: CharTable, s: string, k: nat)
    requires k < |s|
    ensures In(t, Space(), s[k]) <==> BlankAt(s, k)
  {
    SpaceChars(t, s[k]);
  }

  lemma BlankRun(t: CharTable, s: string, i: nat, j: nat)
    requires i <= j <= |s| && (j < |s| ==> !BlankAt(s, j))
    ensures Run(t, Space(), s[i..]) == j - i <==> forall k :: i <= k < j ==> BlankAt(s, k)
  {
    hide Space, In, BlankAt;
    forall k: nat | i <= k < |s| ensures In(t, Space(), s[k]) <==> BlankAt(s, k) {
      BlankMeaning(t, s, k);
    }
    var u := s[i..];
    var n := Run(t, Space(), u);
    assert forall k: nat :: k < |u| ==> u[k] == s[i + k];
    if n == j - i {
      forall k | i <= k < j ensures BlankAt(s, k) { assert In(t, Space(), u[k - i]); }
    }
    if forall k :: i <= k < j ==> BlankAt(s, k) { RunIs(t, Space(), u, j - i); }
  }

  lemma TargetIsNoBlank(t: CharTable, s: string, j: nat)
    requires j <= |s| && TargetAt(s, j)
    ensures j < |s| && !BlankAt(s, j)
  {
    hide TargetAt, Target, BlankAt, Space, In;
    TargetMeaning(t, s, j);
    TargetIsSomething(t, s[j..]);
    BlankMeaning(t, s, j);
    if In(t, Space(), s[j..][0]) { NoTargetAtSpace(t, s[j..]); }
  }

  lemma SpacedMeaning(t: CharTable, s: string, i: nat)
    requires i <= |s|
    ensures SpacedTargetAt(t, s[i..]) <==>
      exists j: nat :: i < j <= |s| && TargetAt(s, j) && forall k :: i <= k < j ==> BlankAt(s, k)
  {
    hide Target, TargetAt, Space, BlankAt, Run;
    var n := Run(t, Space(), s[i..]);
    assert s[i..][n..] == s[i + n..];
    TargetMeaning(t, s, i + n);
    if n >= 1 && Target(t, s[i..][n..]) {
      TargetIsNoBlank(t, s, i + n);
      BlankRun(t, s, i, i + n);
    }
    if j: nat :| i < j <= |s| && TargetAt(s, j) && forall k :: i <= k < j ==> BlankAt(s, k) {
      TargetIsNoBlank(t, s, j);
      BlankRun(t, s, i, j);
    }
  }

  lemma KeywordMeaning(t: CharTable, word: string, s: string, i: nat)
    requires i <= |s| && Small(word)
    ensures KeywordThen(t, word, s[i..]) <==> WordAndTarget(word, s, i)
  {
    hide Folds, SpacedTargetAt, TargetAt, BlankAt, SameLetter, Small;
    FoldsMeaning(t, word, s, i);
    if i + |word| <= |s| {
      assert s[i..][|word|..] == s[i + |word|..];
      SpacedMeaning(t, s, i + |word|);
    }
  }

  lemma RefMeaning(t: CharTable, s: string, i: nat)
    requires i <= |s|
    ensures RefAt(t, s[i..]) <==> ReferenceAt(s, i)
  {
    assert Small("fixes") && Small("closes") && Small("resolves") && Small("relates to") && Small("ref");
    hide KeywordThen, WordAndTarget, Small;
    KeywordMeaning(t, "fixes", s, i);
    KeywordMeaning(t, "closes", s, i);
    KeywordMeaning(t, "resolves", s, i);
    KeywordMeaning(t, "relates to", s, i);
    KeywordMeaning(t, "ref", s, i);
  }

  /** The pattern matches in a text iff a reference stands somewhere in it. */
  lemma MatchesMeaning(t: CharTable, s: string)
    ensures Matches(t, s) <==> exists i: nat :: i <= |s| && ReferenceAt(s, i)
  {
    hide Ends, IssueRefPattern, RefAt, ReferenceAt;
    forall i: nat | i <= |s| ensures Ends(t, IssueRefPattern(), s, i) != [] <==> ReferenceAt(s, i) {
      RefMatches(t, s, i);
      RefMeaning(t, s, i);
    }
  }

  // ----- The gate -----

  /**
   A PR passes iff its milestone is not blank and the first one of that title is open, a reference stands somewhere
   in title and body with a newline between them, and some label starts with `tier/` or `area/`.
   */
  lemma AcceptedMeaning(x: Text, pr: PrMetadata, valid: seq<Milestone>)
    ensures ValidatePrMetadata(x, pr, valid) == Accepted <==>
      && x.trim(pr.milestone) != ""
      && (exists k :: 0 <= k < |valid| && x.equalFold(valid[k].title, pr.milestone) && valid[k].state == "open"
            && forall j :: 0 <= j < k ==> !x.equalFold(valid[j].title, pr.milestone))
      && (exists i: nat :: i <= |pr.title + "\n" + pr.body| && ReferenceAt(pr.title + "\n" + pr.body, i))
      && (exists l :: l in pr.labels && ("tier/" <= l || "area/" <= l))
  {
    AcceptedIff(x, pr, valid);
    hide Matches, ReferenceAt, ValidatePrMetadata;
    MatchesMeaning(x.table, pr.title + "\n" + pr.body);
  }
}
