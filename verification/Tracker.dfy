/** The pull-request gate: milestone, issue reference and labels, checked in this order. */
module Tracker {
  import opened Regex

  // ----- The pattern, with Go's case folding -----

  function UpperOf(c: char): char { if 'a' <= c <= 'z' then c - 'a' + 'A' else c }

  function LowerOf(c: char): char { if 'A' <= c <= 'Z' then c - 'A' + 'a' else c }

  /** What `(?i)` makes of one character: both cases, and the long s for `s`. */
  function Folded(c: char): CharSet {
    if c == 's' || c == 'S' then Either(Either(One('s'), One('S')), One('\U{17F}'))
    else Either(One(LowerOf(c)), One(UpperOf(c)))
  }

  function FoldLit(text: string, rest: Regex): Regex {
    if text == "" then rest else Cat(Chars(Folded(text[0])), FoldLit(text[1..], rest))
  }

  /** Go's `\s` and `\d` are ASCII. */
  function Space(): CharSet { Either(Range('\t', '\n'), Either(Range('\U{C}', '\r'), One(' '))) }

  function AsciiDigits(): CharSet { Range('0', '9') }

  /** `[a-zA-Z0-9_\-\.\/]`, which folding extends by the long s and the Kelvin sign. */
  function RepoSet(): CharSet {
    Either(Either(Either(Range('a', 'z'), Range('A', 'Z')), Either(AsciiDigits(), One('_'))),
           Either(Either(One('-'), One('.')), Either(One('/'), Either(One('\U{17F}'), One('\U{212A}')))))
  }

  function Number(): Regex { Greedy(AsciiDigits(), 1, Unbounded) }

  function TargetPattern(): Regex {
    Or(Lit("#", Number()), Or(Cat(Greedy(RepoSet(), 1, Unbounded), Lit("#", Number())), FoldLit("EPIC-", Number())))
  }

  function SpacedTarget(): Regex { Cat(Greedy(Space(), 1, Unbounded), TargetPattern()) }

  function KeywordPattern(): Regex {
    Or(FoldLit("fixes", Empty), Or(FoldLit("closes", Empty), Or(FoldLit("resolves", Empty),
      Or(FoldLit("relates to", Empty), FoldLit("ref", Empty)))))
  }

  function IssueRefPattern(): Regex { Cat(KeywordPattern(), SpacedTarget()) }

  /** `issueRefRegex.MatchString(s)`: there is a match somewhere. */
  ghost predicate Matches(t: CharTable, s: string) { !NoMatch(t, IssueRefPattern(), s) }

  // ----- A scan without backtracking -----

  predicate Folds(t: CharTable, text: string, u: string) {
    text == "" || (u != "" && In(t, Folded(text[0]), u[0]) && Folds(t, text[1..], u[1..]))
  }

  predicate DigitFirst(u: string) { u != "" && AsciiDigit(u[0]) }

  predicate HashNumber(u: string) { u != "" && u[0] == '#' && DigitFirst(u[1..]) }

  predicate Target(t: CharTable, u: string) {
    var n := Run(t, RepoSet(), u);
    HashNumber(u) || (n >= 1 && HashNumber(u[n..])) || (Folds(t, "EPIC-", u) && |u| >= 5 && DigitFirst(u[5..]))
  }

  predicate SpacedTargetAt(t: CharTable, u: string) {
    var n := Run(t, Space(), u);
    n >= 1 && Target(t, u[n..])
  }

  predicate KeywordThen(t: CharTable, word: string, u: string) {
    Folds(t, word, u) && |u| >= |word| && SpacedTargetAt(t, u[|word|..])
  }

  predicate RefAt(t: CharTable, u: string) {
    || KeywordThen(t, "fixes", u)
    || KeywordThen(t, "closes", u)
    || KeywordThen(t, "resolves", u)
    || KeywordThen(t, "relates to", u)
    || KeywordThen(t, "ref", u)
  }

  predicate HasRef(t: CharTable, s: string)
    decreases |s|
  {
    s != "" && (RefAt(t, s) || HasRef(t, s[1..]))
  }

  // ----- The scan agrees with the pattern -----

  lemma {:induction false} CatFoldLit(t: CharTable, text: string, rest: Regex, s: string, i: nat)
    requires i <= |s|
    ensures Folds(t, text, s[i..]) ==> i + |text| <= |s|
    ensures Ends(t, FoldLit(text, rest), s, i) == if Folds(t, text, s[i..]) then Ends(t, rest, s, i + |text|) else []
    decreases |text|
  {
    hide Ends, AllEnds, Folded, In;
    if text != "" {
      CatChar(t, Folded(text[0]), FoldLit(text[1..], rest), s, i);
      if i < |s| {
        assert s[i..][1..] == s[i + 1..];
        CatFoldLit(t, text[1..], rest, s, i + 1);
      }
    }
  }

  lemma {:induction false} FoldLitThen(t: CharTable, text: string, c: Regex, s: string, i: nat)
    requires i <= |s|
    ensures Folds(t, text, s[i..]) ==> i + |text| <= |s|
    ensures Ends(t, Cat(FoldLit(text, Empty), c), s, i) ==
        if Folds(t, text, s[i..]) then Ends(t, c, s, i + |text|) else []
    decreases |text|
  {
    hide Ends, AllEnds, Folded, In;
    if text == "" {
      CatEmpty(t, c, s, i);
    } else {
      CatAssoc(t, Chars(Folded(text[0])), FoldLit(text[1..], Empty), c, s, i);
      CatChar(t, Folded(text[0]), Cat(FoldLit(text[1..], Empty), c), s, i);
      if i < |s| {
        assert s[i..][1..] == s[i + 1..];
        FoldLitThen(t, text[1..], c, s, i + 1);
      }
    }
  }

  lemma NumberMatches(t: CharTable, s: string, i: nat)
    requires i <= |s|
    ensures Ends(t, Number(), s, i) != [] <==> DigitFirst(s[i..])
  {
    NumberIsRun(t, s, i);
    RunOfDigits(t, s[i..]);
    hide *;
    UnboundedRun(t, AsciiDigits(), 1, s, i);
  }

  lemma NumberIsRun(t: CharTable, s: string, i: nat)
    requires i <= |s|
    ensures Ends(t, Number(), s, i) == GreedyEnds(t, AsciiDigits(), 1, Unbounded, s, i)
  {
    hide GreedyEnds;
  }

  lemma RunOfDigits(t: CharTable, u: string)
    ensures Run(t, AsciiDigits(), u) >= 1 <==> DigitFirst(u)
  {
  }

  lemma HashNumberMatches(t: CharTable, s: string, i: nat)
    requires i <= |s|
    ensures Ends(t, Lit("#", Number()), s, i) != [] <==> HashNumber(s[i..])
  {
    hide Ends, Number, Lit;
    CatLit(t, "#", Number(), s, i);
    assert "#" <= s[i..] <==> i < |s| && s[i] == '#';
    if i < |s| {
      assert s[i..][1..] == s[i + 1..];
      NumberMatches(t, s, i + 1);
    }
  }

  lemma RepoChars(t: CharTable, c: char)
    ensures In(t, RepoSet(), c) <==> AsciiWord(c) || c in {'-', '.', '/', '\U{17F}', '\U{212A}'}
  {
    var letters, digits := Either(Range('a', 'z'), Range('A', 'Z')), Either(AsciiDigits(), One('_'));
    var folded := Either(One('\U{17F}'), One('\U{212A}'));
    var marks := Either(Either(One('-'), One('.')), Either(One('/'), folded));
    assert In(t, letters, c) <==> AsciiLetter(c);
    assert In(t, digits, c) <==> AsciiDigit(c) || c == '_';
    assert In(t, Either(letters, digits), c) <==> AsciiWord(c);
    assert In(t, folded, c) <==> c == '\U{17F}' || c == '\U{212A}';
    assert In(t, Either(One('/'), folded), c) <==> c in {'/', '\U{17F}', '\U{212A}'};
    assert In(t, Either(One('-'), One('.')), c) <==> c == '-' || c == '.';
    assert In(t, marks, c) <==> c in {'-', '.', '/', '\U{17F}', '\U{212A}'};
  }

  lemma SpaceChars(t: CharTable, c: char)
    ensures In(t, Space(), c) <==> c == ' ' || '\t' <= c <= '\n' || '\U{C}' <= c <= '\r'
  {
    assert In(t, Either(Range('\U{C}', '\r'), One(' ')), c) <==> c == ' ' || '\U{C}' <= c <= '\r';
  }

  lemma RepoNumberMatches(t: CharTable, s: string, i: nat)
    requires i <= |s|
    ensures var n := Run(t, RepoSet(), s[i..]);
      Ends(t, Cat(Greedy(RepoSet(), 1, Unbounded), Lit("#", Number())), s, i) != [] <==>
        n >= 1 && HashNumber(s[i..][n..])
  {
    hide Ends, Number, Lit, RepoSet;
    var n, rest := Run(t, RepoSet(), s[i..]), Lit("#", Number());
    forall e | i + 1 <= e < i + n ensures Ends(t, rest, s, e) == [] {
      assert In(t, RepoSet(), s[i..][e - i]);
      RepoChars(t, s[e]);
      HashNumberMatches(t, s, e);
    }
    CatGreedy(t, RepoSet(), 1, Unbounded, rest, s, i);
    HashNumberMatches(t, s, i + n);
    assert s[i..][n..] == s[i + n..];
  }

  lemma TargetMatches(t: CharTable, s: string, i: nat)
    requires i <= |s|
    ensures Ends(t, TargetPattern(), s, i) != [] <==> Target(t, s[i..])
  {
    hide Ends, Number, Lit, FoldLit, HashNumber, DigitFirst, Folds, Run;
    var repo, epic := Cat(Greedy(RepoSet(), 1, Unbounded), Lit("#", Number())), FoldLit("EPIC-", Number());
    OrEnds(t, Lit("#", Number()), Or(repo, epic), s, i);
    OrEnds(t, repo, epic, s, i);
    HashNumberMatches(t, s, i);
    RepoNumberMatches(t, s, i);
    CatFoldLit(t, "EPIC-", Number(), s, i);
    if Folds(t, "EPIC-", s[i..]) {
      NumberMatches(t, s, i + 5);
      assert s[i..][5..] == s[i + 5..];
    }
  }

  lemma NoTargetAtSpace(t: CharTable, u: string)
    requires u != "" && In(t, Space(), u[0])
    ensures !Target(t, u)
  {
    SpaceChars(t, u[0]);
    RepoChars(t, u[0]);
    assert !In(t, RepoSet(), u[0]) && !In(t, Folded('E'), u[0]) && u[0] != '#';
    hide RepoSet, Folded, In;
    assert "EPIC-"[0] == 'E';
  }

  lemma SpacedTargetMatches(t: CharTable, s: string, i: nat)
    requires i <= |s|
    ensures Ends(t, SpacedTarget(), s, i) != [] <==> SpacedTargetAt(t, s[i..])
  {
    hide Ends, TargetPattern, Target, Space;
    var n := Run(t, Space(), s[i..]);
    forall e | i + 1 <= e < i + n ensures Ends(t, TargetPattern(), s, e) == [] {
      assert In(t, Space(), s[i..][e - i]);
      NoTargetAtSpace(t, s[e..]);
      TargetMatches(t, s, e);
    }
    CatGreedy(t, Space(), 1, Unbounded, TargetPattern(), s, i);
    TargetMatches(t, s, i + n);
    assert s[i..][n..] == s[i + n..];
  }

  lemma KeywordMatches(t: CharTable, word: string, s: string, i: nat)
    requires i <= |s|
    ensures Ends(t, Cat(FoldLit(word, Empty), SpacedTarget()), s, i) != [] <==> KeywordThen(t, word, s[i..])
  {
    hide Ends, SpacedTarget, SpacedTargetAt, Folds, FoldLit;
    FoldLitThen(t, word, SpacedTarget(), s, i);
    if Folds(t, word, s[i..]) {
      SpacedTargetMatches(t, s, i + |word|);
      assert s[i..][|word|..] == s[i + |word|..];
    }
  }

  lemma RefMatches(t: CharTable, s: string, i: nat)
    requires i <= |s|
    ensures Ends(t, IssueRefPattern(), s, i) != [] <==> RefAt(t, s[i..])
  {
    hide Ends, SpacedTarget, KeywordThen, FoldLit;
    var a, b, c := FoldLit("fixes", Empty), FoldLit("closes", Empty), FoldLit("resolves", Empty);
    var d, e, rest := FoldLit("relates to", Empty), FoldLit("ref", Empty), SpacedTarget();
    CatOr(t, a, Or(b, Or(c, Or(d, e))), rest, s, i);
    CatOr(t, b, Or(c, Or(d, e)), rest, s, i);
    CatOr(t, c, Or(d, e), rest, s, i);
    CatOr(t, d, e, rest, s, i);
    KeywordMatches(t, "fixes", s, i);
    KeywordMatches(t, "closes", s, i);
    KeywordMatches(t, "resolves", s, i);
    KeywordMatches(t, "relates to", s, i);
    KeywordMatches(t, "ref", s, i);
  }

  lemma {:induction false} HasRefIsSomewhere(t: CharTable, s: string, i: nat)
    requires i <= |s|
    ensures HasRef(t, s[i..]) <==> exists j :: i <= j < |s| && RefAt(t, s[j..])
    decreases |s| - i
  {
    hide RefAt;
    if i < |s| {
      assert s[i..][1..] == s[i + 1..];
      HasRefIsSomewhere(t, s, i + 1);
    }
  }

  lemma NoRefAtEnd(t: CharTable)
    ensures !RefAt(t, "")
  {
  }

  /** The scan finds a reference iff the pattern matches somewhere. */
  lemma ScanAgrees(t: CharTable, s: string)
    ensures HasRef(t, s) <==> Matches(t, s)
  {
    hide RefAt, Ends, IssueRefPattern, HasRef;
    assert s[0..] == s && s[|s|..] == "";
    HasRefIsSomewhere(t, s, 0);
    NoRefAtEnd(t);
    forall i | 0 <= i <= |s| ensures Ends(t, IssueRefPattern(), s, i) != [] <==> RefAt(t, s[i..]) {
      RefMatches(t, s, i);
    }
  }

  // ----- References stay -----

  lemma {:induction false} RunExtends(t: CharTable, cs: CharSet, u: string, v: string)
    requires Run(t, cs, u) < |u|
    ensures Run(t, cs, u + v) == Run(t, cs, u)
  {
    hide In;
    if In(t, cs, u[0]) {
      assert (u + v)[1..] == u[1..] + v;
      RunExtends(t, cs, u[1..], v);
    }
  }

  lemma {:induction false} FoldsExtends(t: CharTable, text: string, u: string, v: string)
    requires Folds(t, text, u)
    ensures Folds(t, text, u + v)
    decreases |text|
  {
    hide In, Folded;
    if text != "" {
      assert (u + v)[1..] == u[1..] + v;
      FoldsExtends(t, text[1..], u[1..], v);
    }
  }

  lemma HashNumberExtends(u: string, v: string)
    requires HashNumber(u)
    ensures HashNumber(u + v)
  {
    assert (u + v)[1..] == u[1..] + v;
  }

  lemma TargetExtends(t: CharTable, u: string, v: string)
    requires Target(t, u)
    ensures Target(t, u + v)
  {
    hide Run, Folds, RepoSet;
    var n := Run(t, RepoSet(), u);
    if HashNumber(u) {
      HashNumberExtends(u, v);
    } else if n >= 1 && HashNumber(u[n..]) {
      RunExtends(t, RepoSet(), u, v);
      HashNumberExtends(u[n..], v);
      assert (u + v)[n..] == u[n..] + v;
    } else {
      FoldsExtends(t, "EPIC-", u, v);
      assert (u + v)[5..] == u[5..] + v;
    }
  }

  lemma TargetIsSomething(t: CharTable, u: string)
    requires Target(t, u)
    ensures u != ""
  {
    hide RepoSet, Folded, In;
  }

  lemma KeywordExtends(t: CharTable, word: string, u: string, v: string)
    requires KeywordThen(t, word, u)
    ensures KeywordThen(t, word, u + v)
  {
    hide Run, Folds, Space, Target;
    var tail := u[|word|..];
    var n := Run(t, Space(), tail);
    TargetIsSomething(t, tail[n..]);
    FoldsExtends(t, word, u, v);
    assert (u + v)[|word|..] == tail + v;
    RunExtends(t, Space(), tail, v);
    TargetExtends(t, tail[n..], v);
    assert (tail + v)[n..] == tail[n..] + v;
  }

  lemma RefExtends(t: CharTable, u: string, v: string)
    requires RefAt(t, u)
    ensures RefAt(t, u + v)
  {
    hide KeywordThen;
    if KeywordThen(t, "fixes", u) { KeywordExtends(t, "fixes", u, v); }
    if KeywordThen(t, "closes", u) { KeywordExtends(t, "closes", u, v); }
    if KeywordThen(t, "resolves", u) { KeywordExtends(t, "resolves", u, v); }
    if KeywordThen(t, "relates to", u) { KeywordExtends(t, "relates to", u, v); }
    if KeywordThen(t, "ref", u) { KeywordExtends(t, "ref", u, v); }
  }

  /** A reference is still found when text is put before or behind. */
  lemma {:induction false} RefStays(t: CharTable, pre: string, s: string, post: string)
    requires HasRef(t, s)
    ensures HasRef(t, pre + s + post)
    decreases |pre| + |s|
  {
    hide RefAt;
    var all := pre + s + post;
    if pre != "" {
      RefStays(t, pre[1..], s, post);
      assert all[1..] == pre[1..] + s + post;
    } else if RefAt(t, s) {
      RefExtends(t, s, post);
      assert all == s + post;
    } else {
      RefStays(t, "", s[1..], post);
      assert all[1..] == "" + s[1..] + post;
    }
  }

  // ----- The gate -----

  datatype Milestone = Milestone(title: string, state: string)

  datatype PrMetadata = PrMetadata(title: string, body: string, labels: seq<string>, milestone: string)

  datatype Verdict =
    | Accepted
    | MilestoneMissing
    | MilestoneClosed(milestone: string)
    | MilestoneUnknown(milestone: string)
    | NoIssueReference
    | NoLabels
    | NoTierOrAreaLabel(found: seq<string>)

  /** Go's `strings.TrimSpace` and `strings.EqualFold`, and character classes that its patterns do not use. */
  datatype Text = Text(trim: string -> string, equalFold: (string, string) -> bool, table: CharTable)

  function ValidateMilestone(x: Text, milestone: string, valid: seq<Milestone>): Verdict {
    if x.trim(milestone) == "" then MilestoneMissing else FindMilestone(x, milestone, valid)
  }

  function FindMilestone(x: Text, milestone: string, valid: seq<Milestone>): Verdict {
    if valid == [] then MilestoneUnknown(milestone)
    else if x.equalFold(valid[0].title, milestone) then
      if valid[0].state != "open" then MilestoneClosed(milestone) else Accepted
    else FindMilestone(x, milestone, valid[1..])
  }

  function Combined(title: string, body: string): string { title + "\n" + body }

  function ValidateIssueReference(x: Text, title: string, body: string): Verdict {
    if HasRef(x.table, Combined(title, body)) then Accepted else NoIssueReference
  }

  predicate TierOrArea(l: string) { "tier/" <= l || "area/" <= l }

  function FindLabel(labels: seq<string>, all: seq<string>): Verdict {
    if labels == [] then NoTierOrAreaLabel(all)
    else if TierOrArea(labels[0]) then Accepted
    else FindLabel(labels[1..], all)
  }

  function ValidateLabels(labels: seq<string>): Verdict {
    if |labels| == 0 then NoLabels else FindLabel(labels, labels)
  }

  function ValidatePrMetadata(x: Text, pr: PrMetadata, valid: seq<Milestone>): Verdict {
    var m := ValidateMilestone(x, pr.milestone, valid);
    if m != Accepted then m
    else
      var r := ValidateIssueReference(x, pr.title, pr.body);
      if r != Accepted then r else ValidateLabels(pr.labels)
  }

  /** The first milestone whose title is the PR's, whatever the case, is open. */
  ghost predicate OpenMilestone(x: Text, milestone: string, valid: seq<Milestone>) {
    exists k :: 0 <= k < |valid| && x.equalFold(valid[k].title, milestone) && valid[k].state == "open"
      && forall j :: 0 <= j < k ==> !x.equalFold(valid[j].title, milestone)
  }

  lemma {:induction false} FindsOpenMilestone(x: Text, milestone: string, valid: seq<Milestone>)
    ensures FindMilestone(x, milestone, valid) == Accepted <==> OpenMilestone(x, milestone, valid)
  {
    if valid != [] {
      var rest := valid[1..];
      FindsOpenMilestone(x, milestone, rest);
      if OpenMilestone(x, milestone, valid) && !x.equalFold(valid[0].title, milestone) {
        var k :| 0 <= k < |valid| && x.equalFold(valid[k].title, milestone) && valid[k].state == "open"
          && forall j :: 0 <= j < k ==> !x.equalFold(valid[j].title, milestone);
        assert rest[k - 1] == valid[k];
        assert OpenMilestone(x, milestone, rest);
      }
      if OpenMilestone(x, milestone, rest) && !x.equalFold(valid[0].title, milestone) {
        var k :| 0 <= k < |rest| && x.equalFold(rest[k].title, milestone) && rest[k].state == "open"
          && forall j :: 0 <= j < k ==> !x.equalFold(rest[j].title, milestone);
        assert valid[k + 1] == rest[k];
        forall j | 0 <= j < k + 1 ensures !x.equalFold(valid[j].title, milestone) {
          if j > 0 { assert valid[j] == rest[j - 1]; }
        }
        assert OpenMilestone(x, milestone, valid);
      }
      if x.equalFold(valid[0].title, milestone) && valid[0].state == "open" {
        assert OpenMilestone(x, milestone, valid);
      }
    }
  }

  lemma {:induction false} FindsLabel(labels: seq<string>, all: seq<string>)
    ensures FindLabel(labels, all) == Accepted <==> exists l :: l in labels && TierOrArea(l)
  {
    hide TierOrArea;
    if labels != [] {
      FindsLabel(labels[1..], all);
      assert labels == [labels[0]] + labels[1..];
    }
  }

  /** The gate passes a PR iff its milestone is open, the pattern matches in title and body, and a label fits. */
  lemma AcceptedIff(x: Text, pr: PrMetadata, valid: seq<Milestone>)
    ensures ValidatePrMetadata(x, pr, valid) == Accepted <==>
      && x.trim(pr.milestone) != ""
      && OpenMilestone(x, pr.milestone, valid)
      && Matches(x.table, pr.title + "\n" + pr.body)
      && (exists l :: l in pr.labels && TierOrArea(l))
  {
    hide OpenMilestone, Matches, HasRef, TierOrArea;
    FindsOpenMilestone(x, pr.milestone, valid);
    ScanAgrees(x.table, Combined(pr.title, pr.body));
    FindsLabel(pr.labels, pr.labels);
  }

  /** A refusal names the first check that fails: milestone, then reference, then labels. */
  lemma FirstFailingCheck(x: Text, pr: PrMetadata, valid: seq<Milestone>)
    ensures var v := ValidatePrMetadata(x, pr, valid);
      var given := x.trim(pr.milestone) != "";
      var open := given && OpenMilestone(x, pr.milestone, valid);
      var known := exists k :: 0 <= k < |valid| && x.equalFold(valid[k].title, pr.milestone);
      var referenced := Matches(x.table, pr.title + "\n" + pr.body);
      var labelled := exists l :: l in pr.labels && TierOrArea(l);
      && (v == MilestoneMissing <==> !given)
      && (v == MilestoneClosed(pr.milestone) <==> given && !open && known)
      && (v == MilestoneUnknown(pr.milestone) <==> given && !known)
      && (v == NoIssueReference <==> open && !referenced)
      && (v == NoLabels <==> open && referenced && pr.labels == [])
      && (v == NoTierOrAreaLabel(pr.labels) <==> open && referenced && pr.labels != [] && !labelled)
  {
    hide OpenMilestone, Matches, HasRef, TierOrArea;
    FindsOpenMilestone(x, pr.milestone, valid);
    KnownMilestone(x, pr.milestone, valid);
    ScanAgrees(x.table, Combined(pr.title, pr.body));
    LabelVerdict(pr.labels, pr.labels);
    FindsLabel(pr.labels, pr.labels);
  }

  lemma {:induction false} KnownMilestone(x: Text, milestone: string, valid: seq<Milestone>)
    ensures var v := FindMilestone(x, milestone, valid);
      && (v == MilestoneUnknown(milestone) <==> !exists k :: 0 <= k < |valid| && x.equalFold(valid[k].title, milestone))
      && (v == Accepted || v == MilestoneClosed(milestone) || v == MilestoneUnknown(milestone))
  {
    if valid != [] {
      KnownMilestone(x, milestone, valid[1..]);
      assert valid == [valid[0]] + valid[1..];
    }
  }

  lemma {:induction false} LabelVerdict(labels: seq<string>, all: seq<string>)
    ensures FindLabel(labels, all) == Accepted || FindLabel(labels, all) == NoTierOrAreaLabel(all)
  {
    if labels != [] { LabelVerdict(labels[1..], all); }
  }

  // ----- Edits that keep a PR acceptable -----

  lemma OpenStays(x: Text, milestone: string, valid: seq<Milestone>, more: seq<Milestone>)
    requires OpenMilestone(x, milestone, valid)
    ensures OpenMilestone(x, milestone, valid + more)
  {
    var k :| 0 <= k < |valid| && x.equalFold(valid[k].title, milestone) && valid[k].state == "open"
      && forall j :: 0 <= j < k ==> !x.equalFold(valid[j].title, milestone);
    assert (valid + more)[k] == valid[k];
    assert forall j :: 0 <= j < k ==> (valid + more)[j] == valid[j];
  }

  /**
   Text before the title or behind the body, more labels and further milestones never turn acceptance into
   refusal.
   */
  lemma AcceptanceIsMonotone(x: Text, pr: PrMetadata, valid: seq<Milestone>,
      pre: string, post: string, labels: seq<string>, more: seq<Milestone>)
    requires ValidatePrMetadata(x, pr, valid) == Accepted
    requires forall l :: l in pr.labels ==> l in labels
    ensures ValidatePrMetadata(x, PrMetadata(pre + pr.title, pr.body + post, labels, pr.milestone), valid + more) ==
        Accepted
  {
    var pr' := PrMetadata(pre + pr.title, pr.body + post, labels, pr.milestone);
    var s := Combined(pr.title, pr.body);
    AcceptedIff(x, pr, valid);
    AcceptedIff(x, pr', valid + more);
    hide OpenMilestone, Matches, HasRef, TierOrArea, ValidatePrMetadata;
    OpenStays(x, pr.milestone, valid, more);
    ScanAgrees(x.table, s);
    RefStays(x.table, pre, s, post);
    ScanAgrees(x.table, pre + s + post);
    assert pre + s + post == pr'.title + "\n" + pr'.body;
  }

  // ----- Edits that may break a reference -----

  /** What no keyword, number or target goes through, and no target follows. */
  predicate Barrier(t: CharTable, v: string) {
    v != "" && v[0] in {':', '\n'} && !Target(t, v[Run(t, Space(), v)..])
  }

  lemma ColonIsBarrier(t: CharTable, b: string)
    ensures Barrier(t, [':'] + b) && In(t, Space(), ':') == false && !RefAt(t, [':'] + b)
  {
    var v := [':'] + b;
    SpaceChars(t, ':');
    StopsHere(t, v);
    hide RepoSet, Space, In;
    assert Run(t, Space(), v) == 0;
    assert v[0..] == v;
  }

  lemma LineEndIsBarrier(t: CharTable)
    ensures Barrier(t, "\n") && !RefAt(t, "\n")
  {
    SpaceChars(t, '\n');
    StopsHere(t, "\n");
    hide RepoSet, Space, In, Target;
    assert "\n"[1..] == "";
    assert Run(t, Space(), "\n") == 1;
    if Target(t, "") { TargetIsSomething(t, ""); }
  }

  lemma FoldedLetter(t: CharTable, c: char, d: char)
    requires 'a' <= c <= 'z'
    ensures In(t, Folded(c), d) <==> d == c || d == UpperOf(c) || (c == 's' && d == '\U{17F}')
  {
    assert In(t, Either(One('s'), One('S')), d) <==> d == 's' || d == 'S';
  }

  lemma FoldedOther(t: CharTable, c: char, d: char)
    requires c in {' ', '-'} || 'a' <= c <= 'z' || 'A' <= c <= 'Z'
    ensures d in {':', '\n'} ==> !In(t, Folded(c), d)
  {
    assert In(t, Either(One('s'), One('S')), d) <==> d == 's' || d == 'S';
  }

  /** Words whose characters are letters, blanks and hyphens. */
  predicate Plain(word: string) {
    forall i :: 0 <= i < |word| ==> word[i] in {' ', '-'} || 'a' <= word[i] <= 'z' || 'A' <= word[i] <= 'Z'
  }

  lemma KeywordsArePlain()
    ensures Plain("fixes") && Plain("closes") && Plain("resolves") && Plain("relates to") && Plain("ref") &&
        Plain("EPIC-")
  {
  }

  /** Nothing of the pattern but blanks can start with a colon or a newline. */
  lemma StopsHere(t: CharTable, v: string)
    requires v != "" && v[0] in {':', '\n'}
    ensures !Target(t, v) && !HashNumber(v) && !DigitFirst(v) && Run(t, RepoSet(), v) == 0 && !RefAt(t, v)
    ensures forall word | word != "" && Plain(word) :: !Folds(t, word, v)
  {
    RepoChars(t, v[0]);
    forall word | word != "" && Plain(word) ensures !Folds(t, word, v) {
      FoldedOther(t, word[0], v[0]);
    }
    KeywordsArePlain();
    hide RepoSet, In, Folded, Plain, SpacedTargetAt, Folds;
  }

  lemma Front(a: string, v: string)
    ensures a == "" ==> a + v == v
  {
  }

  lemma Rear(a: string, v: string, k: nat)
    requires k <= |v|
    ensures (a + v)[|a| + k..] == v[k..]
  {
  }

  lemma {:induction false} FoldsShrinks(t: CharTable, word: string, a: string, v: string)
    requires Plain(word) && v != "" && v[0] in {':', '\n'} && Folds(t, word, a + v)
    ensures |word| <= |a| && Folds(t, word, a)
    decreases |word|
  {
    StopsHere(t, v);
    Front(a, v);
    hide In, Folded;
    if word != "" && a != "" {
      assert (a + v)[1..] == a[1..] + v;
      FoldsShrinks(t, word[1..], a[1..], v);
    }
  }

  lemma {:induction false} RunShrinks(t: CharTable, cs: CharSet, a: string, v: string)
    ensures Run(t, cs, a) < |a| ==> Run(t, cs, a + v) == Run(t, cs, a)
    ensures Run(t, cs, a) == |a| ==> Run(t, cs, a + v) == |a| + Run(t, cs, v)
  {
    hide In;
    if a == "" {
      assert a + v == v;
    } else {
      assert (a + v)[1..] == a[1..] + v;
      RunShrinks(t, cs, a[1..], v);
    }
  }

  lemma HashNumberShrinks(t: CharTable, a: string, v: string)
    requires v != "" && v[0] in {':', '\n'} && HashNumber(a + v)
    ensures HashNumber(a)
  {
    Front(a, v);
    if a != "" {
      assert (a + v)[1..] == a[1..] + v;
      Front(a[1..], v);
    }
  }

  lemma TargetShrinks(t: CharTable, a: string, v: string)
    requires v != "" && v[0] in {':', '\n'} && Target(t, a + v)
    ensures Target(t, a)
  {
    StopsHere(t, v);
    KeywordsArePlain();
    hide RepoSet, Run, Folds, Plain;
    var u := a + v;
    var n := Run(t, RepoSet(), u);
    RunShrinks(t, RepoSet(), a, v);
    if HashNumber(u) {
      HashNumberShrinks(t, a, v);
    } else if n >= 1 && HashNumber(u[n..]) {
      assert u[n..] == a[n..] + v;
      HashNumberShrinks(t, a[n..], v);
    } else {
      FoldsShrinks(t, "EPIC-", a, v);
      assert u[5..] == a[5..] + v;
      Front(a[5..], v);
    }
  }

  lemma SpacedTargetShrinks(t: CharTable, a: string, v: string)
    requires Barrier(t, v) && SpacedTargetAt(t, a + v)
    ensures SpacedTargetAt(t, a)
  {
    hide Target, Space, Run;
    var n := Run(t, Space(), a);
    RunShrinks(t, Space(), a, v);
    Rear(a, v, Run(t, Space(), v));
    if n < |a| {
      assert (a + v)[n..] == a[n..] + v;
      TargetShrinks(t, a[n..], v);
    }
  }

  lemma KeywordShrinks(t: CharTable, word: string, a: string, v: string)
    requires Plain(word) && Barrier(t, v) && KeywordThen(t, word, a + v)
    ensures KeywordThen(t, word, a)
  {
    hide SpacedTargetAt, Folds, Plain, Target, Space;
    FoldsShrinks(t, word, a, v);
    assert (a + v)[|word|..] == a[|word|..] + v;
    SpacedTargetShrinks(t, a[|word|..], v);
  }

  lemma RefShrinks(t: CharTable, a: string, v: string)
    requires Barrier(t, v) && RefAt(t, a + v)
    ensures RefAt(t, a)
  {
    KeywordsArePlain();
    hide KeywordThen, Plain, Barrier;
    if KeywordThen(t, "fixes", a + v) { KeywordShrinks(t, "fixes", a, v); }
    if KeywordThen(t, "closes", a + v) { KeywordShrinks(t, "closes", a, v); }
    if KeywordThen(t, "resolves", a + v) { KeywordShrinks(t, "resolves", a, v); }
    if KeywordThen(t, "relates to", a + v) { KeywordShrinks(t, "relates to", a, v); }
    if KeywordThen(t, "ref", a + v) { KeywordShrinks(t, "ref", a, v); }
  }

  /** A reference does not go across a barrier: it stands before or behind it. */
  lemma {:induction false} RefOnOneSide(t: CharTable, a: string, v: string)
    requires Barrier(t, v) && HasRef(t, a + v)
    ensures HasRef(t, a) || HasRef(t, v)
    decreases |a|
  {
    hide RefAt, Barrier;
    if a == "" {
      assert a + v == v;
    } else if RefAt(t, a + v) {
      RefShrinks(t, a, v);
    } else {
      assert (a + v)[1..] == a[1..] + v;
      RefOnOneSide(t, a[1..], v);
    }
  }

  lemma HasRefBehind(t: CharTable, v: string)
    requires v != "" && v[0] in {':', '\n'} && HasRef(t, v)
    ensures HasRef(t, v[1..])
  {
    StopsHere(t, v);
    hide RefAt;
  }

  /** With a colon between them, only a reference within one part is found. */
  lemma RefAroundColon(t: CharTable, a: string, b: string)
    requires HasRef(t, a + ([':'] + b))
    ensures HasRef(t, a) || HasRef(t, b)
  {
    ColonIsBarrier(t, b);
    hide Barrier, HasRef, In;
    RefOnOneSide(t, a, [':'] + b);
    if HasRef(t, [':'] + b) {
      HasRefBehind(t, [':'] + b);
      assert ([':'] + b)[1..] == b;
    }
  }

  lemma RefBeforeLineEnd(t: CharTable, a: string)
    requires HasRef(t, a + "\n")
    ensures HasRef(t, a)
  {
    LineEndIsBarrier(t);
    NoRefInLineEnd(t);
    hide Barrier, HasRef;
    RefOnOneSide(t, a, "\n");
  }

  lemma NoRefInLineEnd(t: CharTable)
    ensures !HasRef(t, "\n")
  {
    LineEndIsBarrier(t);
    hide RefAt, Barrier;
    assert "\n"[1..] == "";
  }

  lemma JointMayGrow(t: CharTable, title: string, body: string, ext: string)
    requires HasRef(t, title) || HasRef(t, body)
    ensures HasRef(t, Combined(title + ext, body)) && HasRef(t, Combined(title, ext + body))
  {
    hide HasRef;
    assert Combined(title + ext, body) == "" + title + (ext + "\n" + body) == (title + ext + "\n") + body + "";
    assert Combined(title, ext + body) == "" + title + ("\n" + ext + body) == (title + "\n" + ext) + body + "";
    if HasRef(t, title) {
      RefStays(t, "", title, ext + "\n" + body);
      RefStays(t, "", title, "\n" + ext + body);
    } else {
      RefStays(t, title + ext + "\n", body, "");
      RefStays(t, title + "\n" + ext, body, "");
    }
  }

  /** Any text may be put behind the title, or before the body, iff title or body has a reference of its own. */
  lemma JointMayGrowIff(t: CharTable, title: string, body: string)
    ensures (forall ext: string :: HasRef(t, Combined(title + ext, body))) <==> HasRef(t, title) || HasRef(t, body)
    ensures (forall ext: string :: HasRef(t, Combined(title, ext + body))) <==> HasRef(t, title) || HasRef(t, body)
  {
    hide HasRef, Combined;
    if HasRef(t, title) || HasRef(t, body) {
      forall ext: string ensures HasRef(t, Combined(title + ext, body)) && HasRef(t, Combined(title, ext + body)) {
        JointMayGrow(t, title, body, ext);
      }
    } else {
      assert !HasRef(t, Combined(title + ":", body)) by {
        if HasRef(t, Combined(title + ":", body)) { ColonBehindTitle(t, title, body); }
      }
      assert !HasRef(t, Combined(title, ":" + body)) by {
        if HasRef(t, Combined(title, ":" + body)) { ColonBeforeBody(t, title, body); }
      }
    }
  }

  lemma ColonBehindTitle(t: CharTable, title: string, body: string)
    requires HasRef(t, Combined(title + ":", body))
    ensures HasRef(t, title) || HasRef(t, body)
  {
    hide HasRef;
    assert Combined(title + ":", body) == title + ([':'] + ("\n" + body));
    RefAroundColon(t, title, "\n" + body);
    if HasRef(t, "\n" + body) {
      HasRefBehind(t, "\n" + body);
      assert ("\n" + body)[1..] == body;
    }
  }

  lemma ColonBeforeBody(t: CharTable, title: string, body: string)
    requires HasRef(t, Combined(title, ":" + body))
    ensures HasRef(t, title) || HasRef(t, body)
  {
    hide HasRef;
    assert Combined(title, ":" + body) == title + "\n" + ([':'] + body);
    RefAroundColon(t, title + "\n", body);
    if HasRef(t, title + "\n") { RefBeforeLineEnd(t, title); }
  }

  /**
   Whether an accepted PR stays accepted under every text put behind its title, or before its body, depends on
   whether its reference stands within the title or within the body, rather than across the newline between them.
   */
  lemma AcceptedUnderTitleGrowthIff(x: Text, pr: PrMetadata, valid: seq<Milestone>)
    requires ValidatePrMetadata(x, pr, valid) == Accepted
    ensures (forall ext: string :: ValidatePrMetadata(x, pr.(title := pr.title + ext), valid) == Accepted)
      <==> Matches(x.table, pr.title) || Matches(x.table, pr.body)
    ensures (forall ext: string :: ValidatePrMetadata(x, pr.(body := ext + pr.body), valid) == Accepted)
      <==> Matches(x.table, pr.title) || Matches(x.table, pr.body)
  {
    hide HasRef, Matches, FindMilestone, ValidateLabels, Combined;
    ScanAgrees(x.table, pr.title);
    ScanAgrees(x.table, pr.body);
    JointMayGrowIff(x.table, pr.title, pr.body);
    forall ext: string
      ensures ValidatePrMetadata(x, pr.(title := pr.title + ext), valid) == Accepted <==>
        HasRef(x.table, Combined(pr.title + ext, pr.body))
      ensures ValidatePrMetadata(x, pr.(body := ext + pr.body), valid) == Accepted <==>
        HasRef(x.table, Combined(pr.title, ext + pr.body))
    {
    }
  }

  lemma FoldsRef(t: CharTable, u: string)
    requires |u| >= 3 && u[..3] == "ref"
    ensures Folds(t, "ref", u)
  {
    FoldedLetter(t, 'r', u[0]);
    FoldedLetter(t, 'e', u[1]);
    FoldedLetter(t, 'f', u[2]);
    hide In, Folded;
    var w := "ref";
    assert u[1..][1..] == u[2..] && w[1..][1..] == w[2..] && w[2..][1..] == "";
    assert Folds(t, w[2..], u[2..]);
    assert Folds(t, w[1..], u[1..]);
  }

  lemma RefAcrossNewline(t: CharTable)
    ensures RefAt(t, Combined("ref", "#1"))
  {
    var s := Combined("ref", "#1");
    assert s == "ref\n#1";
    FoldsRef(t, s);
    SpaceChars(t, '\n');
    SpaceChars(t, '#');
    hide Folds, RepoSet, Space, In;
    var tail := s[3..];
    assert tail == "\n#1" && tail[1..] == "#1" && "#1"[1..] == "1";
    assert Run(t, Space(), "#1") == 0 && Run(t, Space(), tail) == 1;
  }

  lemma {:induction false} FoldsIsLong(t: CharTable, word: string, u: string)
    requires Folds(t, word, u)
    ensures |u| >= |word|
    decreases |word|
  {
    hide In, Folded;
    if word != "" { FoldsIsLong(t, word[1..], u[1..]); }
  }

  lemma RefIsLong(t: CharTable, u: string)
    requires RefAt(t, u)
    ensures |u| > 3
  {
    hide Folds, Target;
    if KeywordThen(t, "ref", u) { FoldsIsLong(t, "ref", u); }
    if KeywordThen(t, "fixes", u) { FoldsIsLong(t, "fixes", u); }
    if KeywordThen(t, "closes", u) { FoldsIsLong(t, "closes", u); }
    if KeywordThen(t, "resolves", u) { FoldsIsLong(t, "resolves", u); }
    if KeywordThen(t, "relates to", u) { FoldsIsLong(t, "relates to", u); }
  }

  lemma {:induction false} NoRefInShort(t: CharTable, u: string)
    requires |u| <= 3
    ensures !HasRef(t, u)
  {
    hide RefAt;
    if RefAt(t, u) { RefIsLong(t, u); }
    if u != "" { NoRefInShort(t, u[1..]); }
  }

  /** A PR that passes only by a reference across the newline: a colon behind its title has it refused. */
  lemma TitleMayNotGrow(x: Text, pr: PrMetadata, valid: seq<Milestone>)
    requires pr.title == "ref" && pr.body == "#1" && (exists l :: l in pr.labels && TierOrArea(l))
    requires x.trim(pr.milestone) != "" && OpenMilestone(x, pr.milestone, valid)
    ensures ValidatePrMetadata(x, pr, valid) == Accepted
    ensures ValidatePrMetadata(x, pr.(title := pr.title + ":"), valid) == NoIssueReference
  {
    hide OpenMilestone, TierOrArea, Combined, RefAt;
    var t := x.table;
    RefAcrossNewline(t);
    NoRefInShort(t, pr.title);
    NoRefInShort(t, pr.body);
    assert HasRef(t, Combined(pr.title, pr.body)) by { CombinedIsSome(pr.title, pr.body); }
    assert !HasRef(t, Combined(pr.title + ":", pr.body)) by {
      hide HasRef;
      if HasRef(t, Combined(pr.title + ":", pr.body)) { ColonBehindTitle(t, pr.title, pr.body); }
    }
    hide HasRef;
    FindsOpenMilestone(x, pr.milestone, valid);
    FindsLabel(pr.labels, pr.labels);
  }

  lemma CombinedIsSome(title: string, body: string)
    ensures Combined(title, body) != ""
  {
  }
}
