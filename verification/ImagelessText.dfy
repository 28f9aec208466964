/**
 Reading generated scripts back: the text parses as the compiled script exactly when the names in it are
 free of quotes, `$`, backticks, backslashes and newlines, and its file tests are then the plan.
 */
module ImagelessText {
  import opened Options
  import opened Flavors
  import opened Bash
  import opened BashRoundTrip
  import opened Imageless

  // ----- Reading the script back -----

  /** All names the script mentions stand for themselves. */
  predicate CleanNames(fl: Flavor, opts: ApplyOptions) {
    && CleanWord(fl.id) && '\n' !in fl.name && CleanWord(fl.hardwareStack)
    && (!opts.dryRun ==> CleanWord(fl.kernelProfile) && CleanWord(fl.preheatProfile))
    && CleanWords(if opts.dryRun then fl.provisioners else Plan(fl.provisioners, opts.skipCleanup))
  }

  predicate CleanWords(ps: seq<string>) { forall i :: 0 <= i < |ps| ==> CleanWord(ps[i]) }

  lemma CleanTogether(a: string, b: string)
    ensures CleanWord(a + b) <==> CleanWord(a) && CleanWord(b)
  {
    assert forall i :: 0 <= i < |a| ==> (a + b)[i] == a[i];
    assert forall i :: 0 <= i < |b| ==> (a + b)[|a| + i] == b[i];
  }

  lemma {:induction false} CleanCommands(cs: seq<Command>)
    ensures Clean(Commands(cs)) <==> forall i :: 0 <= i < |cs| ==> CleanCommand(cs[i])
  {
    hide CleanCommand;
    if cs != [] {
      var m := |cs| - 1;
      CleanCommands(cs[..m]);
      CleanJoin(Commands(cs[..m]), One(cs[m]));
    }
  }

  lemma CleanFixedWords()
    ensures CleanWord("==> Flavor: ") && CleanWord(" | Hardware Stack: ") && CleanWord("    [SIMULATED] ")
    ensures CleanWord("packer/provisioners/")
  {
  }

  lemma CleanMoreWords()
    ensures CleanWord("==> Executing provisioner: ") && CleanWord("    Warning: provisioner ")
    ensures CleanWord(" not found in local workspace")
  {
  }

  lemma CleanLines(fl: Flavor, p: string)
    ensures CleanWord(Chosen(fl)) <==> CleanWord(fl.id) && CleanWord(fl.hardwareStack)
    ensures CleanWord(Simulated(p)) <==> CleanWord(p)
    ensures CleanWord(Executing(p)) <==> CleanWord(p)
    ensures CleanWord(Missing(p)) <==> CleanWord(p)
    ensures CleanWord(PathOf(p)) <==> CleanWord(p)
  {
    hide CleanWord;
    CleanFixedWords();
    CleanMoreWords();
    CleanTogether("==> Flavor: ", fl.id);
    CleanTogether("==> Flavor: " + fl.id, " | Hardware Stack: ");
    CleanTogether("==> Flavor: " + fl.id + " | Hardware Stack: ", fl.hardwareStack);
    CleanTogether("    [SIMULATED] ", p);
    CleanTogether("==> Executing provisioner: ", p);
    CleanTogether("    Warning: provisioner ", p);
    CleanTogether("    Warning: provisioner " + p, " not found in local workspace");
    CleanTogether("packer/provisioners/", p);
  }

  lemma CleanTarget(fl: Flavor)
    requires CleanWord(fl.id)
    ensures '\n' !in Target(fl) <==> '\n' !in fl.name
  {
    var pre, post := " Target Flavor: " + fl.id + " (", ")";
    assert '\n' !in pre by {
      OneLineTogether(" Target Flavor: ", fl.id);
      OneLineTogether(" Target Flavor: " + fl.id, " (");
    }
    assert Target(fl) == pre + fl.name + post;
  }

  lemma CleanShort()
    ensures OneLine(SHEBANG) && OneLine(ENVIRONMENT) && OneLine(EXECUTION)
  {
  }

  lemma CleanBanner()
    ensures OneLine(BANNER)
  {
    assert OneLine(" Lusoris Imageless ") && OneLine("Provisioning Script");
    hide OneLine;
    OneLineTogether(" Lusoris Imageless ", "Provisioning Script");
  }

  lemma CleanGenerated()
    ensures OneLine(GENERATED)
  {
    assert OneLine(" Generated automatically ") && OneLine("by lusoris-forge");
    hide OneLine;
    OneLineTogether(" Generated automatically ", "by lusoris-forge");
  }

  lemma CleanInitiating()
    ensures CleanWord(INITIATING)
  {
    assert CleanWord("==> Initiating Lusoris ") && CleanWord("imageless flavor application...");
    hide CleanWord;
    CleanTogether("==> Initiating Lusoris ", "imageless flavor application...");
  }

  lemma CleanDryRun()
    ensures CleanWord(DRY_RUN)
  {
    assert CleanWord("==> DRY-RUN: Simulating ") && CleanWord("provisioner execution for:");
    hide CleanWord;
    CleanTogether("==> DRY-RUN: Simulating ", "provisioner execution for:");
  }

  lemma CleanDryRunDone()
    ensures CleanWord(DRY_RUN_DONE)
  {
    assert CleanWord("==> DRY-RUN ") && CleanWord("completed successfully.");
    hide CleanWord;
    CleanTogether("==> DRY-RUN ", "completed successfully.");
  }

  lemma CleanComplete()
    ensures CleanWord(COMPLETE)
  {
    assert CleanWord("==> Imageless flavor ") && CleanWord("application complete.");
    hide CleanWord;
    CleanTogether("==> Imageless flavor ", "application complete.");
  }

  lemma CleanFixedLines()
    ensures '\n' !in SHEBANG && '\n' !in BANNER && '\n' !in GENERATED && '\n' !in ENVIRONMENT && '\n' !in EXECUTION
    ensures CleanWord(INITIATING) && CleanWord(DRY_RUN) && CleanWord(DRY_RUN_DONE) && CleanWord(COMPLETE)
  {
    CleanShort();
    CleanBanner();
    CleanGenerated();
    hide CleanWord, SHEBANG, BANNER, GENERATED, ENVIRONMENT, EXECUTION;
    CleanInitiating();
    CleanDryRun();
    CleanDryRunDone();
    CleanComplete();
  }

  lemma ExportNames()
    ensures IsName("FLAVOR") && IsName("KERNEL_PROFILE") && IsName("PREHEAT_PROFILE")
  {
  }

  lemma CleanHeader(fl: Flavor)
    ensures Clean(Header(fl)) <==> CleanWord(fl.id) && '\n' !in fl.name && CleanWord(fl.hardwareStack)
  {
    HeaderIs(fl);
    CleanLines(fl, "");
    CleanFixedLines();
    if CleanWord(fl.id) { CleanTarget(fl); }
    var cs := [Comment(SHEBANG), Comment(BANNER), Comment(Target(fl)), Comment(GENERATED)]
      + [Strict, Blank, Echo(INITIATING), Echo(Chosen(fl)), Blank];
    CleanCommands(cs);
    assert cs[2] == Comment(Target(fl)) && cs[7] == Echo(Chosen(fl));
    hide CleanWord, Target, Chosen, Header, Clean, Commands;
    assert CleanCommand(cs[2]) <==> '\n' !in Target(fl);
    assert CleanCommand(cs[7]) <==> CleanWord(Chosen(fl));
  }

  lemma CleanEnvironment(fl: Flavor)
    ensures Clean(Environment(fl)) <==> CleanWord(fl.kernelProfile) && CleanWord(fl.preheatProfile) && CleanWord(fl.id)
  {
    EnvironmentIs(fl);
    CleanFixedLines();
    ExportNames();
    assert fl.preheatProfile == "" ==> CleanWord(fl.preheatProfile);
    var cs := [Comment(ENVIRONMENT), Export("FLAVOR", fl.id), Export("KERNEL_PROFILE", fl.kernelProfile)]
      + (if fl.preheatProfile != "" then [Export("PREHEAT_PROFILE", fl.preheatProfile)] else []) + [Blank];
    CleanCommands(cs);
    hide CleanWord, Environment, Clean, Commands, IsName;
    assert CleanCommand(cs[1]) <==> CleanWord(fl.id);
    assert CleanCommand(cs[2]) <==> CleanWord(fl.kernelProfile);
    if fl.preheatProfile != "" { assert CleanCommand(cs[3]) <==> CleanWord(fl.preheatProfile); }
  }

  lemma CleanIf(p: string, yes: Script, no: Script, next: Script)
    requires HasCommand(yes) && HasCommand(no)
    ensures Clean(IfFile(p, yes, no, next)) <==> CleanWord(p) && Clean(yes) && Clean(no) && Clean(next)
  {
    hide CleanWord, HasCommand;
  }

  lemma CleanThen(c: Command, rest: Script)
    ensures Clean(Then(c, rest)) <==> CleanCommand(c) && Clean(rest)
  {
    hide CleanCommand;
  }

  lemma OneHasCommand(c: Command)
    requires !c.Blank? && !c.Comment?
    ensures HasCommand(One(c))
  {
  }

  lemma CleanStage(p: string)
    ensures Clean(Stage(p)) <==> CleanWord(p)
  {
    CleanLines(Flavor("", "", 0, "", "", "", "", "", []), p);
    hide Clean, CleanWord, HasCommand, Executing, Missing, PathOf, One;
    var yes, no := Run(PathOf(p)), Echo(Missing(p));
    OneHasCommand(yes);
    OneHasCommand(no);
    CleanOne(yes);
    CleanOne(no);
    CleanOne(Blank);
    CleanIf(PathOf(p), One(yes), One(no), One(Blank));
    CleanThen(Echo(Executing(p)), IfFile(PathOf(p), One(yes), One(no), One(Blank)));
  }

  lemma {:induction false} CleanStages(ps: seq<string>)
    ensures Clean(Stages(ps)) <==> CleanWords(ps)
  {
    hide CleanWord, Stage;
    if ps != [] {
      var m := |ps| - 1;
      CleanStages(ps[..m]);
      CleanStage(ps[m]);
      CleanJoin(Stages(ps[..m]), Stage(ps[m]));
    }
  }

  lemma CleanSimulation(ps: seq<string>)
    ensures Clean(Simulation(ps)) <==> CleanWords(ps)
  {
    var cs := seq(|ps|, i requires 0 <= i < |ps| => Echo(Simulated(ps[i])));
    CleanCommands(cs);
    forall i | 0 <= i < |ps| ensures CleanCommand(cs[i]) <==> CleanWord(ps[i]) {
      CleanLines(Flavor("", "", 0, "", "", "", "", "", []), ps[i]);
    }
    hide CleanWord, Simulated, CleanCommand, Commands, Clean;
  }

  lemma CleanOne(c: Command)
    ensures Clean(One(c)) <==> CleanCommand(c)
  {
    hide CleanCommand;
  }

  lemma CleanLive(fl: Flavor, ps: seq<string>)
    ensures Clean(Join(Join(Join(Environment(fl), One(Comment(EXECUTION))), Stages(ps)), One(Echo(COMPLETE)))) <==>
      CleanWord(fl.kernelProfile) && CleanWord(fl.preheatProfile) && CleanWord(fl.id) && CleanWords(ps)
  {
    CleanFixedLines();
    assert CleanCommand(Comment(EXECUTION)) && CleanCommand(Echo(COMPLETE));
    hide *;
    var a, b, c, d := Environment(fl), One(Comment(EXECUTION)), Stages(ps), One(Echo(COMPLETE));
    CleanEnvironment(fl);
    CleanOne(Comment(EXECUTION));
    CleanStages(ps);
    CleanOne(Echo(COMPLETE));
    CleanJoin(a, b);
    CleanJoin(Join(a, b), c);
    CleanJoin(Join(Join(a, b), c), d);
  }

  lemma CleanDry(fl: Flavor)
    ensures Clean(DryRun(fl)) <==> CleanWords(fl.provisioners)
  {
    CleanFixedLines();
    hide CleanWord, Clean, Simulation, Join, One;
    var a, b, c := One(Echo(DRY_RUN)), Simulation(fl.provisioners), One(Echo(DRY_RUN_DONE));
    CleanOne(Echo(DRY_RUN));
    CleanOne(Echo(DRY_RUN_DONE));
    CleanSimulation(fl.provisioners);
    CleanJoin(a, b);
    CleanJoin(Join(a, b), c);
  }

  lemma CleanCompile(fl: Flavor, opts: ApplyOptions)
    ensures Clean(Compile(fl, opts)) <==> CleanNames(fl, opts)
  {
    hide CleanWord, Clean, Header, Environment, Stages, DryRun, Join, One, Plan;
    CleanHeader(fl);
    if opts.dryRun {
      CleanJoin(Header(fl), DryRun(fl));
      CleanDry(fl);
    } else {
      CleanJoin(Header(fl), Live(fl, opts.skipCleanup));
      CleanLive(fl, Plan(fl.provisioners, opts.skipCleanup));
    }
  }

  /** The file tests of a script, outside of branches, in order. */
  function FileTests(s: Script): seq<string> {
    match s
    case End => []
    case Then(_, rest) => FileTests(rest)
    case IfFile(p, _, _, next) => [p] + FileTests(next)
  }

  lemma {:induction false} FileTestsJoin(a: Script, b: Script)
    ensures FileTests(Join(a, b)) == FileTests(a) + FileTests(b)
  {
    match a
    case End =>
    case Then(_, rest) => FileTestsJoin(rest, b);
    case IfFile(_, _, _, next) => FileTestsJoin(next, b);
  }

  lemma {:induction false} CommandsTestNothing(cs: seq<Command>)
    ensures FileTests(Commands(cs)) == []
  {
    if cs != [] {
      CommandsTestNothing(cs[..|cs| - 1]);
      FileTestsJoin(Commands(cs[..|cs| - 1]), One(cs[|cs| - 1]));
    }
  }

  function Paths(ps: seq<string>): seq<string> { seq(|ps|, i requires 0 <= i < |ps| => PathOf(ps[i])) }

  lemma StageTests(p: string)
    ensures FileTests(Stage(p)) == [PathOf(p)]
  {
    hide PathOf;
    OneTestsNothing(Blank);
    assert FileTests(IfFile(PathOf(p), One(Run(PathOf(p))), One(Echo(Missing(p))), One(Blank))) == [PathOf(p)];
  }

  lemma {:induction false} StagesTestPlan(ps: seq<string>)
    ensures FileTests(Stages(ps)) == Paths(ps)
  {
    hide PathOf;
    if ps != [] {
      var m := |ps| - 1;
      StagesTestPlan(ps[..m]);
      FileTestsJoin(Stages(ps[..m]), Stage(ps[m]));
      StageTests(ps[m]);
      assert Paths(ps) == Paths(ps[..m]) + [PathOf(ps[m])];
    }
  }

  lemma LiveTestsPlan(fl: Flavor, opts: ApplyOptions)
    requires !opts.dryRun
    ensures FileTests(Compile(fl, opts)) == Paths(Plan(fl.provisioners, opts.skipCleanup))
  {
    HeaderIs(fl);
    EnvironmentIs(fl);
    hide Header, Environment, Commands, Stages, Plan, Paths, Join, FileTests;
    var ps := Plan(fl.provisioners, opts.skipCleanup);
    CommandsTestNothing([Comment(SHEBANG), Comment(BANNER), Comment(Target(fl)), Comment(GENERATED)]
      + [Strict, Blank, Echo(INITIATING), Echo(Chosen(fl)), Blank]);
    CommandsTestNothing([Comment(ENVIRONMENT), Export("FLAVOR", fl.id), Export("KERNEL_PROFILE", fl.kernelProfile)]
      + (if fl.preheatProfile != "" then [Export("PREHEAT_PROFILE", fl.preheatProfile)] else []) + [Blank]);
    OneTestsNothing(Comment(EXECUTION));
    OneTestsNothing(Echo(COMPLETE));
    StagesTestPlan(ps);
    var a, b, c, d := Environment(fl), One(Comment(EXECUTION)), Stages(ps), One(Echo(COMPLETE));
    FileTestsJoin(a, b);
    FileTestsJoin(Join(a, b), c);
    FileTestsJoin(Join(Join(a, b), c), d);
    FileTestsJoin(Header(fl), Live(fl, opts.skipCleanup));
  }

  lemma OneTestsNothing(c: Command)
    ensures FileTests(One(c)) == []
  {
  }

  /** The text parses as the compiled script iff all names are clean; then its file tests are the plan. */
  lemma ScriptRecoversPlan(fl: Flavor, opts: ApplyOptions)
    ensures var text := Print(Compile(fl, opts));
      && (Parse(text) == Some(Compile(fl, opts)) <==> CleanNames(fl, opts))
      && (CleanNames(fl, opts) && !opts.dryRun ==>
          FileTests(Parse(text).value) == Paths(Plan(fl.provisioners, opts.skipCleanup)))
  {
    hide Parse, Print, Compile, CleanNames, FileTests, Paths, Plan;
    ParsePrint(Compile(fl, opts));
    CleanCompile(fl, opts);
    if !opts.dryRun { LiveTestsPlan(fl, opts); }
  }
}
