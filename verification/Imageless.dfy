/**
 The imageless script generator: a flavor's provisioner plan is compiled to bash, and running the
 script is running the plan.
 */
module Imageless {
  import opened Options
  import opened Flavors
  import opened Bash

  datatype ApplyOptions = ApplyOptions(flavorId: string, targetHost: string, dryRun: bool, skipCleanup: bool)

  // The fixed texts; the longer ones in two halves, which proofs about them take one at a time.
  const SHEBANG := "!/usr/bin/env bash"
  const BANNER := " Lusoris Imageless " + "Provisioning Script"
  const GENERATED := " Generated automatically " + "by lusoris-forge"
  const INITIATING := "==> Initiating Lusoris " + "imageless flavor application..."
  const DRY_RUN := "==> DRY-RUN: Simulating " + "provisioner execution for:"
  const DRY_RUN_DONE := "==> DRY-RUN " + "completed successfully."
  const ENVIRONMENT := " Environment configuration"
  const EXECUTION := " Execution pipeline"
  const COMPLETE := "==> Imageless flavor " + "application complete."
  const CLEANUP := "99-cleanup.sh"

  function Target(fl: Flavor): string { " Target Flavor: " + fl.id + " (" + fl.name + ")" }

  function Chosen(fl: Flavor): string { "==> Flavor: " + fl.id + " | Hardware Stack: " + fl.hardwareStack }

  function Simulated(p: string): string { "    [SIMULATED] " + p }

  function Executing(p: string): string { "==> Executing provisioner: " + p }

  function Missing(p: string): string { "    Warning: provisioner " + p + " not found in local workspace" }

  function PathOf(p: string): string { "packer/provisioners/" + p }

  /** The provisioners a live run goes through. */
  function Plan(ps: seq<string>, skipCleanup: bool): seq<string> {
    if ps == [] then []
    else Plan(ps[..|ps| - 1], skipCleanup) + if skipCleanup && ps[|ps| - 1] == CLEANUP then [] else [ps[|ps| - 1]]
  }

  // ----- The compiled script -----

  function One(c: Command): Script { Then(c, End) }

  function Commands(cs: seq<Command>): Script {
    if cs == [] then End else Join(Commands(cs[..|cs| - 1]), One(cs[|cs| - 1]))
  }

  function Header(fl: Flavor): Script {
    Commands([Comment(SHEBANG), Comment(BANNER), Comment(Target(fl)), Comment(GENERATED)]
      + [Strict, Blank, Echo(INITIATING), Echo(Chosen(fl)), Blank])
  }

  function Simulation(ps: seq<string>): Script {
    Commands(seq(|ps|, i requires 0 <= i < |ps| => Echo(Simulated(ps[i]))))
  }

  function Environment(fl: Flavor): Script {
    Commands([Comment(ENVIRONMENT), Export("FLAVOR", fl.id), Export("KERNEL_PROFILE", fl.kernelProfile)]
      + (if fl.preheatProfile != "" then [Export("PREHEAT_PROFILE", fl.preheatProfile)] else []) + [Blank])
  }

  function Stage(p: string): Script {
    Then(Echo(Executing(p)), IfFile(PathOf(p), One(Run(PathOf(p))), One(Echo(Missing(p))), One(Blank)))
  }

  function Stages(ps: seq<string>): Script {
    if ps == [] then End else Join(Stages(ps[..|ps| - 1]), Stage(ps[|ps| - 1]))
  }

  function DryRun(fl: Flavor): Script {
    Join(Join(One(Echo(DRY_RUN)), Simulation(fl.provisioners)), One(Echo(DRY_RUN_DONE)))
  }

  function Live(fl: Flavor, skipCleanup: bool): Script {
    Join(Join(Join(Environment(fl), One(Comment(EXECUTION))), Stages(Plan(fl.provisioners, skipCleanup))),
      One(Echo(COMPLETE)))
  }

  function Compile(fl: Flavor, opts: ApplyOptions): Script {
    Join(Header(fl), if opts.dryRun then DryRun(fl) else Live(fl, opts.skipCleanup))
  }

  // ----- The generator -----

  function EchoText(w: string): string { "echo \"" + w + "\"" + "\n" }

  method GenerateApplyScript(catalog: Catalog, opts: ApplyOptions) returns (text: Option<string>)
    requires catalog.Valid()
    ensures var fl := LastWithId(catalog.flavors, opts.flavorId);
      text == if fl.Some? then Some(Print(Compile(fl.value, opts))) else None
  {
    var found := catalog.Get(opts.flavorId);
    if found.None? { return None; }
    var fl := found.value;
    hide *;
    var sb := "#" + SHEBANG + "\n" + ("#" + BANNER + "\n");
    sb := sb + ("#" + Target(fl) + "\n") + ("#" + GENERATED + "\n") + ("set -euo pipefail" + "\n") + ("" + "\n");
    sb := sb + EchoText(INITIATING) + EchoText(Chosen(fl)) + ("" + "\n");
    PrintHeader(fl);
    if opts.dryRun {
      var rest := GenerateDryRun(fl);
      PrintJoin(Header(fl), DryRun(fl));
      CompileIs(fl, opts);
      return Some(sb + rest);
    }
    var rest := GenerateLive(fl, opts.skipCleanup);
    PrintJoin(Header(fl), Live(fl, opts.skipCleanup));
    CompileIs(fl, opts);
    return Some(sb + rest);
  }

  method GenerateDryRun(fl: Flavor) returns (sb: string)
    ensures sb == Print(DryRun(fl))
  {
    hide *;
    PrintEcho(DRY_RUN);
    sb := EchoText(DRY_RUN);
    NoSimulation();
    for i := 0 to |fl.provisioners|
      invariant sb == EchoText(DRY_RUN) + Print(Simulation(fl.provisioners[..i]))
    {
      var p := fl.provisioners[i];
      sb := sb + EchoText(Simulated(p));
      PrintSimulation(fl.provisioners, i);
    }
    assert fl.provisioners[..|fl.provisioners|] == fl.provisioners;
    sb := sb + EchoText(DRY_RUN_DONE);
    PrintDryRun(fl);
  }

  method GenerateLive(fl: Flavor, skipCleanup: bool) returns (sb: string)
    ensures sb == Print(Live(fl, skipCleanup))
  {
    hide *;
    sb := "#" + ENVIRONMENT + "\n";
    sb := sb + ("export " + "FLAVOR" + "=\"" + fl.id + "\"" + "\n");
    sb := sb + ("export " + "KERNEL_PROFILE" + "=\"" + fl.kernelProfile + "\"" + "\n");
    if fl.preheatProfile != "" {
      sb := sb + ("export " + "PREHEAT_PROFILE" + "=\"" + fl.preheatProfile + "\"" + "\n");
    }
    sb := sb + ("" + "\n");
    PrintEnvironment(fl);
    sb := sb + ("#" + EXECUTION + "\n");
    ghost var before := sb;
    NoStages(fl.provisioners, skipCleanup);
    for i := 0 to |fl.provisioners|
      invariant sb == before + Print(Stages(Plan(fl.provisioners[..i], skipCleanup)))
    {
      var p := fl.provisioners[i];
      PlanStep(fl.provisioners, i, skipCleanup);
      ghost var plan := Plan(fl.provisioners[..i], skipCleanup);
      assert plan + [] == plan;
      if skipCleanup && p == CLEANUP { continue; }
      sb := sb + (EchoText(Executing(p))
        + ("if [ -f \"" + PathOf(p) + "\" ]; then" + "\n")
        + ("  " + ("bash \"" + PathOf(p) + "\"") + "\n")
        + ("else" + "\n")
        + ("  " + ("echo \"" + Missing(p) + "\"") + "\n")
        + ("fi" + "\n") + ("" + "\n"));
      PrintStages(plan, p);
    }
    assert fl.provisioners[..|fl.provisioners|] == fl.provisioners;
    sb := sb + EchoText(COMPLETE);
    PrintLive(fl, skipCleanup);
  }

  // ----- The text of the pieces -----

  lemma CompileIs(fl: Flavor, opts: ApplyOptions)
    ensures Compile(fl, opts) == Join(Header(fl), if opts.dryRun then DryRun(fl) else Live(fl, opts.skipCleanup))
  {
    hide Header, DryRun, Live;
  }

  lemma LinesOne(c: Command, depth: nat)
    ensures Lines(One(c), depth) == [Indent(depth) + Words(c)]
  {
    hide Words;
  }

  lemma NoIndent(s: string)
    ensures Indent(0) + s == s
  {
  }

  lemma JoinOneLine(l: string)
    ensures JoinLines([l]) == l + "\n"
  {
    assert [l][1..] == [];
  }

  lemma PrintOne(c: Command)
    ensures Print(One(c)) == Words(c) + "\n"
  {
    hide Words, Lines, JoinLines, Indent, One;
    LinesOne(c, 0);
    NoIndent(Words(c));
    JoinOneLine(Words(c));
  }

  lemma WordsAre(w: string, name: string)
    ensures Words(Echo(w)) + "\n" == EchoText(w)
    ensures Words(Comment(w)) + "\n" == "#" + w + "\n"
    ensures Words(Export(name, w)) + "\n" == "export " + name + "=\"" + w + "\"" + "\n"
    ensures Words(Strict) == "set -euo pipefail" && Words(Blank) == ""
  {
  }

  lemma PrintEcho(w: string)
    ensures Print(One(Echo(w))) == EchoText(w)
  {
    hide *;
    PrintOne(Echo(w));
    WordsAre(w, "");
  }

  lemma PrintComment(w: string)
    ensures Print(One(Comment(w))) == "#" + w + "\n"
  {
    hide *;
    PrintOne(Comment(w));
    WordsAre(w, "");
  }

  lemma PrintStrictBlank(cs: seq<Command>)
    ensures Print(Commands(cs + [Strict] + [Blank])) == Print(Commands(cs)) + ("set -euo pipefail" + "\n") + ("" + "\n")
  {
    hide *;
    WordsAre("", "");
    PrintMore(cs, Strict);
    PrintMore(cs + [Strict], Blank);
  }

  lemma PrintMore(cs: seq<Command>, c: Command)
    ensures Print(Commands(cs + [c])) == Print(Commands(cs)) + (Words(c) + "\n")
  {
    CommandsMore(cs, c);
    hide *;
    PrintJoin(Commands(cs), One(c));
    PrintOne(c);
  }

  lemma CommandsMore(cs: seq<Command>, c: Command)
    ensures Commands(cs + [c]) == Join(Commands(cs), One(c))
  {
    hide Join, One;
    assert (cs + [c])[..|cs|] == cs;
  }

  lemma PrintNothing()
    ensures Print(Commands([])) == ""
  {
  }

  lemma PrintTop(fl: Flavor)
    ensures Print(Commands([Comment(SHEBANG), Comment(BANNER), Comment(Target(fl)), Comment(GENERATED)])) ==
      "#" + SHEBANG + "\n" + ("#" + BANNER + "\n") + ("#" + Target(fl) + "\n") + ("#" + GENERATED + "\n")
  {
    hide *;
    var a, b, c, d := Comment(SHEBANG), Comment(BANNER), Comment(Target(fl)), Comment(GENERATED);
    PrintNothing();
    PrintMore([], a);
    PrintMore([a], b);
    PrintMore([a, b], c);
    PrintMore([a, b, c], d);
    WordsAre(SHEBANG, "");
    WordsAre(BANNER, "");
    WordsAre(Target(fl), "");
    WordsAre(GENERATED, "");
    assert [] + [a] == [a] && [a] + [b] == [a, b] && [a, b] + [c] == [a, b, c] && [a, b, c] + [d] == [a, b, c, d];
  }

  lemma PrintHeader(fl: Flavor)
    ensures Print(Header(fl)) ==
      "#" + SHEBANG + "\n" + ("#" + BANNER + "\n")
      + ("#" + Target(fl) + "\n") + ("#" + GENERATED + "\n") + ("set -euo pipefail" + "\n") + ("" + "\n")
      + EchoText(INITIATING) + EchoText(Chosen(fl)) + ("" + "\n")
  {
    HeaderIs(fl);
    hide *;
    PrintTop(fl);
    var top := [Comment(SHEBANG), Comment(BANNER), Comment(Target(fl)), Comment(GENERATED)];
    var f, g := Echo(INITIATING), Echo(Chosen(fl));
    PrintStrictBlank(top);
    var mid := top + [Strict] + [Blank];
    PrintMore(mid, f);
    PrintMore(mid + [f], g);
    PrintMore(mid + [f] + [g], Blank);
    WordsAre(INITIATING, "");
    WordsAre(Chosen(fl), "");
    assert mid + [f] + [g] + [Blank] == top + [Strict, Blank, f, g, Blank];
  }

  lemma HeaderIs(fl: Flavor)
    ensures Header(fl) == Commands([Comment(SHEBANG), Comment(BANNER), Comment(Target(fl)), Comment(GENERATED)]
      + [Strict, Blank, Echo(INITIATING), Echo(Chosen(fl)), Blank])
  {
    hide Commands;
  }

  lemma PrintExports(fl: Flavor)
    ensures Print(Commands([Comment(ENVIRONMENT), Export("FLAVOR", fl.id),
        Export("KERNEL_PROFILE", fl.kernelProfile)])) ==
      "#" + ENVIRONMENT + "\n"
      + ("export " + "FLAVOR" + "=\"" + fl.id + "\"" + "\n")
      + ("export " + "KERNEL_PROFILE" + "=\"" + fl.kernelProfile + "\"" + "\n")
  {
    hide *;
    var a, b, c := Comment(ENVIRONMENT), Export("FLAVOR", fl.id), Export("KERNEL_PROFILE", fl.kernelProfile);
    PrintNothing();
    PrintMore([], a);
    PrintMore([a], b);
    PrintMore([a, b], c);
    WordsAre(ENVIRONMENT, "");
    WordsAre(fl.id, "FLAVOR");
    WordsAre(fl.kernelProfile, "KERNEL_PROFILE");
    assert [] + [a] == [a] && [a] + [b] == [a, b] && [a, b] + [c] == [a, b, c];
  }

  lemma PrintEnvironment(fl: Flavor)
    ensures Print(Environment(fl)) ==
      "#" + ENVIRONMENT + "\n"
      + ("export " + "FLAVOR" + "=\"" + fl.id + "\"" + "\n")
      + ("export " + "KERNEL_PROFILE" + "=\"" + fl.kernelProfile + "\"" + "\n")
      + (if fl.preheatProfile != "" then "export " + "PREHEAT_PROFILE" + "=\"" + fl.preheatProfile + "\"" + "\n"
        else "")
      + ("" + "\n")
  {
    EnvironmentIs(fl);
    hide *;
    PrintExports(fl);
    WordsAre("", "");
    var top := [Comment(ENVIRONMENT), Export("FLAVOR", fl.id), Export("KERNEL_PROFILE", fl.kernelProfile)];
    var text := Print(Commands(top));
    if fl.preheatProfile != "" {
      var d := Export("PREHEAT_PROFILE", fl.preheatProfile);
      PrintMore(top, d);
      WordsAre(fl.preheatProfile, "PREHEAT_PROFILE");
      PrintMore(top + [d], Blank);
    } else {
      PrintMore(top, Blank);
      assert top + [] == top && text + "" == text;
    }
  }

  lemma EnvironmentIs(fl: Flavor)
    ensures Environment(fl) ==
      Commands([Comment(ENVIRONMENT), Export("FLAVOR", fl.id), Export("KERNEL_PROFILE", fl.kernelProfile)]
        + (if fl.preheatProfile != "" then [Export("PREHEAT_PROFILE", fl.preheatProfile)] else []) + [Blank])
  {
    hide Commands;
  }

  lemma NoSimulation()
    ensures Print(Simulation([])) == ""
  {
  }

  lemma PrintSimulation(ps: seq<string>, i: nat)
    requires i < |ps|
    ensures Print(Simulation(ps[..i + 1])) == Print(Simulation(ps[..i])) + EchoText(Simulated(ps[i]))
  {
    SimulationIs(ps, i);
    hide *;
    var cs := seq(i, j requires 0 <= j < i => Echo(Simulated(ps[j])));
    PrintMore(cs, Echo(Simulated(ps[i])));
    WordsAre(Simulated(ps[i]), "");
  }

  lemma SimulationIs(ps: seq<string>, i: nat)
    requires i < |ps|
    ensures var cs := seq(i, j requires 0 <= j < i => Echo(Simulated(ps[j])));
      Simulation(ps[..i]) == Commands(cs) && Simulation(ps[..i + 1]) == Commands(cs + [Echo(Simulated(ps[i]))])
  {
    hide Commands, Simulated;
    var cs := seq(i, j requires 0 <= j < i => Echo(Simulated(ps[j])));
    assert cs == seq(|ps[..i]|, j requires 0 <= j < |ps[..i]| => Echo(Simulated(ps[..i][j])));
    assert cs + [Echo(Simulated(ps[i]))] ==
      seq(|ps[..i + 1]|, j requires 0 <= j < |ps[..i + 1]| => Echo(Simulated(ps[..i + 1][j])));
  }

  lemma PrintDryRun(fl: Flavor)
    ensures Print(DryRun(fl)) == EchoText(DRY_RUN) + Print(Simulation(fl.provisioners)) + EchoText(DRY_RUN_DONE)
  {
    hide Print, Join, One, Simulation, EchoText;
    PrintJoin(Join(One(Echo(DRY_RUN)), Simulation(fl.provisioners)), One(Echo(DRY_RUN_DONE)));
    PrintJoin(One(Echo(DRY_RUN)), Simulation(fl.provisioners));
    PrintEcho(DRY_RUN);
    PrintEcho(DRY_RUN_DONE);
  }

  lemma NoStages(ps: seq<string>, skipCleanup: bool)
    ensures Print(Stages(Plan(ps[..0], skipCleanup))) == ""
  {
  }

  lemma PlanStep(ps: seq<string>, i: nat, skipCleanup: bool)
    requires i < |ps|
    ensures Plan(ps[..i + 1], skipCleanup) ==
      Plan(ps[..i], skipCleanup) + if skipCleanup && ps[i] == CLEANUP then [] else [ps[i]]
  {
    assert ps[..i + 1][..i] == ps[..i];
  }

  lemma PrintStage(p: string)
    ensures Print(Stage(p)) ==
      EchoText(Executing(p))
      + ("if [ -f \"" + PathOf(p) + "\" ]; then" + "\n")
      + ("  " + ("bash \"" + PathOf(p) + "\"") + "\n")
      + ("else" + "\n")
      + ("  " + ("echo \"" + Missing(p) + "\"") + "\n")
      + ("fi" + "\n") + ("" + "\n")
  {
    var l0, l1, l2 := Words(Echo(Executing(p))), Text(If(PathOf(p))), "  " + Words(Run(PathOf(p)));
    var l3, l4, l5 := "else", "  " + Words(Echo(Missing(p))), "fi";
    StageLines(p);
    StageTexts(p);
    PrintIs(Stage(p));
    hide *;
    assert [l0, l1, l2, l3, l4, l5, ""] == [l0] + ([l1] + ([l2] + ([l3] + ([l4] + ([l5] + [""])))));
    JoinSeven(l0, l1, l2, l3, l4, l5, "");
  }

  lemma PrintIs(s: Script)
    ensures Print(s) == JoinLines(Lines(s, 0))
  {
  }

  lemma JoinSeven(l0: string, l1: string, l2: string, l3: string, l4: string, l5: string, l6: string)
    ensures JoinLines([l0] + ([l1] + ([l2] + ([l3] + ([l4] + ([l5] + [l6]))))))
      == l0 + "\n" + (l1 + "\n") + (l2 + "\n") + (l3 + "\n") + (l4 + "\n") + (l5 + "\n") + (l6 + "\n")
  {
    hide *;
    JoinLinesAppend([l0], [l1] + ([l2] + ([l3] + ([l4] + ([l5] + [l6])))));
    JoinLinesAppend([l1], [l2] + ([l3] + ([l4] + ([l5] + [l6]))));
    JoinLinesAppend([l2], [l3] + ([l4] + ([l5] + [l6])));
    JoinLinesAppend([l3], [l4] + ([l5] + [l6]));
    JoinLinesAppend([l4], [l5] + [l6]);
    JoinLinesAppend([l5], [l6]);
    JoinOneLine(l0);
    JoinOneLine(l1);
    JoinOneLine(l2);
    JoinOneLine(l3);
    JoinOneLine(l4);
    JoinOneLine(l5);
    JoinOneLine(l6);
    Seven(l0 + "\n", l1 + "\n", l2 + "\n", l3 + "\n", l4 + "\n", l5 + "\n", l6 + "\n");
  }

  lemma Seven(a: string, b: string, c: string, d: string, e: string, f: string, g: string)
    ensures a + (b + (c + (d + (e + (f + g))))) == a + b + c + d + e + f + g
  {
  }

  lemma StageLines(p: string)
    ensures Lines(Stage(p), 0) ==
      [Words(Echo(Executing(p))), Text(If(PathOf(p))), "  " + Words(Run(PathOf(p))),
       "else", "  " + Words(Echo(Missing(p))), "fi", ""]
  {
    assert Text(Else) == "else" && Text(Fi) == "fi" && Words(Blank) == "";
    hide Words, Text, PathOf, Executing, Missing;
    var yes, no := One(Run(PathOf(p))), One(Echo(Missing(p)));
    assert Indent(1) == "  ";
    LinesOne(Run(PathOf(p)), 1);
    LinesOne(Echo(Missing(p)), 1);
    LinesOne(Blank, 0);
    assert Indent(0) + Words(Echo(Executing(p))) == Words(Echo(Executing(p)));
    assert Indent(0) + Text(If(PathOf(p))) == Text(If(PathOf(p)));
    assert Indent(0) + Text(Else) == Text(Else) && Indent(0) + Text(Fi) == Text(Fi) &&
      Indent(0) + Words(Blank) == Words(Blank);
    hide One, Indent;
  }

  lemma StageTexts(p: string)
    ensures Words(Echo(Executing(p))) + "\n" == EchoText(Executing(p))
    ensures Text(If(PathOf(p))) == "if [ -f \"" + PathOf(p) + "\" ]; then"
    ensures Words(Run(PathOf(p))) == "bash \"" + PathOf(p) + "\""
    ensures Words(Echo(Missing(p))) == "echo \"" + Missing(p) + "\""
  {
    hide PathOf, Missing, Executing;
  }

  lemma PrintStages(ps: seq<string>, p: string)
    ensures Print(Stages(ps + [p])) == Print(Stages(ps)) +
      (EchoText(Executing(p))
        + ("if [ -f \"" + PathOf(p) + "\" ]; then" + "\n")
        + ("  " + ("bash \"" + PathOf(p) + "\"") + "\n")
        + ("else" + "\n")
        + ("  " + ("echo \"" + Missing(p) + "\"") + "\n")
        + ("fi" + "\n") + ("" + "\n"))
  {
    StagesMore(ps, p);
    hide *;
    PrintJoin(Stages(ps), Stage(p));
    PrintStage(p);
  }

  lemma StagesMore(ps: seq<string>, p: string)
    ensures Stages(ps + [p]) == Join(Stages(ps), Stage(p))
  {
    hide Join, Stage;
    assert (ps + [p])[..|ps|] == ps;
  }

  lemma PrintLive(fl: Flavor, skipCleanup: bool)
    ensures Print(Live(fl, skipCleanup)) ==
      Print(Environment(fl)) + ("#" + EXECUTION + "\n") + Print(Stages(Plan(fl.provisioners, skipCleanup))) +
        EchoText(COMPLETE)
  {
    hide Print, Join, One, Environment, Stages, Plan, EchoText;
    var env, mark, stages := Environment(fl), One(Comment(EXECUTION)), Stages(Plan(fl.provisioners, skipCleanup));
    PrintJoin(Join(Join(env, mark), stages), One(Echo(COMPLETE)));
    PrintJoin(Join(env, mark), stages);
    PrintJoin(env, mark);
    PrintComment(EXECUTION);
    PrintEcho(COMPLETE);
  }
}
