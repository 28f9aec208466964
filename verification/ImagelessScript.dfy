/**
 The generated script as text, written out line by line, and the plan it is generated from.
 */
module ImagelessScript {
  import opened Flavors
  import opened Bash
  import opened Imageless
  import opened ImagelessText

  // ----- The text -----

  function HeaderText(fl: Flavor): string {
    "#!/usr/bin/env bash\n"
    + ("# Lusoris Imageless " + "Provisioning Script\n")
    + ("# Target Flavor: " + fl.id + " (" + fl.name + ")\n")
    + ("# Generated automatically " + "by lusoris-forge\n")
    + "set -euo pipefail\n"
    + "\n"
    + ("echo \"==> Initiating Lusoris " + "imageless flavor application...\"\n")
    + ("echo \"==> Flavor: " + fl.id + " | Hardware Stack: " + fl.hardwareStack + "\"\n")
    + "\n"
  }

  function EnvironmentText(fl: Flavor): string {
    "# Environment configuration\n"
    + ("export FLAVOR=\"" + fl.id + "\"\n")
    + ("export KERNEL_PROFILE=\"" + fl.kernelProfile + "\"\n")
    + (if fl.preheatProfile != "" then "export PREHEAT_PROFILE=\"" + fl.preheatProfile + "\"\n" else "")
    + "\n"
  }

  function StageText(p: string): string {
    ("echo \"==> Executing provisioner: " + p + "\"\n")
    + ("if [ -f \"packer/provisioners/" + p + "\" ]; then\n")
    + ("  bash \"packer/provisioners/" + p + "\"\n")
    + "else\n"
    + ("  echo \"    Warning: provisioner " + p + " not found in local workspace\"\n")
    + "fi\n"
    + "\n"
  }

  function StagesText(ps: seq<string>, skipCleanup: bool): string {
    if ps == [] then ""
    else
      var p := ps[|ps| - 1];
      StagesText(ps[..|ps| - 1], skipCleanup) + if skipCleanup && p == "99-cleanup.sh" then "" else StageText(p)
  }

  function SimulationText(ps: seq<string>): string {
    if ps == [] then ""
    else SimulationText(ps[..|ps| - 1]) + ("echo \"    [SIMULATED] " + ps[|ps| - 1] + "\"\n")
  }

  function ScriptText(fl: Flavor, opts: ApplyOptions): string {
    HeaderText(fl) +
    if opts.dryRun then
      ("echo \"==> DRY-RUN: Simulating " + "provisioner execution for:\"\n")
      + SimulationText(fl.provisioners)
      + ("echo \"==> DRY-RUN " + "completed successfully.\"\n")
    else
      EnvironmentText(fl)
      + "# Execution pipeline\n"
      + StagesText(fl.provisioners, opts.skipCleanup)
      + ("echo \"==> Imageless flavor " + "application complete.\"\n")
  }

  // ----- Line by line -----

  /** A fixed text between the word that opens its line and what closes it. */
  lemma Fixed(a: string, b: string, c: string, d: string)
    ensures a + (b + c) + d == (a + b) + (c + d)
  {
  }

  lemma Shebang()
    ensures "#" + SHEBANG + "\n" == "#!/usr/bin/env bash\n"
  {
  }

  lemma Banner()
    ensures "#" + BANNER + "\n" == "# Lusoris Imageless " + "Provisioning Script\n"
  {
    Fixed("#", " Lusoris Imageless ", "Provisioning Script", "\n");
    assert "#" + " Lusoris Imageless " == "# Lusoris Imageless ";
    assert "Provisioning Script" + "\n" == "Provisioning Script\n";
  }

  lemma Generated()
    ensures "#" + GENERATED + "\n" == "# Generated automatically " + "by lusoris-forge\n"
  {
    Fixed("#", " Generated automatically ", "by lusoris-forge", "\n");
    assert "#" + " Generated automatically " == "# Generated automatically ";
    assert "by lusoris-forge" + "\n" == "by lusoris-forge\n";
  }

  /** An echoed text of two fixed halves. */
  lemma Echoed(a: string, b: string)
    ensures EchoText(a + b) == ("echo \"" + a) + (b + "\"\n")
  {
    assert "\"" + "\n" == "\"\n";
    assert "echo \"" + (a + b) + "\"" + "\n" == ("echo \"" + a) + (b + ("\"" + "\n"));
  }

  lemma Initiating()
    ensures EchoText(INITIATING) ==
        "echo \"==> Initiating Lusoris " + "imageless flavor application...\"\n"
  {
    hide EchoText;
    Echoed("==> Initiating Lusoris ", "imageless flavor application...");
    assert "echo \"" + "==> Initiating Lusoris " == "echo \"==> Initiating Lusoris ";
    assert "imageless flavor application..." + "\"\n" == "imageless flavor application...\"\n";
  }

  lemma DryRunLine()
    ensures EchoText(DRY_RUN) == "echo \"==> DRY-RUN: Simulating " + "provisioner execution for:\"\n"
  {
    hide EchoText;
    Echoed("==> DRY-RUN: Simulating ", "provisioner execution for:");
    assert "echo \"" + "==> DRY-RUN: Simulating " == "echo \"==> DRY-RUN: Simulating ";
    assert "provisioner execution for:" + "\"\n" == "provisioner execution for:\"\n";
  }

  lemma DryRunDoneLine()
    ensures EchoText(DRY_RUN_DONE) == "echo \"==> DRY-RUN " + "completed successfully.\"\n"
  {
    hide EchoText;
    Echoed("==> DRY-RUN ", "completed successfully.");
    assert "echo \"" + "==> DRY-RUN " == "echo \"==> DRY-RUN ";
    assert "completed successfully." + "\"\n" == "completed successfully.\"\n";
  }

  lemma CompleteLine()
    ensures EchoText(COMPLETE) == "echo \"==> Imageless flavor " + "application complete.\"\n"
  {
    hide EchoText;
    Echoed("==> Imageless flavor ", "application complete.");
    assert "echo \"" + "==> Imageless flavor " == "echo \"==> Imageless flavor ";
    assert "application complete." + "\"\n" == "application complete.\"\n";
  }

  lemma TargetLine(fl: Flavor)
    ensures "#" + Target(fl) + "\n" == "# Target Flavor: " + fl.id + " (" + fl.name + ")\n"
  {
    var t := " Target Flavor: ";
    assert "#" + " Target Flavor: " == "# Target Flavor: " && ")" + "\n" == ")\n";
    assert "#" + (t + fl.id + " (" + fl.name + ")") + "\n" == ("#" + t) + fl.id + " (" + fl.name + (")" + "\n");
  }

  lemma ChosenLine(fl: Flavor)
    ensures EchoText(Chosen(fl)) ==
        "echo \"==> Flavor: " + fl.id + " | Hardware Stack: " + fl.hardwareStack + "\"\n"
  {
    var a, b := "==> Flavor: ", " | Hardware Stack: ";
    assert "echo \"" + "==> Flavor: " == "echo \"==> Flavor: " && "\"" + "\n" == "\"\n";
    assert "echo \"" + (a + fl.id + b + fl.hardwareStack) + "\"" + "\n"
        == ("echo \"" + a) + fl.id + b + fl.hardwareStack + ("\"" + "\n");
  }

  lemma HeaderIsText(fl: Flavor)
    ensures Print(Header(fl)) == HeaderText(fl)
  {
    PrintHeader(fl);
    Shebang();
    Banner();
    TargetLine(fl);
    Generated();
    Initiating();
    ChosenLine(fl);
    assert "set -euo pipefail" + "\n" == "set -euo pipefail\n" && "" + "\n" == "\n";
    hide Print, Header, EchoText, Target, Chosen, SHEBANG, BANNER, GENERATED, INITIATING;
  }

  lemma ExportLine(name: string, w: string)
    ensures "export " + name + "=\"" + w + "\"" + "\n" == ("export " + name + "=\"") + w + "\"\n"
  {
    assert "\"" + "\n" == "\"\n";
  }

  lemma ExportWords()
    ensures "export " + "FLAVOR" + "=\"" == "export FLAVOR=\""
    ensures "export " + "KERNEL_PROFILE" + "=\"" == "export KERNEL_PROFILE=\""
    ensures "export " + "PREHEAT_PROFILE" + "=\"" == "export PREHEAT_PROFILE=\""
  {
  }

  lemma EnvironmentTextIs(fl: Flavor)
    ensures EnvironmentText(fl) ==
      "# Environment configuration\n"
      + ("export FLAVOR=\"" + fl.id + "\"\n")
      + ("export KERNEL_PROFILE=\"" + fl.kernelProfile + "\"\n")
      + (if fl.preheatProfile != "" then "export PREHEAT_PROFILE=\"" + fl.preheatProfile + "\"\n" else "")
      + "\n"
  {
  }

  lemma FixedLines()
    ensures "#" + ENVIRONMENT + "\n" == "# Environment configuration\n"
    ensures "#" + EXECUTION + "\n" == "# Execution pipeline\n"
    ensures "" + "\n" == "\n"
  {
  }

  lemma EnvironmentIsText(fl: Flavor)
    ensures Print(Environment(fl)) == EnvironmentText(fl)
  {
    hide *;
    PrintEnvironment(fl);
    EnvironmentTextIs(fl);
    ExportLine("FLAVOR", fl.id);
    ExportLine("KERNEL_PROFILE", fl.kernelProfile);
    ExportLine("PREHEAT_PROFILE", fl.preheatProfile);
    ExportWords();
    FixedLines();
  }

  lemma ExecutingLine(p: string)
    ensures EchoText(Executing(p)) == "echo \"==> Executing provisioner: " + p + "\"\n"
  {
    var a := "==> Executing provisioner: ";
    assert "echo \"" + "==> Executing provisioner: " == "echo \"==> Executing provisioner: ";
    assert "\"" + "\n" == "\"\n";
    assert "echo \"" + (a + p) + "\"" + "\n" == ("echo \"" + a) + p + ("\"" + "\n");
  }

  lemma TestLine(p: string)
    ensures "if [ -f \"" + PathOf(p) + "\" ]; then" + "\n" == "if [ -f \"packer/provisioners/" + p + "\" ]; then\n"
  {
    var a, b := "if [ -f \"", "packer/provisioners/";
    assert "if [ -f \"" + "packer/provisioners/" == "if [ -f \"packer/provisioners/";
    assert "\" ]; then" + "\n" == "\" ]; then\n";
    assert a + (b + p) + "\" ]; then" + "\n" == (a + b) + p + ("\" ]; then" + "\n");
  }

  lemma RunLine(p: string)
    ensures "  " + ("bash \"" + PathOf(p) + "\"") + "\n" == "  bash \"packer/provisioners/" + p + "\"\n"
  {
    var a, b, c := "  ", "bash \"", "packer/provisioners/";
    assert "  " + "bash \"" + "packer/provisioners/" == "  bash \"packer/provisioners/";
    assert "\"" + "\n" == "\"\n";
    assert a + (b + (c + p) + "\"") + "\n" == (a + b + c) + p + ("\"" + "\n");
  }

  lemma MissingWords()
    ensures "  " + "echo \"" + "    Warning: provisioner " == "  echo \"    Warning: provisioner "
    ensures " not found in local workspace" + ("\"" + "\n") == " not found in local workspace\"\n"
  {
    assert "  " + "echo \"" == "  echo \"";
    assert "\"" + "\n" == "\"\n";
  }

  lemma Around(a: string, b: string, c: string, p: string, d: string, e: string, f: string)
    ensures a + (b + (c + p + d) + e) + f == (a + b + c) + p + (d + (e + f))
  {
  }

  lemma MissingLine(p: string)
    ensures "  " + ("echo \"" + Missing(p) + "\"") + "\n" ==
        "  echo \"    Warning: provisioner " + p + " not found in local workspace\"\n"
  {
    var a, b, c, d := "  ", "echo \"", "    Warning: provisioner ", " not found in local workspace";
    MissingWords();
    Around(a, b, c, p, d, "\"", "\n");
  }

  lemma StageIsText(ps: seq<string>, p: string)
    ensures Print(Stages(ps + [p])) == Print(Stages(ps)) + StageText(p)
  {
    PrintStages(ps, p);
    ExecutingLine(p);
    TestLine(p);
    RunLine(p);
    MissingLine(p);
    assert "else" + "\n" == "else\n" && "fi" + "\n" == "fi\n" && "" + "\n" == "\n";
    hide Print, Stages, EchoText, Executing, PathOf, Missing;
  }

  lemma {:induction false} StagesAreText(ps: seq<string>, skipCleanup: bool)
    ensures Print(Stages(Plan(ps, skipCleanup))) == StagesText(ps, skipCleanup)
  {
    hide Print, Stages, StageText;
    if ps == [] {
      NoStages(ps, skipCleanup);
      assert ps[..0] == ps;
    } else {
      var m := |ps| - 1;
      StagesAreText(ps[..m], skipCleanup);
      StageIsText(Plan(ps[..m], skipCleanup), ps[m]);
      var front := Plan(ps[..m], skipCleanup);
      assert front + [] == front && Print(Stages(front)) + "" == Print(Stages(front));
    }
  }

  lemma SimulatedLine(p: string)
    ensures EchoText(Simulated(p)) == "echo \"    [SIMULATED] " + p + "\"\n"
  {
    var a := "    [SIMULATED] ";
    assert "echo \"" + "    [SIMULATED] " == "echo \"    [SIMULATED] " && "\"" + "\n" == "\"\n";
    assert "echo \"" + (a + p) + "\"" + "\n" == ("echo \"" + a) + p + ("\"" + "\n");
  }

  lemma {:induction false} SimulationIsText(ps: seq<string>)
    ensures Print(Simulation(ps)) == SimulationText(ps)
  {
    hide Print, Simulation, EchoText, Simulated;
    if ps == [] {
      NoSimulation();
    } else {
      var m := |ps| - 1;
      SimulationIsText(ps[..m]);
      PrintSimulation(ps, m);
      SimulatedLine(ps[m]);
      assert ps[..m + 1] == ps;
    }
  }

  lemma LiveIsText(fl: Flavor, skipCleanup: bool)
    ensures Print(Live(fl, skipCleanup)) ==
      EnvironmentText(fl) + "# Execution pipeline\n" + StagesText(fl.provisioners, skipCleanup)
      + ("echo \"==> Imageless flavor " + "application complete.\"\n")
  {
    hide *;
    PrintLive(fl, skipCleanup);
    EnvironmentIsText(fl);
    StagesAreText(fl.provisioners, skipCleanup);
    CompleteLine();
    FixedLines();
  }

  lemma DryRunIsText(fl: Flavor)
    ensures Print(DryRun(fl)) ==
      ("echo \"==> DRY-RUN: Simulating " + "provisioner execution for:\"\n") + SimulationText(fl.provisioners)
      + ("echo \"==> DRY-RUN " + "completed successfully.\"\n")
  {
    hide *;
    PrintDryRun(fl);
    DryRunLine();
    SimulationIsText(fl.provisioners);
    DryRunDoneLine();
  }

  /** The generated script is, line for line, the text written out above. */
  lemma ScriptIsText(fl: Flavor, opts: ApplyOptions)
    ensures Print(Compile(fl, opts)) == ScriptText(fl, opts)
  {
    CompileIs(fl, opts);
    PrintJoin(Header(fl), if opts.dryRun then DryRun(fl) else Live(fl, opts.skipCleanup));
    HeaderIsText(fl);
    DryRunIsText(fl);
    LiveIsText(fl, opts.skipCleanup);
    hide Print, Compile, Header, DryRun, Live, HeaderText, EnvironmentText, StagesText, SimulationText;
  }

  // ----- The plan -----

  /** The plan is the provisioners in their order, without `99-cleanup.sh` if that is skipped. */
  lemma PlanMeaning(ps: seq<string>, p: string)
    ensures Plan(ps, false) == ps && Plan([], true) == []
    ensures Plan(ps + [p], true) == if p == "99-cleanup.sh" then Plan(ps, true) else Plan(ps, true) + [p]
  {
    PlanIsAll(ps);
    assert (ps + [p])[..|ps|] == ps;
  }

  lemma {:induction false} PlanIsAll(ps: seq<string>)
    ensures Plan(ps, false) == ps
  {
    if ps != [] { PlanIsAll(ps[..|ps| - 1]); }
  }

  /** Parsed again, a live script with clean names tests `packer/provisioners/` and the name, for each of the plan. */
  lemma TextTestsPlan(fl: Flavor, opts: ApplyOptions)
    requires CleanNames(fl, opts) && !opts.dryRun
    ensures var script, plan := Parse(ScriptText(fl, opts)), Plan(fl.provisioners, opts.skipCleanup);
      script.Some? && FileTests(script.value) == seq(|plan|, i requires 0 <= i < |plan| =>
        "packer/provisioners/" + plan[i])
  {
    hide Parse, Print, Compile, CleanNames, FileTests, Plan, ScriptText;
    ScriptIsText(fl, opts);
    ScriptRecoversPlan(fl, opts);
    var plan := Plan(fl.provisioners, opts.skipCleanup);
    assert Paths(plan) == seq(|plan|, i requires 0 <= i < |plan| => "packer/provisioners/" + plan[i]);
  }
}
