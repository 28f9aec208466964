/**
 Running generated scripts: on any host, with provisioners that do anything and fail at will, the script
 goes through the plan in order, skips what is absent and stops at the first failure.
 */
module ImagelessRuns {
  import opened Options
  import opened Flavors
  import opened Bash
  import opened Imageless
  import opened ImagelessText

  function Start<W>(w: W, vars: map<string, string>): Shell<W> { Shell(w, vars, false, [], None) }

  /** bash on a text: nothing is known unless the text is in the modelled part of the language. */
  function RunText<W>(h: Host<W>, w: W, vars: map<string, string>, text: string): Option<Shell<W>> {
    var script := Parse(text);
    if script.None? then None else Some(Exec(h, Start(w, vars), script.value))
  }

  // ----- What running a plan means -----

  /** The world after the provisioners `ps`, if none of them stops the run. */
  function WorldAfter<W>(h: Host<W>, w: W, vars: map<string, string>, ps: seq<string>): W {
    if ps == [] then w
    else
      var m := |ps| - 1;
      var v := WorldAfter(h, w, vars, ps[..m]);
      if h.isFile(v, PathOf(ps[m])) then h.run(v, vars, PathOf(ps[m])).0 else v
  }

  /** What the `k`-th provisioner does when its turn comes. */
  function Turn<W>(h: Host<W>, w: W, vars: map<string, string>, ps: seq<string>, k: nat): Option<int>
    requires k < |ps|
  {
    var v := WorldAfter(h, w, vars, ps[..k]);
    if h.isFile(v, PathOf(ps[k])) then Some(h.run(v, vars, PathOf(ps[k])).1) else None
  }

  predicate Fails<W>(h: Host<W>, w: W, vars: map<string, string>, ps: seq<string>, k: nat)
    requires k < |ps|
  {
    Turn(h, w, vars, ps, k).Some? && Turn(h, w, vars, ps, k).value != 0
  }

  /** `n` is the position of the first provisioner that fails, or the length of the plan. */
  ghost predicate FirstFailure<W>(h: Host<W>, w: W, vars: map<string, string>, ps: seq<string>, n: nat) {
    && n <= |ps|
    && (forall k :: 0 <= k < n ==> !Fails(h, w, vars, ps, k))
    && (n < |ps| ==> Fails(h, w, vars, ps, n))
  }

  /** What is seen of the provisioners `ps`. */
  function Events<W>(h: Host<W>, w: W, vars: map<string, string>, ps: seq<string>): seq<Event> {
    if ps == [] then []
    else
      var m := |ps| - 1;
      var turn := Turn(h, w, vars, ps, m);
      Events(h, w, vars, ps[..m]) +
      [Said(Executing(ps[m])), if turn.Some? then Ran(PathOf(ps[m]), vars, turn.value) else Said(Missing(ps[m]))]
  }

  function Exports(fl: Flavor, vars: map<string, string>): map<string, string> {
    var v := vars["FLAVOR" := fl.id]["KERNEL_PROFILE" := fl.kernelProfile];
    if fl.preheatProfile != "" then v["PREHEAT_PROFILE" := fl.preheatProfile] else v
  }

  function Greeting(fl: Flavor): seq<Event> { [Said(INITIATING), Said(Chosen(fl))] }

  /** The whole run: greeting, the plan up to and with its first failure, and the completion line if there is none. */
  function Outcome<W>(h: Host<W>, w: W, vars: map<string, string>, fl: Flavor, ps: seq<string>, n: nat): Shell<W>
    requires n <= |ps|
  {
    var env := Exports(fl, vars);
    if n == |ps| then
      Shell(WorldAfter(h, w, env, ps), env, true, Greeting(fl) + Events(h, w, env, ps) + [Said(COMPLETE)], None)
    else
      Shell(WorldAfter(h, w, env, ps[..n + 1]), env, true, Greeting(fl) + Events(h, w, env, ps[..n + 1]),
        Turn(h, w, env, ps, n))
  }

  lemma {:induction false} AlwaysFirstFailure<W>(h: Host<W>, w: W, vars: map<string, string>, ps: seq<string>,
      from: nat)
    returns (n: nat)
    requires from <= |ps| && forall k :: 0 <= k < from ==> !Fails(h, w, vars, ps, k)
    ensures FirstFailure(h, w, vars, ps, n)
    decreases |ps| - from
  {
    hide Fails;
    if from == |ps| || Fails(h, w, vars, ps, from) {
      n := from;
    } else {
      n := AlwaysFirstFailure(h, w, vars, ps, from + 1);
    }
  }

  // ----- Straight-line parts -----

  lemma ExecOne<W>(h: Host<W>, s: Shell<W>, c: Command)
    requires s.exit.None?
    ensures Exec(h, s, One(c)) == Do(h, s, c)
  {
    hide Do;
  }

  lemma ExecMore<W>(h: Host<W>, s: Shell<W>, cs: seq<Command>, c: Command)
    requires Exec(h, s, Commands(cs)).exit.None?
    ensures Exec(h, s, Commands(cs + [c])) == Do(h, Exec(h, s, Commands(cs)), c)
  {
    CommandsMore(cs, c);
    hide *;
    ExecJoin(h, s, Commands(cs), One(c));
    ExecOne(h, Exec(h, s, Commands(cs)), c);
  }

  lemma ExecNothing<W>(h: Host<W>, s: Shell<W>)
    ensures Exec(h, s, Commands([])) == s
  {
  }

  /** Comments and blank lines do nothing. */
  lemma {:induction false} ExecIdle<W>(h: Host<W>, s: Shell<W>, cs: seq<Command>)
    requires s.exit.None? && forall i :: 0 <= i < |cs| ==> cs[i].Comment? || cs[i].Blank?
    ensures Exec(h, s, Commands(cs)) == s
  {
    hide Commands, Exec;
    if cs == [] {
      ExecNothing(h, s);
    } else {
      var m := |cs| - 1;
      ExecIdle(h, s, cs[..m]);
      ExecMore(h, s, cs[..m], cs[m]);
      assert cs[..m] + [cs[m]] == cs;
    }
  }

  lemma RunHeader<W>(h: Host<W>, s: Shell<W>, fl: Flavor)
    requires s.exit.None?
    ensures Exec(h, s, Header(fl)) == s.(strict := true, trace := s.trace + Greeting(fl))
  {
    HeaderIs(fl);
    hide Header, Commands, Exec, Target, Chosen, SHEBANG, BANNER, GENERATED, INITIATING;
    var top := [Comment(SHEBANG), Comment(BANNER), Comment(Target(fl)), Comment(GENERATED)];
    ExecIdle(h, s, top);
    ExecMore(h, s, top, Strict);
    ExecMore(h, s, top + [Strict], Blank);
    ExecMore(h, s, top + [Strict] + [Blank], Echo(INITIATING));
    ExecMore(h, s, top + [Strict] + [Blank] + [Echo(INITIATING)], Echo(Chosen(fl)));
    ExecMore(h, s, top + [Strict] + [Blank] + [Echo(INITIATING)] + [Echo(Chosen(fl))], Blank);
    assert top + [Strict] + [Blank] + [Echo(INITIATING)] + [Echo(Chosen(fl))] + [Blank]
        == top + [Strict, Blank, Echo(INITIATING), Echo(Chosen(fl)), Blank];
    assert s.trace + [Said(INITIATING)] + [Said(Chosen(fl))] == s.trace + Greeting(fl);
  }

  lemma RunEnvironment<W>(h: Host<W>, s: Shell<W>, fl: Flavor)
    requires s.exit.None?
    ensures Exec(h, s, Environment(fl)) == s.(vars := Exports(fl, s.vars))
  {
    EnvironmentIs(fl);
    hide Environment, Commands, Exec, ENVIRONMENT;
    var a, b, c := Comment(ENVIRONMENT), Export("FLAVOR", fl.id), Export("KERNEL_PROFILE", fl.kernelProfile);
    ExecIdle(h, s, [a]);
    ExecMore(h, s, [a], b);
    ExecMore(h, s, [a] + [b], c);
    assert [a] + [b] + [c] == [a, b, c];
    if fl.preheatProfile != "" {
      var d := Export("PREHEAT_PROFILE", fl.preheatProfile);
      ExecMore(h, s, [a, b, c], d);
      ExecMore(h, s, [a, b, c] + [d], Blank);
    } else {
      ExecMore(h, s, [a, b, c], Blank);
      assert [a, b, c] + [] == [a, b, c];
    }
  }

  // ----- The plan -----

  lemma RunStage<W>(h: Host<W>, s: Shell<W>, p: string)
    requires s.exit.None?
    ensures var said := s.(trace := s.trace + [Said(Executing(p))]);
      Exec(h, s, Stage(p)) ==
        if h.isFile(s.world, PathOf(p)) then Do(h, said, Run(PathOf(p)))
          else said.(trace := said.trace + [Said(Missing(p))])
  {
    hide PathOf, Executing, Missing, Exec;
    var said := s.(trace := s.trace + [Said(Executing(p))]);
    var body := IfFile(PathOf(p), One(Run(PathOf(p))), One(Echo(Missing(p))), One(Blank));
    ExecThen(h, s, Echo(Executing(p)), body);
    var taken := if h.isFile(s.world, PathOf(p)) then One(Run(PathOf(p))) else One(Echo(Missing(p)));
    ExecIf(h, said, PathOf(p), One(Run(PathOf(p))), One(Echo(Missing(p))), One(Blank));
    ExecOne(h, said, Run(PathOf(p)));
    ExecOne(h, said, Echo(Missing(p)));
    ExecBlank(h, Exec(h, said, taken));
  }

  lemma ExecThen<W>(h: Host<W>, s: Shell<W>, c: Command, rest: Script)
    requires s.exit.None?
    ensures Exec(h, s, Then(c, rest)) == Exec(h, Do(h, s, c), rest)
  {
    hide Do;
  }

  lemma ExecIf<W>(h: Host<W>, s: Shell<W>, p: string, yes: Script, no: Script, next: Script)
    requires s.exit.None?
    ensures Exec(h, s, IfFile(p, yes, no, next)) == Exec(h, Exec(h, s, if h.isFile(s.world, p) then yes else no), next)
  {
    hide Do;
  }

  lemma ExecBlank<W>(h: Host<W>, s: Shell<W>)
    ensures Exec(h, s, One(Blank)) == s
  {
  }

  lemma ExecExited<W>(h: Host<W>, s: Shell<W>, script: Script)
    requires s.exit.Some?
    ensures Exec(h, s, script) == s
  {
  }

  /** A plan in which nothing fails is run to its end. */
  lemma {:induction false} RunStages<W>(h: Host<W>, s: Shell<W>, ps: seq<string>)
    requires s.exit.None? && s.strict && forall k :: 0 <= k < |ps| ==> !Fails(h, s.world, s.vars, ps, k)
    ensures Exec(h, s, Stages(ps)) ==
      s.(world := WorldAfter(h, s.world, s.vars, ps), trace := s.trace + Events(h, s.world, s.vars, ps))
    decreases |ps|
  {
    hide Exec, PathOf, Executing, Missing, Stage, Join;
    if ps == [] {
      StagesNone(h, s);
      assert s.trace + [] == s.trace;
    } else {
      var m := |ps| - 1;
      forall k | 0 <= k < m ensures !Fails(h, s.world, s.vars, ps[..m], k) {
        SameTurn(h, s.world, s.vars, ps, m, k);
        assert !Fails(h, s.world, s.vars, ps, k);
      }
      RunStages(h, s, ps[..m]);
      var mid := Exec(h, s, Stages(ps[..m]));
      ExecJoin(h, s, Stages(ps[..m]), Stage(ps[m]));
      RunStage(h, mid, ps[m]);
      assert !Fails(h, s.world, s.vars, ps, m);
      TraceGrows(h, s, ps);
    }
  }

  lemma StagesNone<W>(h: Host<W>, s: Shell<W>)
    ensures Exec(h, s, Stages([])) == s
  {
  }

  lemma SameTurn<W>(h: Host<W>, w: W, vars: map<string, string>, ps: seq<string>, m: nat, k: nat)
    requires k < m <= |ps|
    ensures Turn(h, w, vars, ps[..m], k) == Turn(h, w, vars, ps, k)
    ensures Fails(h, w, vars, ps[..m], k) == Fails(h, w, vars, ps, k)
  {
    assert ps[..m][..k] == ps[..k];
  }

  lemma TraceGrows<W>(h: Host<W>, s: Shell<W>, ps: seq<string>)
    requires ps != []
    ensures var m := |ps| - 1; var turn := Turn(h, s.world, s.vars, ps, m);
      s.trace + Events(h, s.world, s.vars, ps) ==
      s.trace + Events(h, s.world, s.vars, ps[..m]) + [Said(Executing(ps[m]))] +
        [if turn.Some? then Ran(PathOf(ps[m]), s.vars, turn.value) else Said(Missing(ps[m]))]
  {
    hide Turn, Executing, Missing, PathOf;
  }

  /** A plan whose `n`-th provisioner is the first to fail stops there, with its exit code. */
  lemma {:induction false} StopStages<W>(h: Host<W>, s: Shell<W>, ps: seq<string>, n: nat)
    requires s.exit.None? && s.strict && n < |ps| && FirstFailure(h, s.world, s.vars, ps, n)
    ensures Exec(h, s, Stages(ps)) ==
      s.(world := WorldAfter(h, s.world, s.vars, ps[..n + 1]),
         trace := s.trace + Events(h, s.world, s.vars, ps[..n + 1]),
         exit := Turn(h, s.world, s.vars, ps, n))
    decreases |ps|
  {
    hide Exec, PathOf, Executing, Missing, Stage, Join, Events;
    var m := |ps| - 1;
    ExecJoin(h, s, Stages(ps[..m]), Stage(ps[m]));
    forall k | 0 <= k < m
      ensures Turn(h, s.world, s.vars, ps[..m], k) == Turn(h, s.world, s.vars, ps, k)
      ensures Fails(h, s.world, s.vars, ps[..m], k) == Fails(h, s.world, s.vars, ps, k)
    {
      SameTurn(h, s.world, s.vars, ps, m, k);
    }
    if n < m {
      StopStages(h, s, ps[..m], n);
      assert ps[..m][..n + 1] == ps[..n + 1];
      ExecExited(h, Exec(h, s, Stages(ps[..m])), Stage(ps[m]));
    } else {
      RunStages(h, s, ps[..m]);
      RunStage(h, Exec(h, s, Stages(ps[..m])), ps[m]);
      TraceGrows(h, s, ps);
      assert ps[..n + 1] == ps;
    }
  }

  // ----- The whole script -----

  function RunScript<W>(h: Host<W>, w: W, vars: map<string, string>, fl: Flavor, opts: ApplyOptions): Shell<W> {
    Exec(h, Start(w, vars), Compile(fl, opts))
  }

  lemma LiveJoins<W>(h: Host<W>, s: Shell<W>, fl: Flavor, skipCleanup: bool)
    ensures Exec(h, s, Live(fl, skipCleanup)) ==
      Exec(h, Exec(h, Exec(h, Exec(h, s, Environment(fl)), One(Comment(EXECUTION))),
        Stages(Plan(fl.provisioners, skipCleanup))), One(Echo(COMPLETE)))
  {
    hide Exec, Environment, Stages, Plan, Join, One;
    var a, b, c, d := Environment(fl), One(Comment(EXECUTION)), Stages(Plan(fl.provisioners, skipCleanup)),
      One(Echo(COMPLETE));
    ExecJoin(h, s, Join(Join(a, b), c), d);
    ExecJoin(h, s, Join(a, b), c);
    ExecJoin(h, s, a, b);
  }

  /** Compiler correctness: a live script does what its plan means, up to and with the first failure. */
  lemma LiveRun<W>(h: Host<W>, w: W, vars: map<string, string>, fl: Flavor, opts: ApplyOptions, n: nat)
    requires !opts.dryRun
    requires FirstFailure(h, w, Exports(fl, vars), Plan(fl.provisioners, opts.skipCleanup), n)
    ensures RunScript(h, w, vars, fl, opts) == Outcome(h, w, vars, fl, Plan(fl.provisioners, opts.skipCleanup), n)
  {
    hide Exec, Header, Live, Environment, Stages, Plan, Join, One, WorldAfter, Fails, Turn, Events, Exports,
      EXECUTION, COMPLETE;
    var ps := Plan(fl.provisioners, opts.skipCleanup);
    var s0 := Start(w, vars);
    CompileIs(fl, opts);
    ExecJoin(h, s0, Header(fl), Live(fl, opts.skipCleanup));
    RunHeader(h, s0, fl);
    var s1 := Exec(h, s0, Header(fl));
    LiveJoins(h, s1, fl, opts.skipCleanup);
    RunEnvironment(h, s1, fl);
    var s2 := Exec(h, s1, Environment(fl));
    ExecOne(h, s2, Comment(EXECUTION));
    assert s2 == Shell(w, Exports(fl, vars), true, Greeting(fl), None);
    var s3 := Exec(h, s2, Stages(ps));
    if n == |ps| {
      RunStages(h, s2, ps);
      ExecOne(h, s3, Echo(COMPLETE));
    } else {
      StopStages(h, s2, ps, n);
      TurnOfFailure(h, w, Exports(fl, vars), ps, n);
      ExecExited(h, s3, One(Echo(COMPLETE)));
    }
  }

  lemma TurnOfFailure<W>(h: Host<W>, w: W, vars: map<string, string>, ps: seq<string>, n: nat)
    requires n < |ps| && Fails(h, w, vars, ps, n)
    ensures Turn(h, w, vars, ps, n).Some? && Turn(h, w, vars, ps, n).value != 0
  {
  }

  /** The same from the generated text, when its names are clean. */
  lemma TextRun<W>(h: Host<W>, w: W, vars: map<string, string>, fl: Flavor, opts: ApplyOptions, n: nat)
    requires !opts.dryRun && CleanNames(fl, opts)
    requires FirstFailure(h, w, Exports(fl, vars), Plan(fl.provisioners, opts.skipCleanup), n)
    ensures RunText(h, w, vars, Print(Compile(fl, opts)))
         == Some(Outcome(h, w, vars, fl, Plan(fl.provisioners, opts.skipCleanup), n))
  {
    hide Parse, Print, Compile, CleanNames, Plan, Exports, Outcome, FirstFailure, Exec;
    ScriptRecoversPlan(fl, opts);
    LiveRun(h, w, vars, fl, opts, n);
  }

  /** For clean names bash on the text and the compiled script are the same run. */
  lemma TextIsScript<W>(h: Host<W>, w: W, vars: map<string, string>, fl: Flavor, opts: ApplyOptions)
    requires CleanNames(fl, opts)
    ensures RunText(h, w, vars, Print(Compile(fl, opts))) == Some(RunScript(h, w, vars, fl, opts))
  {
    hide Parse, Print, Compile, CleanNames, Exec;
    ScriptRecoversPlan(fl, opts);
  }

  // ----- What can be seen of a run -----

  lemma {:induction false} EventsOfPlan<W>(h: Host<W>, w: W, vars: map<string, string>, ps: seq<string>)
    ensures |Events(h, w, vars, ps)| == 2 * |ps|
    ensures forall k :: 0 <= k < |ps| ==>
      && Events(h, w, vars, ps)[2 * k] == Said(Executing(ps[k]))
      && Events(h, w, vars, ps)[2 * k + 1] ==
           (var turn := Turn(h, w, vars, ps, k); if turn.Some? then Ran(PathOf(ps[k]), vars, turn.value)
             else Said(Missing(ps[k])))
  {
    hide Turn, Executing, Missing, PathOf;
    if ps != [] {
      var m := |ps| - 1;
      EventsOfPlan(h, w, vars, ps[..m]);
      forall k | 0 <= k < m ensures Turn(h, w, vars, ps[..m], k) == Turn(h, w, vars, ps, k) {
        SameTurn(h, w, vars, ps, m, k);
      }
    }
  }

  /** Every provisioner that is run sees the flavor's exports. */
  ghost predicate RunsWith(trace: seq<Event>, vars: map<string, string>) {
    forall i :: 0 <= i < |trace| && trace[i].Ran? ==> trace[i].vars == vars
  }

  ghost predicate AllSucceeded(trace: seq<Event>) {
    forall i :: 0 <= i < |trace| && trace[i].Ran? ==> trace[i].code == 0
  }

  /**
   Exports precede all provisioners, and the script completes iff every provisioner it ran succeeded,
   which is when the completion line is the last thing it says; otherwise it exits with the failing code.
   */
  lemma CompletesIffAllSucceed<W>(h: Host<W>, w: W, vars: map<string, string>, fl: Flavor, opts: ApplyOptions)
    requires !opts.dryRun
    ensures var s := RunScript(h, w, vars, fl, opts);
      && RunsWith(s.trace, Exports(fl, vars)) && s.trace != []
      && (s.exit.None? <==> AllSucceeded(s.trace))
      && (s.exit.None? <==> s.trace[|s.trace| - 1] == Said(COMPLETE))
      && (s.exit.Some? ==> s.trace[|s.trace| - 1].Ran? && s.trace[|s.trace| - 1].code == s.exit.value != 0)
  {
    hide RunScript, Plan, Exports, Turn, Fails, WorldAfter, Events, COMPLETE, Executing, Missing, PathOf;
    var ps, env := Plan(fl.provisioners, opts.skipCleanup), Exports(fl, vars);
    var n := AlwaysFirstFailure(h, w, env, ps, 0);
    LiveRun(h, w, vars, fl, opts, n);
    var s := RunScript(h, w, vars, fl, opts);
    if n == |ps| {
      CodesOfPlan(h, w, env, ps);
      WithGreeting(fl, Events(h, w, env, ps), [Said(COMPLETE)], env);
    } else {
      CodesOfPlan(h, w, env, ps[..n + 1]);
      SameTurn(h, w, env, ps, n + 1, n);
      TurnOfFailure(h, w, env, ps, n);
      WithGreeting(fl, Events(h, w, env, ps[..n + 1]), [], env);
      assert s.trace == Greeting(fl) + Events(h, w, env, ps[..n + 1]) + [];
      assert Fails(h, w, env, ps[..n + 1], n);
      assert s.trace[|s.trace| - 1] == LastEvent(h, w, env, ps[..n + 1]);
    }
  }

  /** The same of the generated text, when its names are clean. */
  lemma TextCompletesIffAllSucceed<W>(h: Host<W>, w: W, vars: map<string, string>, fl: Flavor, opts: ApplyOptions)
    requires !opts.dryRun && CleanNames(fl, opts)
    ensures RunText(h, w, vars, Print(Compile(fl, opts))).Some?
    ensures var s := RunText(h, w, vars, Print(Compile(fl, opts))).value;
      && RunsWith(s.trace, Exports(fl, vars)) && s.trace != []
      && (s.exit.None? <==> AllSucceeded(s.trace))
      && (s.exit.None? <==> s.trace[|s.trace| - 1] == Said(COMPLETE))
      && (s.exit.Some? ==> s.trace[|s.trace| - 1].Ran? && s.trace[|s.trace| - 1].code == s.exit.value != 0)
  {
    hide *;
    TextIsScript(h, w, vars, fl, opts);
    CompletesIffAllSucceed(h, w, vars, fl, opts);
  }

  lemma WithGreeting(fl: Flavor, events: seq<Event>, end: seq<Event>, vars: map<string, string>)
    requires forall i :: 0 <= i < |end| ==> end[i].Said?
    ensures RunsWith(events, vars) <==> RunsWith(Greeting(fl) + events + end, vars)
    ensures AllSucceeded(events) <==> AllSucceeded(Greeting(fl) + events + end)
  {
    var all := Greeting(fl) + events + end;
    assert forall i :: 0 <= i < |events| ==> all[i + 2] == events[i];
    assert forall i :: 0 <= i < |all| ==> all[i].Said? || (2 <= i < 2 + |events| && all[i] == events[i - 2]);
  }

  function LastEvent<W>(h: Host<W>, w: W, vars: map<string, string>, ps: seq<string>): Event
    requires ps != []
  {
    var m := |ps| - 1;
    var turn := Turn(h, w, vars, ps, m);
    if turn.Some? then Ran(PathOf(ps[m]), vars, turn.value) else Said(Missing(ps[m]))
  }

  lemma {:induction false} CodesOfPlan<W>(h: Host<W>, w: W, vars: map<string, string>, ps: seq<string>)
    ensures RunsWith(Events(h, w, vars, ps), vars)
    ensures AllSucceeded(Events(h, w, vars, ps)) <==> forall k :: 0 <= k < |ps| ==> !Fails(h, w, vars, ps, k)
    ensures ps != [] ==>
      (var events := Events(h, w, vars, ps); events != [] && events[|events| - 1] == LastEvent(h, w, vars, ps))
  {
    hide Turn, Executing, Missing, PathOf, RunsWith, AllSucceeded;
    if ps == [] {
      NoEvents(vars);
    } else {
      var m := |ps| - 1;
      CodesOfPlan(h, w, vars, ps[..m]);
      forall k | 0 <= k < m ensures Fails(h, w, vars, ps[..m], k) == Fails(h, w, vars, ps, k) {
        SameTurn(h, w, vars, ps, m, k);
      }
      var last := LastEvent(h, w, vars, ps);
      MoreEvents(Events(h, w, vars, ps[..m]), Said(Executing(ps[m])), last, vars);
      assert Events(h, w, vars, ps) == Events(h, w, vars, ps[..m]) + [Said(Executing(ps[m])), last];
      assert Fails(h, w, vars, ps, m) <==> last.Ran? && last.code != 0;
    }
  }

  lemma NoEvents(vars: map<string, string>)
    ensures RunsWith([], vars) && AllSucceeded([])
  {
  }

  lemma MoreEvents(events: seq<Event>, a: Event, b: Event, vars: map<string, string>)
    requires a.Said? && (b.Ran? ==> b.vars == vars)
    ensures RunsWith(events, vars) ==> RunsWith(events + [a, b], vars)
    ensures AllSucceeded(events + [a, b]) <==> AllSucceeded(events) && (b.Ran? ==> b.code == 0)
  {
    var all := events + [a, b];
    assert forall i :: 0 <= i < |events| ==> all[i] == events[i];
    assert all[|events|] == a && all[|events| + 1] == b;
  }

  // ----- Dry runs -----

  function Simulations(ps: seq<string>): seq<Event> { seq(|ps|, i requires 0 <= i < |ps| => Said(Simulated(ps[i]))) }

  lemma {:induction false} RunSimulation<W>(h: Host<W>, s: Shell<W>, ps: seq<string>, n: nat)
    requires s.exit.None? && n <= |ps|
    ensures Exec(h, s, Simulation(ps[..n])) == s.(trace := s.trace + Simulations(ps[..n]))
  {
    hide Exec, Simulation, Commands, Simulated;
    if n == 0 {
      NoSimulationRuns(h, s);
      assert ps[..0] == [] && s.trace + Simulations([]) == s.trace;
    } else {
      RunSimulation(h, s, ps, n - 1);
      SimulationIs(ps, n - 1);
      var cs := seq(n - 1, j requires 0 <= j < n - 1 => Echo(Simulated(ps[j])));
      ExecMore(h, s, cs, Echo(Simulated(ps[n - 1])));
      assert Simulations(ps[..n]) == Simulations(ps[..n - 1]) + [Said(Simulated(ps[n - 1]))];
    }
  }

  lemma NoSimulationRuns<W>(h: Host<W>, s: Shell<W>)
    ensures Exec(h, s, Simulation([])) == s
  {
  }

  /** A dry run changes nothing, runs nothing and lists the provisioners of the flavor in order. */
  lemma DryRunOnlyLists<W>(h: Host<W>, w: W, vars: map<string, string>, fl: Flavor, opts: ApplyOptions)
    requires opts.dryRun
    ensures RunScript(h, w, vars, fl, opts) ==
      Shell(w, vars, true, Greeting(fl) + [Said(DRY_RUN)] + Simulations(fl.provisioners) + [Said(DRY_RUN_DONE)], None)
  {
    hide Exec, Header, DryRun, Simulation, Simulations, Join, One, Greeting, DRY_RUN, DRY_RUN_DONE;
    var s0 := Start(w, vars);
    CompileIs(fl, opts);
    ExecJoin(h, s0, Header(fl), DryRun(fl));
    RunHeader(h, s0, fl);
    DryJoins(fl);
    var s1 := Exec(h, s0, Header(fl));
    var a, b, c := One(Echo(DRY_RUN)), Simulation(fl.provisioners), One(Echo(DRY_RUN_DONE));
    ExecJoin(h, s1, Join(a, b), c);
    ExecJoin(h, s1, a, b);
    ExecOne(h, s1, Echo(DRY_RUN));
    var s2 := Exec(h, s1, a);
    assert fl.provisioners[..|fl.provisioners|] == fl.provisioners;
    RunSimulation(h, s2, fl.provisioners, |fl.provisioners|);
    ExecOne(h, Exec(h, s2, b), Echo(DRY_RUN_DONE));
    assert s1.trace == Greeting(fl);
  }

  lemma DryJoins(fl: Flavor)
    ensures DryRun(fl) == Join(Join(One(Echo(DRY_RUN)), Simulation(fl.provisioners)), One(Echo(DRY_RUN_DONE)))
  {
    hide Join, One, Simulation;
  }

  /** The same from the generated text, when its names are clean. */
  lemma TextDryRun<W>(h: Host<W>, w: W, vars: map<string, string>, fl: Flavor, opts: ApplyOptions)
    requires opts.dryRun && CleanNames(fl, opts)
    ensures RunText(h, w, vars, Print(Compile(fl, opts))) == Some(
      Shell(w, vars, true, Greeting(fl) + [Said(DRY_RUN)] + Simulations(fl.provisioners) + [Said(DRY_RUN_DONE)], None))
  {
    hide Parse, Print, Compile, CleanNames, Exec, Greeting, Simulations, DRY_RUN, DRY_RUN_DONE;
    ScriptRecoversPlan(fl, opts);
    DryRunOnlyLists(h, w, vars, fl, opts);
  }

  lemma {:induction false} PlanKeeps(ps: seq<string>, skipCleanup: bool)
    ensures |Plan(ps, skipCleanup)| <= |ps|
    ensures Plan(ps, skipCleanup) == ps <==> !skipCleanup || CLEANUP !in ps
    ensures |Plan(ps, skipCleanup)| == |ps| ==> Plan(ps, skipCleanup) == ps
  {
    hide CLEANUP;
    if ps != [] {
      var m := |ps| - 1;
      PlanKeeps(ps[..m], skipCleanup);
      assert ps == ps[..m] + [ps[m]];
      assert CLEANUP in ps <==> CLEANUP in ps[..m] || ps[m] == CLEANUP;
    }
  }

  /** The dry run lists exactly what the live run goes through iff no cleanup is skipped. */
  lemma DryRunListsPlan(fl: Flavor, opts: ApplyOptions)
    ensures Simulations(fl.provisioners) == Simulations(Plan(fl.provisioners, opts.skipCleanup))
      <==> !opts.skipCleanup || CLEANUP !in fl.provisioners
  {
    hide Plan, CLEANUP;
    PlanKeeps(fl.provisioners, opts.skipCleanup);
    var ps, qs := fl.provisioners, Plan(fl.provisioners, opts.skipCleanup);
    if Simulations(ps) == Simulations(qs) {
      assert |Simulations(ps)| == |ps| && |Simulations(qs)| == |qs|;
    }
  }

  // ----- Skipping the cleanup -----

  /** A trace without the completion line at its end. */
  function Shown(trace: seq<Event>): seq<Event> {
    if trace != [] && trace[|trace| - 1] == Said(COMPLETE) then trace[..|trace| - 1] else trace
  }

  ghost predicate SkipShowsPrefix<W(!new)>(w: W, fl: Flavor, opts: ApplyOptions) {
    forall h: Host<W>, vars: map<string, string> ::
      Shown(RunScript(h, w, vars, fl, opts.(skipCleanup := true)).trace)
        <= RunScript(h, w, vars, fl, opts.(skipCleanup := false)).trace
  }

  lemma {:induction false} EventsOfPrefix<W>(h: Host<W>, w: W, vars: map<string, string>, ps: seq<string>, n: nat)
    requires n <= |ps|
    ensures Events(h, w, vars, ps[..n]) <= Events(h, w, vars, ps)
    decreases |ps|
  {
    hide Turn, Executing, Missing, PathOf;
    var m := |ps| - 1;
    if n == |ps| {
      assert ps[..n] == ps;
    } else {
      EventsOfPrefix(h, w, vars, ps[..m], n);
      assert ps[..m][..n] == ps[..n];
    }
  }

  lemma SkipShowsPrefixOfRun<W>(h: Host<W>, w: W, vars: map<string, string>, fl: Flavor, opts: ApplyOptions)
    requires !opts.dryRun && Plan(fl.provisioners, true) <= fl.provisioners
    ensures Shown(RunScript(h, w, vars, fl, opts.(skipCleanup := true)).trace)
         <= RunScript(h, w, vars, fl, opts.(skipCleanup := false)).trace
  {
    hide RunScript, Plan, Exports, Turn, Fails, WorldAfter, Events, COMPLETE, CLEANUP, Greeting;
    var ps, qs, env := fl.provisioners, Plan(fl.provisioners, true), Exports(fl, vars);
    PlanKeeps(ps, false);
    var n := AlwaysFirstFailure(h, w, env, ps, 0);
    LiveRun(h, w, vars, fl, opts.(skipCleanup := false), n);
    assert qs == ps[..|qs|];
    forall k | 0 <= k < |qs| ensures Fails(h, w, env, qs, k) == Fails(h, w, env, ps, k) {
      SameTurn(h, w, env, ps, |qs|, k);
    }
    var full := RunScript(h, w, vars, fl, opts.(skipCleanup := false)).trace;
    if n < |qs| {
      LiveRun(h, w, vars, fl, opts.(skipCleanup := true), n);
      assert qs[..n + 1] == ps[..n + 1];
    } else {
      LiveRun(h, w, vars, fl, opts.(skipCleanup := true), |qs|);
      var reached := if n == |ps| then ps else ps[..n + 1];
      assert reached[..|qs|] == qs;
      EventsOfPrefix(h, w, env, reached, |qs|);
      assert Greeting(fl) + Events(h, w, env, reached) <= full;
    }
  }

  /** A host on which no file exists. */
  function Bare<W>(): Host<W> { Host((_, _) => false, (w, _, _) => (w, 0)) }

  lemma ExecutingIsInjective(p: string, q: string)
    requires Executing(p) == Executing(q)
    ensures p == q
  {
    var pre := "==> Executing provisioner: ";
    assert Executing(p)[|pre|..] == p && Executing(q)[|pre|..] == q;
  }

  lemma PlanOutOfOrderShows<W>(w: W, vars: map<string, string>, fl: Flavor, opts: ApplyOptions)
    requires !opts.dryRun && !(Plan(fl.provisioners, true) <= fl.provisioners)
    ensures !(Shown(RunScript(Bare<W>(), w, vars, fl, opts.(skipCleanup := true)).trace)
         <= RunScript(Bare<W>(), w, vars, fl, opts.(skipCleanup := false)).trace)
  {
    hide RunScript, Plan, Exports, WorldAfter, Events, COMPLETE, CLEANUP, Executing, PathOf, Missing;
    var h := Bare<W>();
    var ps, qs, env := fl.provisioners, Plan(fl.provisioners, true), Exports(fl, vars);
    PlanKeeps(ps, false);
    PlanKeeps(ps, true);
    var k :| 0 <= k < |qs| && qs[k] != ps[k];
    LiveRun(h, w, vars, fl, opts.(skipCleanup := true), |qs|);
    LiveRun(h, w, vars, fl, opts.(skipCleanup := false), |ps|);
    EventsOfPlan(h, w, env, ps);
    EventsOfPlan(h, w, env, qs);
    var a := Shown(RunScript(h, w, vars, fl, opts.(skipCleanup := true)).trace);
    var b := RunScript(h, w, vars, fl, opts.(skipCleanup := false)).trace;
    assert a[2 + 2 * k] == Said(Executing(qs[k])) && b[2 + 2 * k] == Said(Executing(ps[k]));
    if Executing(qs[k]) == Executing(ps[k]) { ExecutingIsInjective(qs[k], ps[k]); }
  }

  /** Nothing but cleanup comes after a cleanup. */
  predicate CleanupLast(ps: seq<string>) {
    forall i, j :: 0 <= i < j < |ps| && ps[i] == CLEANUP ==> ps[j] == CLEANUP
  }

  /** Skipping the cleanup leaves a plan without it; if that is a prefix, what it cuts off is all cleanup. */
  lemma {:induction false} PlanWithoutCleanup(ps: seq<string>)
    ensures var qs := Plan(ps, true);
      && |qs| <= |ps| && (forall k :: 0 <= k < |qs| ==> qs[k] != CLEANUP)
      && (qs <= ps ==> forall k :: |qs| <= k < |ps| ==> ps[k] == CLEANUP)
  {
    hide CLEANUP;
    if ps != [] {
      var m := |ps| - 1;
      PlanWithoutCleanup(ps[..m]);
      var qs, rs := Plan(ps, true), Plan(ps[..m], true);
      if qs <= ps {
        assert forall k :: 0 <= k < |rs| ==> rs[k] == qs[k] == ps[k];
        assert rs <= ps[..m];
        assert |rs| < |qs| ==> qs[|rs|] == ps[|rs|];
        assert forall k :: 0 <= k < m ==> ps[..m][k] == ps[k];
        forall k | |qs| <= k < |ps| ensures ps[k] == CLEANUP {
          if k < m { assert ps[..m][k] == ps[k]; }
        }
      }
    }
  }

  lemma {:induction false} CleanupLastIsPrefix(ps: seq<string>)
    requires CleanupLast(ps)
    ensures Plan(ps, true) <= ps && (ps != [] && ps[|ps| - 1] != CLEANUP ==> Plan(ps, true) == ps)
  {
    hide CLEANUP;
    if ps != [] {
      var m := |ps| - 1;
      CleanupLastIsPrefix(ps[..m]);
      if ps[m] != CLEANUP {
        assert m > 0 ==> ps[m - 1] != CLEANUP;
        assert ps == ps[..m] + [ps[m]];
      }
    }
  }

  lemma PrefixIffCleanupLast(ps: seq<string>)
    ensures Plan(ps, true) <= ps <==> CleanupLast(ps)
  {
    hide Plan, CLEANUP;
    PlanWithoutCleanup(ps);
    var qs := Plan(ps, true);
    if CleanupLast(ps) {
      CleanupLastIsPrefix(ps);
    }
    if qs <= ps {
      forall k | 0 <= k < |qs| ensures ps[k] != CLEANUP {
        assert ps[k] == qs[k];
      }
    }
  }

  /**
   On every host a run that skips the cleanup shows the beginning of the full run iff cleanup comes only at
   the end.
   */
  lemma SkipIsPrefixIffCleanupLast<W(!new)>(w: W, fl: Flavor, opts: ApplyOptions)
    requires !opts.dryRun
    ensures SkipShowsPrefix(w, fl, opts) <==> CleanupLast(fl.provisioners)
  {
    hide RunScript, Plan, Shown, CleanupLast;
    PrefixIffCleanupLast(fl.provisioners);
    if Plan(fl.provisioners, true) <= fl.provisioners {
      forall h: Host<W>, vars: map<string, string>
        ensures Shown(RunScript(h, w, vars, fl, opts.(skipCleanup := true)).trace)
             <= RunScript(h, w, vars, fl, opts.(skipCleanup := false)).trace
      {
        SkipShowsPrefixOfRun(h, w, vars, fl, opts);
      }
    } else {
      PlanOutOfOrderShows(w, map[], fl, opts);
    }
  }

  lemma {:induction false} PlanIsFrom(ps: seq<string>, skipCleanup: bool, k: nat)
    requires k < |Plan(ps, skipCleanup)|
    ensures Plan(ps, skipCleanup)[k] in ps
  {
    hide CLEANUP;
    var m := |ps| - 1;
    if k < |Plan(ps[..m], skipCleanup)| { PlanIsFrom(ps[..m], skipCleanup, k); }
  }

  /** Names that are clean in the full script are clean in the one that skips the cleanup. */
  lemma CleanWhenSkipped(fl: Flavor, opts: ApplyOptions)
    requires !opts.dryRun && CleanNames(fl, opts.(skipCleanup := false))
    ensures CleanNames(fl, opts.(skipCleanup := true))
  {
    hide CleanWord, Plan, CLEANUP;
    PlanKeeps(fl.provisioners, false);
    var qs := Plan(fl.provisioners, true);
    forall k | 0 <= k < |qs| ensures CleanWord(qs[k]) {
      PlanIsFrom(fl.provisioners, true, k);
    }
  }

  ghost predicate SkipShowsPrefixAsText<W(!new)>(w: W, fl: Flavor, opts: ApplyOptions) {
    forall h: Host<W>, vars: map<string, string> ::
      var skipped := RunText(h, w, vars, Print(Compile(fl, opts.(skipCleanup := true))));
      var full := RunText(h, w, vars, Print(Compile(fl, opts.(skipCleanup := false))));
      skipped.Some? && full.Some? && Shown(skipped.value.trace) <= full.value.trace
  }

  /** The same of the two generated texts, when the names in the full one are clean. */
  lemma TextSkipIsPrefixIffCleanupLast<W(!new)>(w: W, fl: Flavor, opts: ApplyOptions)
    requires !opts.dryRun && CleanNames(fl, opts.(skipCleanup := false))
    ensures SkipShowsPrefixAsText(w, fl, opts) <==> CleanupLast(fl.provisioners)
  {
    hide RunScript, RunText, Shown, CleanupLast, CleanNames, Print, Compile;
    CleanWhenSkipped(fl, opts);
    forall h: Host<W>, vars: map<string, string>
      ensures RunText(h, w, vars, Print(Compile(fl, opts.(skipCleanup := true))))
           == Some(RunScript(h, w, vars, fl, opts.(skipCleanup := true)))
      ensures RunText(h, w, vars, Print(Compile(fl, opts.(skipCleanup := false))))
           == Some(RunScript(h, w, vars, fl, opts.(skipCleanup := false)))
    {
      TextIsScript(h, w, vars, fl, opts.(skipCleanup := true));
      TextIsScript(h, w, vars, fl, opts.(skipCleanup := false));
    }
    SkipIsPrefixIffCleanupLast(w, fl, opts);
  }
}
