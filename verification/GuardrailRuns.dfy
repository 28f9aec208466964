/**
 That the handlers do what they are asked to: in every run each request leaves exactly the event it asks for, and
 every confirmed build is dispatched, or its request is still on the way to doing so.
 */
module GuardrailRuns {
  import opened Staging
  import opened Guardrail

  lemma {:induction false} PlayOneMore(s: State, steps: seq<Step>, step: Step)
    requires Playable(s, steps + [step])
    ensures Playable(s, steps) && Enabled(Play(s, steps), step)
    ensures Play(s, steps + [step]) == Take(Play(s, steps), step)
    decreases |steps|
  {
    hide Enabled, Take;
    var more := steps + [step];
    if steps == [] {
      assert more == [step] && more[1..] == [];
    } else {
      assert more[0] == steps[0] && more[1..] == steps[1..] + [step];
      PlayOneMore(Take(s, steps[0]), steps[1..], step);
    }
  }

  // ----- Confirmed builds are dispatched -----

  ghost predicate Pursued(s: State, c: nat) {
    || (exists t :: t in s.waiting && s.waiting[t].at == c)
    || (exists d :: c < d < |s.log| && s.log[d].Dispatched? && s.log[d].origin == ForConfirm(c))
  }

  ghost predicate AllPursued(s: State) {
    forall c :: 0 <= c < |s.log| && s.log[c].ConfirmOk? && s.log[c].act.tool == "trigger_build" ==> Pursued(s, c)
  }

  /** An event that is no confirmation, with nobody's waiting ended, forgets nothing. */
  lemma LoggedPursues(s: State, e: Event)
    requires AllPursued(s) && !e.ConfirmOk?
    ensures AllPursued(Logged(s, e))
  {
    var s' := Logged(s, e);
    assert forall k :: 0 <= k < |s.log| ==> s'.log[k] == s.log[k];
    forall c: nat | c < |s'.log| && s'.log[c].ConfirmOk? && s'.log[c].act.tool == "trigger_build"
      ensures Pursued(s', c)
    {
      assert Pursued(s, c);
      if d :| c < d < |s.log| && s.log[d].Dispatched? && s.log[d].origin == ForConfirm(c) {
        assert s'.log[d].origin == ForConfirm(c);
      }
    }
  }

  lemma ConfirmedPursues(s: State, t: Tid, e: Event)
    requires AllPursued(s) && t !in s.waiting && e.ConfirmOk?
    ensures AllPursued(State(s.log + [e], s.waiting[t := Waiting(e.act, |s.log|)]))
  {
    var s' := State(s.log + [e], s.waiting[t := Waiting(e.act, |s.log|)]);
    assert forall k :: 0 <= k < |s.log| ==> s'.log[k] == s.log[k];
    forall c: nat | c < |s'.log| && s'.log[c].ConfirmOk? && s'.log[c].act.tool == "trigger_build"
      ensures Pursued(s', c)
    {
      if c == |s.log| {
        assert t in s'.waiting && s'.waiting[t].at == c;
      } else {
        assert Pursued(s, c);
        if d :| c < d < |s.log| && s.log[d].Dispatched? && s.log[d].origin == ForConfirm(c) {
          assert s'.log[d].origin == ForConfirm(c);
        } else {
          var u :| u in s.waiting && s.waiting[u].at == c;
          assert u in s'.waiting && s'.waiting[u].at == c;
        }
      }
    }
  }

  lemma DispatchedPursues(s: State, t: Tid, request: Request)
    requires AllPursued(s) && t in s.waiting && s.waiting[t].at < |s.log|
    ensures AllPursued(State(s.log + [Dispatched(request, ForConfirm(s.waiting[t].at))], s.waiting - {t}))
  {
    var s' := State(s.log + [Dispatched(request, ForConfirm(s.waiting[t].at))], s.waiting - {t});
    assert forall k :: 0 <= k < |s.log| ==> s'.log[k] == s.log[k];
    forall c: nat | c < |s'.log| && s'.log[c].ConfirmOk? && s'.log[c].act.tool == "trigger_build"
      ensures Pursued(s', c)
    {
      assert Pursued(s, c);
      if c == s.waiting[t].at {
        assert s'.log[|s.log|].origin == ForConfirm(c);
      } else if d :| c < d < |s.log| && s.log[d].Dispatched? && s.log[d].origin == ForConfirm(c) {
        assert s'.log[d].origin == ForConfirm(c);
      } else {
        var u :| u in s.waiting && s.waiting[u].at == c;
        assert u in s'.waiting && s'.waiting[u].at == c;
      }
    }
  }

  /** Only builds are ever staged, so only builds are ever confirmed. */
  lemma WaitingIsBuild(s: State, t: Tid)
    requires Inv(s) && t in s.waiting
    ensures s.waiting[t].act.tool == "trigger_build" && s.waiting[t].at < |s.log|
  {
    hide After, Legal;
    ConfirmHasItsStage(s.log, s.waiting[t].at);
  }

  lemma StepPursues(s: State, step: Step)
    requires Inv(s) && AllPursued(s) && Enabled(s, step)
    ensures AllPursued(Take(s, step))
  {
    hide Inv, AllPursued, After, Pruned, Lists, RequestOf, BuildPayload;
    var b := After(s.log);
    match step
    case TriggerBuild(flavor, backend, dryRun, confirmed, id, preview, began, now) =>
      LoggedPursues(s, if !dryRun && !confirmed then
        Staged(Action(id, TRIGGER_BUILD, flavor, BuildPayload(flavor, backend, dryRun), preview, Pending, now), began)
        else Dispatched(Request(flavor, backend, dryRun), Direct(confirmed)));
    case ConfirmAction(t, id) =>
      if id in b && b[id].status == Pending {
        ConfirmedPursues(s, t, ConfirmOk(id, b[id].(status := Confirmed)));
      } else {
        LoggedPursues(s, ConfirmErr(id));
      }
    case Proceed(t) =>
      WaitingIsBuild(s, t);
      DispatchedPursues(s, t, RequestOf(s.waiting[t].act));
    case DiscardAction(id) => LoggedPursues(s, if id in b then DiscardOk(id) else DiscardErr(id));
    case ListActions(out) => LoggedPursues(s, Listed(out));
    case PruneActions(now, maxAge) =>
      LoggedPursues(s, Prune(now, maxAge, |b| - |Pruned(b, Cutoff(now, maxAge))|));
  }

  lemma {:induction false} PlayPursues(s: State, steps: seq<Step>)
    requires Inv(s) && AllPursued(s) && Playable(s, steps)
    ensures AllPursued(Play(s, steps))
    decreases |steps|
  {
    hide Inv, AllPursued, Enabled, Take;
    if steps != [] {
      StepKeeps(s, steps[0]);
      StepPursues(s, steps[0]);
      PlayPursues(Take(s, steps[0]), steps[1..]);
    }
  }

  /** In every run every confirmed build has been dispatched, or the request that confirmed it has yet to do so. */
  lemma EveryConfirmIsPursued(steps: seq<Step>, c: nat)
    requires Playable(START, steps)
    requires c < |Play(START, steps).log| && Play(START, steps).log[c].ConfirmOk?
    requires Play(START, steps).log[c].act.tool == "trigger_build"
    ensures var s := Play(START, steps);
      || (exists t :: t in s.waiting && s.waiting[t].at == c)
      || (exists d :: c < d < |s.log| && s.log[d].Dispatched? && s.log[d].origin == ForConfirm(c))
  {
    hide Playable, Play, Inv;
    StartIsFine();
    PlayPursues(START, steps);
    assert Pursued(Play(START, steps), c);
  }

  // ----- Every request is logged -----

  /** Triggering, discarding and pruning are always possible, confirming unless the same request waits, and so on. */
  lemma RequestsAreServed(s: State, step: Step)
    ensures step.TriggerBuild? || step.DiscardAction? || step.PruneActions? ==> Enabled(s, step)
    ensures step.ConfirmAction? ==> (Enabled(s, step) <==> step.t !in s.waiting)
    ensures step.Proceed? ==> (Enabled(s, step) <==> step.t in s.waiting)
    ensures step.ListActions? ==> (Enabled(s, step) <==> Lists(After(s.log), step.out))
  {
  }

  lemma {:induction false} WaitingIsOwn(steps: seq<Step>, t: Tid)
    requires Playable(START, steps) && t in Play(START, steps).waiting
    ensures var c := Play(START, steps).waiting[t].at;
      c < |steps| && steps[c].ConfirmAction? && steps[c].t == t && |Play(START, steps).log| == |steps|
    decreases |steps|
  {
    hide Playable, Play, Inv, After, Lists, Pruned, RequestOf, BuildPayload;
    EachStepLogsOne(steps);
    if steps == [] {
      NothingPlayed();
    } else {
      var m := |steps| - 1;
      assert steps[..m] + [steps[m]] == steps;
      PlayOneMore(START, steps[..m], steps[m]);
      EachStepLogsOne(steps[..m]);
      if !(steps[m].ConfirmAction? && steps[m].t == t) { WaitingIsOwn(steps[..m], t); }
    }
  }

  lemma NothingPlayed()
    ensures Playable(START, []) && Play(START, []) == START
  {
  }

  lemma InvOfPlay(steps: seq<Step>)
    requires Playable(START, steps)
    ensures Inv(Play(START, steps))
  {
    hide Inv, Enabled, Take;
    StartIsFine();
    PlayKeeps(START, steps);
  }

  lemma {:induction false} EachStepLogsOne(steps: seq<Step>)
    requires Playable(START, steps)
    ensures |Play(START, steps).log| == |steps|
    decreases |steps|
  {
    hide Playable, Play, Inv, After, Lists, Pruned, RequestOf, BuildPayload;
    if steps == [] {
      NothingPlayed();
    } else {
      var m := |steps| - 1;
      assert steps[..m] + [steps[m]] == steps;
      PlayOneMore(START, steps[..m], steps[m]);
      EachStepLogsOne(steps[..m]);
      InvOfPlay(steps[..m]);
      if steps[m].Proceed? { WaitingIsBuild(Play(START, steps[..m]), steps[m].t); }
    }
  }

  lemma {:induction false} LogOnlyGrows(steps: seq<Step>, n: nat)
    requires Playable(START, steps) && n <= |steps|
    ensures |Play(START, steps).log| == |steps|
    ensures Playable(START, steps[..n]) && Play(START, steps[..n]).log == Play(START, steps).log[..n]
    decreases |steps|
  {
    hide Playable, Play, Inv, After, Lists, Pruned, RequestOf, BuildPayload;
    EachStepLogsOne(steps);
    if n == |steps| {
      assert steps[..n] == steps && Play(START, steps).log[..n] == Play(START, steps).log;
    } else {
      var m := |steps| - 1;
      assert steps[..m] + [steps[m]] == steps;
      PlayOneMore(START, steps[..m], steps[m]);
      LogOnlyGrows(steps[..m], n);
      assert steps[..m][..n] == steps[..n];
      EachStepLogsOne(steps[..m]);
      assert Play(START, steps).log[..m] == Play(START, steps[..m]).log;
      assert Play(START, steps).log[..n] == Play(START, steps).log[..m][..n];
    }
  }

  lemma StepAt(steps: seq<Step>, k: nat)
    requires Playable(START, steps) && k < |steps|
    ensures Playable(START, steps[..k]) && Enabled(Play(START, steps[..k]), steps[k])
    ensures |Play(START, steps).log| == |steps| && |Play(START, steps[..k]).log| == k
    ensures Take(Play(START, steps[..k]), steps[k]).log == Play(START, steps).log[..k + 1]
  {
    hide Playable, Play, Inv, Take, Enabled;
    LogOnlyGrows(steps, k);
    LogOnlyGrows(steps, k + 1);
    assert steps[..k + 1] == steps[..k] + [steps[k]];
    PlayOneMore(START, steps[..k], steps[k]);
    EachStepLogsOne(steps[..k]);
  }

  /**
   In every run the `k`-th step leaves the `k`-th event of the log: a build that is neither a dry run nor confirmed
   is staged, with its own flavor and backend, and any other is dispatched as it was asked for.
   */
  lemma BuildsAreStagedOrDispatched(steps: seq<Step>, k: nat)
    requires Playable(START, steps) && k < |steps| && steps[k].TriggerBuild?
    ensures var log, step := Play(START, steps).log, steps[k];
      && |log| == |steps|
      && (step.dryRun || step.confirmed ==>
            log[k] == Dispatched(Request(step.flavor, step.backend, step.dryRun), Direct(step.confirmed)))
      && (!step.dryRun && !step.confirmed ==>
            var payload := map["flavor" := Str(step.flavor), "backend" := Str(step.backend), "dry_run" := Flag(false)];
            log[k] == Staged(Action(step.id, "trigger_build", step.flavor, payload, step.preview, Pending, step.now),
              step.began))
  {
    hide Playable, Play, After;
    StepAt(steps, k);
    assert Play(START, steps).log[..k + 1][k] == Play(START, steps).log[k];
  }

  /** The other requests: each leaves its own answer, and a dispatch belongs to the confirmation of the same request. */
  lemma OtherRequestsAreAnswered(steps: seq<Step>, k: nat)
    requires Playable(START, steps) && k < |steps| && !steps[k].TriggerBuild?
    ensures var log, step := Play(START, steps).log, steps[k];
      && |log| == |steps|
      && (step.ConfirmAction? ==> (log[k].ConfirmOk? || log[k].ConfirmErr?) && log[k].id == step.id)
      && (step.DiscardAction? ==> log[k] == DiscardOk(step.id) || log[k] == DiscardErr(step.id))
      && (step.ListActions? ==> log[k] == Listed(step.out))
      && (step.PruneActions? ==> log[k].Prune? && log[k].now == step.now && log[k].maxAge == step.maxAge)
    ensures var log, step := Play(START, steps).log, steps[k];
      step.Proceed? ==> log[k].Dispatched? && log[k].origin.ForConfirm? && log[k].origin.at < k
    ensures var log, step := Play(START, steps).log, steps[k];
      step.Proceed? ==>
        var c := log[k].origin.at; steps[c].ConfirmAction? && steps[c].t == step.t && log[c].ConfirmOk?
  {
    hide Playable, Play, After, Lists, Pruned, RequestOf, Inv;
    StepAt(steps, k);
    var log := Play(START, steps).log;
    assert log[..k + 1][k] == log[k];
    if steps[k].Proceed? {
      InvOfPlay(steps[..k]);
      WaitingIsBuild(Play(START, steps[..k]), steps[k].t);
      WaitingIsOwn(steps[..k], steps[k].t);
      LogOnlyGrows(steps, k);
      var c := Play(START, steps[..k]).waiting[steps[k].t].at;
      WaitingConfirmed(Play(START, steps[..k]), steps[k].t);
      assert steps[..k][c] == steps[c] && log[..k][c] == log[c];
    }
  }

  lemma WaitingConfirmed(s: State, t: Tid)
    requires Inv(s) && t in s.waiting
    ensures s.waiting[t].at < |s.log| && s.log[s.waiting[t].at].ConfirmOk?
  {
    hide After, Legal;
  }
}
