/**
 That the handlers do what they are asked to, at the level of the Stager's single steps: every confirmed build is
 dispatched or its request is about to do so, and every request gets its own answer.
 */
module GuardrailThreadRuns {
  import opened Staging
  import opened GuardrailThreads
  import C = StagerCalls
  import G = Guardrail
  import R = GuardrailRuns
  import T = StagerThreads

  // ----- Confirmed builds are dispatched -----

  lemma UnlockPursues(s: State, t: Tid)
    requires Inv(s) && R.AllPursued(View(s)) && Enabled(s, t, Inside(T.Unlock))
    ensures R.AllPursued(View(Take(s, t, Inside(T.Unlock))))
  {
    hide *;
    UnlockTakes(s, t);
    ViewLog(s);
    var e := T.EventOf(s.threads, t);
    if e.ConfirmOk? { ConfirmedView(View(s), t, e); } else { LoggedView(View(s), e); }
  }

  lemma ConfirmedView(v: G.State, t: Tid, e: Event)
    requires R.AllPursued(v) && t !in v.waiting && e.ConfirmOk?
    ensures R.AllPursued(G.State(v.log + [e], v.waiting[t := G.Waiting(e.act, |v.log|)]))
  {
    R.ConfirmedPursues(v, t, e);
  }

  lemma LoggedView(v: G.State, e: Event)
    requires R.AllPursued(v) && !e.ConfirmOk?
    ensures R.AllPursued(G.State(v.log + [e], v.waiting))
  {
    hide R.AllPursued;
    R.LoggedPursues(v, e);
  }

  lemma StepPursues(s: State, t: Tid, step: Step)
    requires Inv(s) && R.AllPursued(View(s)) && Enabled(s, t, step)
    ensures R.AllPursued(View(Take(s, t, step)))
  {
    hide R.AllPursued, T.Inv, G.Inv, G.RequestOf, T.Take, T.Returned;
    match step
    case Receive(r) =>
      if Immediate(r) {
        LoggedView(View(s), Dispatched(Staging.Request(r.flavor, r.backend, r.dryRun), Direct(r.confirmed)));
      } else {
        C.OnlyUnlockLogs(s.threads, t, T.Call(Entry(r)));
      }
    case Inside(inner) =>
      if inner.Unlock? { UnlockPursues(s, t); } else { C.OnlyUnlockLogs(s.threads, t, inner); }
    case Proceed =>
      R.WaitingIsBuild(View(s), t);
      R.DispatchedPursues(View(s), t, G.RequestOf(s.waiting[t].act));
  }

  lemma {:induction false} PlayPursues(s: State, moves: seq<Move>)
    requires Inv(s) && R.AllPursued(View(s)) && Playable(s, moves)
    ensures R.AllPursued(View(Play(s, moves)))
    decreases |moves|
  {
    hide Inv, R.AllPursued, View, Enabled, Take;
    if moves != [] {
      StepKeeps(s, moves[0].t, moves[0].step);
      StepPursues(s, moves[0].t, moves[0].step);
      PlayPursues(Take(s, moves[0].t, moves[0].step), moves[1..]);
    }
  }

  /** In every interleaving every confirmed build has been dispatched, or its request has yet to do so. */
  lemma EveryConfirmIsPursued(clock: int, moves: seq<Move>, c: nat)
    requires Playable(Start(clock), moves)
    requires var log := Play(Start(clock), moves).threads.log;
      c < |log| && log[c].ConfirmOk? && log[c].act.tool == "trigger_build"
    ensures var s := Play(Start(clock), moves);
      || (exists t :: t in s.waiting && s.waiting[t].at == c)
      || (exists d :: c < d < |s.threads.log| && s.threads.log[d].Dispatched? &&
            s.threads.log[d].origin == ForConfirm(c))
  {
    hide Playable, Play, Inv;
    StartIsFine(clock);
    PlayPursues(Start(clock), moves);
    assert R.Pursued(View(Play(Start(clock), moves)), c);
  }

  /**
   The request that waits can always go on, and then dispatches what it confirmed, with the fields it was
   staged with.
   */
  lemma WaitingDispatches(s: State, t: Tid)
    requires Inv(s) && t in s.waiting
    ensures Enabled(s, t, Proceed)
    ensures var s', act := Take(s, t, Proceed), s.waiting[t].act;
      && s'.waiting == s.waiting - {t}
      && exists backend ::
           && act.payload == map["flavor" := Str(act.target), "backend" := Str(backend), "dry_run" := Flag(false)]
           && s'.threads.log ==
                s.threads.log + [Dispatched(Staging.Request(act.target, backend, false), ForConfirm(s.waiting[t].at))]
  {
    hide T.Inv, G.Inv, T.Take;
    R.WaitingIsBuild(View(s), t);
    var act := s.waiting[t].act;
    var backend := WaitingBackend(View(s), t);
    assert G.RequestOf(act) == Staging.Request(act.target, backend, false);
  }

  lemma WaitingBackend(v: G.State, t: Tid) returns (backend: string)
    requires G.Inv(v) && t in v.waiting
    ensures v.waiting[t].act.payload == G.BuildPayload(v.waiting[t].act.target, backend, false)
  {
    hide After, Legal, G.BuildPayload;
    var c := v.waiting[t].at;
    ConfirmHasItsStage(v.log, c);
    var act := v.log[LatestStage(v.log, v.log[c].id, c)].act;
    backend :| act.payload == G.BuildPayload(act.target, backend, false);
  }

  // ----- Every request is answered -----

  /** The events that answer a request made when the clock showed `since` and returning by `until`. */
  predicate AnswersRequest(r: GuardrailThreads.Request, e: Event, since: int, until: int) {
    match r
    case TriggerBuild(flavor, backend, dryRun, _, preview) =>
      && e.Staged? && since <= e.began <= e.act.createdAt <= until
      && e.act.tool == "trigger_build" && e.act.target == flavor && e.act.status == Pending
      && e.act.payload == map["flavor" := Str(flavor), "backend" := Str(backend), "dry_run" := Flag(dryRun)]
      && e.act.preview == preview
    case ConfirmAction(id) => e == ConfirmErr(id) || (e.ConfirmOk? && e.id == id && e.act.status == Confirmed)
    case DiscardAction(id) => e == DiscardOk(id) || e == DiscardErr(id)
    case ListActions => e.Listed?
    case PruneActions(maxAge) => e.Prune? && e.maxAge == maxAge && since <= e.now <= until
  }

  /** An idle thread can take up any request, and while any request is under way some thread can go on with its own. */
  lemma RequestsGoOn(s: State, t: Tid, r: GuardrailThreads.Request) returns (u: Tid, step: Step)
    requires Inv(s)
    ensures Enabled(s, t, Receive(r)) <==> T.PcOf(s.threads, t).Idle? && t !in s.waiting
    ensures !Enabled(s, t, Receive(r)) ==>
        Enabled(s, u, step) && !step.Receive? && (step.Inside? ==> T.Progress(step.step))
  {
    hide T.Inv, G.Inv, T.Enabled;
    u, step := t, Proceed;
    if t !in s.waiting && !T.PcOf(s.threads, t).Idle? {
      var v, inner := T.NeverStuck(s.threads, t);
      u, step := v, Inside(inner);
    }
  }

  lemma StepServes(s: State, u: Tid, step: Step, t: Tid, call: T.Pc, since: int)
    requires Inv(s) && Enabled(s, u, step) && T.Starts(call)
    requires C.Serves(s.threads.mem, s.threads.clock, call, since, T.PcOf(s.threads, t))
    requires u == t ==> step != Inside(T.Unlock)
    ensures var s' := Take(s, u, step).threads; C.Serves(s'.mem, s'.clock, call, since, T.PcOf(s', t))
  {
    hide T.Inv, G.Inv, T.Take, T.Starts, T.Enabled, C.Serves, G.RequestOf;
    match step
    case Receive(r) =>
      if !Immediate(r) {
        EntryStarts(s, u, r);
        C.StepServes(s.threads, u, T.Call(Entry(r)), t, call, since);
      }
    case Inside(inner) => C.StepServes(s.threads, u, inner, t, call, since);
    case Proceed =>
  }

  lemma EntryStarts(s: State, t: Tid, r: GuardrailThreads.Request)
    requires Enabled(s, t, Receive(r)) && !Immediate(r)
    ensures T.Starts(Entry(r)) && T.Enabled(s.threads, t, T.Call(Entry(r)))
  {
  }

  lemma {:induction false} StillServed(s: State, moves: seq<Move>, t: Tid, call: T.Pc, since: int)
    requires Inv(s) && Playable(s, moves) && T.Starts(call)
    requires C.Serves(s.threads.mem, s.threads.clock, call, since, T.PcOf(s.threads, t))
    requires forall k :: 0 <= k < |moves| && moves[k].t == t ==> moves[k].step != Inside(T.Unlock)
    ensures var s' := Play(s, moves);
      Inv(s') && C.Serves(s'.threads.mem, s'.threads.clock, call, since, T.PcOf(s'.threads, t))
    decreases |moves|
  {
    hide Inv, Take, C.Serves, Enabled, T.Starts;
    if moves != [] {
      StepKeeps(s, moves[0].t, moves[0].step);
      StepServes(s, moves[0].t, moves[0].step, t, call, since);
      StillServed(Take(s, moves[0].t, moves[0].step), moves[1..], t, call, since);
    }
  }

  /** A build that is a dry run or confirmed is dispatched at once, exactly as it was asked for. */
  lemma ImmediateIsDispatched(s: State, t: Tid, r: GuardrailThreads.Request)
    requires Enabled(s, t, Receive(r)) && r.TriggerBuild? && (r.dryRun || r.confirmed)
    ensures var s' := Take(s, t, Receive(r));
      && s'.waiting == s.waiting && s'.threads.mem == s.threads.mem && s'.threads.threads == s.threads.threads
      && s'.threads.log ==
           s.threads.log + [Dispatched(Staging.Request(r.flavor, r.backend, r.dryRun), Direct(r.confirmed))]
  {
  }

  /**
   Every other request returns by giving the lock back, and whatever other threads have done since it was received,
   that adds one event to the log, which answers it; after a successful confirmation the request waits to dispatch.
   */
  lemma RequestIsAnswered(s: State, t: Tid, r: GuardrailThreads.Request, between: seq<Move>)
    requires Inv(s) && Enabled(s, t, Receive(r)) && !(r.TriggerBuild? && (r.dryRun || r.confirmed))
    requires Playable(Take(s, t, Receive(r)), between)
    requires forall k :: 0 <= k < |between| && between[k].t == t ==> between[k].step != Inside(T.Unlock)
    requires Enabled(Play(Take(s, t, Receive(r)), between), t, Inside(T.Unlock))
    ensures var before := Play(Take(s, t, Receive(r)), between);
      var after := Take(before, t, Inside(T.Unlock));
      exists e ::
        && AnswersRequest(r, e, s.threads.clock, before.threads.clock)
        && after.threads.log == before.threads.log + [e]
        && after.waiting ==
             if e.ConfirmOk? then before.waiting[t := G.Waiting(e.act, |before.threads.log|)] else before.waiting
  {
    hide Inv, AnswersRequest, Playable, Play, C.Serves, C.Answers, T.Starts, Entry;
    var received := Take(s, t, Receive(r));
    StepKeeps(s, t, Receive(r));
    EntryStarts(s, t, r);
    Received(s, t, r);
    C.CallServes(received.threads.mem, s.threads.clock, Entry(r));
    StillServed(received, between, t, Entry(r), s.threads.clock);
    var before := Play(received, between);
    InnerInv(before);
    C.ReturnAnswers(before.threads, t, Entry(r), s.threads.clock);
    UnlockTakes(before, t);
    EntryAnswers(r, T.EventOf(before.threads, t), s.threads.clock, before.threads.clock);
  }

  lemma InnerInv(s: State)
    requires Inv(s)
    ensures T.Inv(s.threads)
  {
    hide T.Inv;
  }

  lemma Received(s: State, t: Tid, r: GuardrailThreads.Request)
    requires Enabled(s, t, Receive(r)) && !Immediate(r)
    ensures var s' := Take(s, t, Receive(r)).threads;
      T.PcOf(s', t) == Entry(r) && s'.clock == s.threads.clock && s'.mem == s.threads.mem
  {
    hide Entry;
  }

  lemma EntryAnswers(r: GuardrailThreads.Request, e: Event, since: int, until: int)
    requires !Immediate(r) && C.Answers(Entry(r), e, since, until)
    ensures AnswersRequest(r, e, since, until)
  {
  }
}
