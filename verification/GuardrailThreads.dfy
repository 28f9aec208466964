/**
 The request handlers on top of the Stager's single steps: any number of threads, each handling one request
 at a time, interleaved inside the Stager methods as well as between a confirmation and its dispatch.
 */
module GuardrailThreads {
  import opened Staging
  import T = StagerThreads
  import G = Guardrail

  type Tid = nat

  /** `waiting` are the requests that have confirmed an action and not dispatched it yet. */
  datatype State = State(threads: T.State, waiting: map<Tid, G.Waiting>)

  datatype Request =
    | TriggerBuild(flavor: string, backend: string, dryRun: bool, confirmed: bool, preview: string)
    | ConfirmAction(id: string)
    | DiscardAction(id: string)
    | ListActions
    | PruneActions(maxAge: int)

  datatype Step = Receive(request: Request) | Inside(step: T.Step) | Proceed

  function BuildArgs(r: Request): T.Args
    requires r.TriggerBuild?
  {
    T.Args(G.TRIGGER_BUILD, r.flavor, G.BuildPayload(r.flavor, r.backend, r.dryRun), r.preview)
  }

  predicate Immediate(r: Request) { r.TriggerBuild? && (r.dryRun || r.confirmed) }

  /** The Stager method a request starts with. */
  function Entry(r: Request): T.Pc
    requires !Immediate(r)
  {
    match r
    case TriggerBuild(_, _, _, _, _) => T.WantsStage(BuildArgs(r))
    case ConfirmAction(id) => T.WantsConfirm(id)
    case DiscardAction(id) => T.WantsDiscard(id)
    case ListActions => T.WantsList
    case PruneActions(maxAge) => T.WantsPrune(maxAge)
  }

  predicate Enabled(s: State, t: Tid, step: Step) {
    match step
    case Receive(_) => T.PcOf(s.threads, t).Idle? && t !in s.waiting
    case Inside(inner) => !inner.Call? && T.Enabled(s.threads, t, inner)
    case Proceed => t in s.waiting
  }

  function Logged(s: T.State, e: Event): T.State { s.(log := s.log + [e]) }

  function Take(s: State, t: Tid, step: Step): State
    requires Enabled(s, t, step)
  {
    match step
    case Receive(r) =>
      if Immediate(r) then
        s.(threads := Logged(s.threads,
          Dispatched(Staging.Request(r.flavor, r.backend, r.dryRun), Direct(r.confirmed))))
      else s.(threads := T.Take(s.threads, t, T.Call(Entry(r))))
    case Inside(inner) =>
      var next := T.Take(s.threads, t, inner);
      if inner.Unlock? && next.log[|next.log| - 1].ConfirmOk? then
        State(next, s.waiting[t := G.Waiting(next.log[|next.log| - 1].act, |s.threads.log|)])
      else s.(threads := next)
    case Proceed =>
      var w := s.waiting[t];
      var done := s.(waiting := s.waiting - {t});
      if w.act.tool == G.TRIGGER_BUILD then
        done.(threads := Logged(s.threads, Dispatched(G.RequestOf(w.act), ForConfirm(w.at))))
      else done
  }

  // ----- What every step keeps -----

  /** What the handlers of the atomic Stager would see. */
  function View(s: State): G.State { G.State(s.threads.log, s.waiting) }

  ghost predicate IsBuild(tool: string, target: string, payload: map<string, Any>) {
    tool == G.TRIGGER_BUILD && exists backend :: payload == G.BuildPayload(target, backend, false)
  }

  /** Only unconfirmed live builds are on their way into the map. */
  ghost predicate StagesBuilds(m: T.Memory, pc: T.Pc) {
    match pc
    case WantsStage(a) => IsBuild(a.tool, a.target, a.payload)
    case StageIn(a, _) => IsBuild(a.tool, a.target, a.payload)
    case StageWalk(a, _, _) => IsBuild(a.tool, a.target, a.payload)
    case StageRoomed(a, _) => IsBuild(a.tool, a.target, a.payload)
    case StageInserted(_, _, ref) => ref in m.heap && IsBuild(m.heap[ref].tool, m.heap[ref].target, m.heap[ref].payload)
    case _ => true
  }

  ghost predicate AllStageBuilds(s: T.State) {
    forall t :: t in s.threads ==> StagesBuilds(s.mem, s.threads[t])
  }

  ghost predicate WaitingOutside(s: State) {
    forall t :: t in s.waiting ==> T.PcOf(s.threads, t).Idle?
  }

  ghost predicate Inv(s: State) {
    T.Inv(s.threads) && AllStageBuilds(s.threads) && WaitingOutside(s) && G.Inv(View(s))
  }

  lemma SameBoard(s: T.State, s': T.State)
    requires T.Inv(s) && s' == s.(log := s'.log) && Legal(s'.log) && After(s'.log) == After(s.log)
    ensures T.Inv(s')
  {
    assert T.LockOk(s') by { assert forall t :: T.PcOf(s', t) == T.PcOf(s, t); }
    hide T.Midway, T.LockOk, T.HeapOk, T.Contents, Legal, After;
  }

  lemma LoggedKeeps(s: T.State, e: Event)
    requires T.Inv(s) && e.Dispatched?
    ensures T.Inv(Logged(s, e))
  {
    assert Legal(s.log);
    hide T.Inv, After, Legal;
    LegalStep(s.log, e);
    SameBoard(s, Logged(s, e));
  }

  /** Objects only move forward, so what a staging thread inserted stays a build. */
  lemma BuildsStay(m: T.Memory, m': T.Memory, pc: T.Pc)
    requires StagesBuilds(m, pc) && T.AllForward(m, m')
    ensures StagesBuilds(m', pc)
  {
    hide IsBuild;
  }

  lemma OwnBuildStays(s: T.State, t: Tid, step: T.Step)
    requires T.Enabled(s, t, step) && !step.Call? && StagesBuilds(s.mem, T.PcOf(s, t)) &&
        T.AllForward(s.mem, T.Take(s, t, step).mem)
    ensures StagesBuilds(T.Take(s, t, step).mem, T.PcOf(T.Take(s, t, step), t))
  {
    hide IsBuild, T.AllForward, T.Swept, T.Marked, T.Gone, T.Finishing;
    if step.Tick? { BuildsStay(s.mem, T.Take(s, t, step).mem, T.PcOf(s, t)); }
  }

  lemma BuildsKept(s: T.State, t: Tid, step: T.Step)
    requires T.Inv(s) && T.Enabled(s, t, step) && !step.Call? && AllStageBuilds(s)
    ensures AllStageBuilds(T.Take(s, t, step))
  {
    T.StepMovesForward(s, t, step);
    var s' := T.Take(s, t, step);
    OthersStay(s, t, step);
    assert StagesBuilds(s.mem, T.PcOf(s, t));
    OwnBuildStays(s, t, step);
    hide T.Inv, T.Enabled, T.Take, T.AllForward, StagesBuilds;
    forall u | u in s'.threads ensures StagesBuilds(s'.mem, s'.threads[u]) {
      if u != t { BuildsStay(s.mem, s'.mem, s.threads[u]); }
    }
  }

  lemma OthersStay(s: T.State, t: Tid, step: T.Step)
    requires T.Enabled(s, t, step)
    ensures var s' := T.Take(s, t, step);
      (forall u :: u != t && u in s'.threads ==> u in s.threads && s'.threads[u] == s.threads[u])
      && (forall u :: u != t ==> T.PcOf(s', u) == T.PcOf(s, u))
      && (t in s'.threads ==> s'.threads[t] == T.PcOf(s', t))
      && (!step.Unlock? ==> s'.log == s.log)
      && (step.Unlock? ==> s'.log == s.log + [T.Returned(s, T.PcOf(s, t))] && T.PcOf(s', t).Idle?)
      && (T.PcOf(s, t).Idle? && !step.Call? ==> step.Tick? && T.PcOf(s', t).Idle?)
  {
    hide T.Swept, T.Marked, T.Gone, T.Returned, T.Entered;
  }

  lemma ReceiveKeeps(s: State, t: Tid, r: Request)
    requires Inv(s) && Enabled(s, t, Receive(r))
    ensures Inv(Take(s, t, Receive(r)))
  {
    hide T.Inv, G.Inv, G.BuildPayload;
    if Immediate(r) {
      var request := Staging.Request(r.flavor, r.backend, r.dryRun);
      LoggedKeeps(s.threads, Dispatched(request, Direct(r.confirmed)));
      G.DirectDispatch(View(s), request, r.confirmed);
    } else {
      var pc := Entry(r);
      T.StepKeeps(s.threads, t, T.Call(pc));
      assert StagesBuilds(s.threads.mem, pc);
    }
  }

  lemma ProceedKeeps(s: State, t: Tid)
    requires Inv(s) && t in s.waiting
    ensures Inv(Take(s, t, Proceed))
  {
    hide T.Inv, G.Inv, G.RequestOf;
    var w := s.waiting[t];
    if w.act.tool == G.TRIGGER_BUILD {
      LoggedKeeps(s.threads, Dispatched(G.RequestOf(w.act), ForConfirm(w.at)));
      G.ConfirmedDispatch(View(s), t);
    } else {
      G.ForgetKeeps(View(s), t);
    }
  }

  lemma UnlockFacts(s: T.State, t: Tid)
    requires T.Inv(s) && AllStageBuilds(s) && T.Enabled(s, t, T.Unlock)
    ensures var pc := T.PcOf(s, t);
      && T.Finishing(pc) && !pc.Idle? && StagesBuilds(s.mem, pc) && T.HeapOk(s.mem) && T.Midway(s.mem, After(s.log), pc)
      && ((pc.ConfirmWritten? || pc.StageInserted? || pc.GetFound?) ==> pc.ref in s.mem.heap)
      && T.EventOf(s, t) == T.Returned(s, pc)
  {
    hide T.Midway, After, T.Contents, T.Returned, StagesBuilds, Legal;
    T.FinishingInside(T.PcOf(s, t));
    T.MidwayHere(s, t);
  }

  lemma UnlockEvent(s: T.State, t: Tid)
    requires T.Inv(s) && AllStageBuilds(s) && T.Enabled(s, t, T.Unlock)
    ensures var e := T.EventOf(s, t);
      Can(After(s.log), e) && !e.Dispatched? && (e.Staged? ==> IsBuild(e.act.tool, e.act.target, e.act.payload))
  {
    hide *;
    UnlockFacts(s, t);
    T.ReturnsAtomically(s, After(s.log), T.PcOf(s, t));
    StagedIsBuild(s, T.PcOf(s, t));
  }

  lemma UnlockTakes(s: State, t: Tid)
    requires Inv(s) && Enabled(s, t, Inside(T.Unlock))
    ensures T.Enabled(s.threads, t, T.Unlock) && T.Inv(s.threads) && AllStageBuilds(s.threads) && G.Inv(View(s))
    ensures t !in s.waiting
    ensures var v, v', e := View(s), View(Take(s, t, Inside(T.Unlock))), T.EventOf(s.threads, t);
      v' == G.State(v.log + [e], if e.ConfirmOk? then v.waiting[t := G.Waiting(e.act, |v.log|)] else v.waiting)
  {
    hide T.Inv, G.Inv, T.Returned, AllStageBuilds, T.Take;
    OthersStay(s.threads, t, T.Unlock);
  }

  /** Giving the lock back is one event of the atomic Stager, which keeps what the handlers rely on. */
  lemma UnlockViews(s: State, t: Tid)
    requires Inv(s) && Enabled(s, t, Inside(T.Unlock))
    ensures G.Inv(View(Take(s, t, Inside(T.Unlock))))
  {
    hide *;
    UnlockTakes(s, t);
    UnlockEvent(s.threads, t);
    ViewLog(s);
    ViewedEvent(View(s), t, T.EventOf(s.threads, t));
  }

  lemma ViewLog(s: State)
    ensures View(s) == G.State(s.threads.log, s.waiting)
  {
  }

  lemma ViewedEvent(v: G.State, t: Tid, e: Event)
    requires G.Inv(v) && t !in v.waiting && Can(After(v.log), e) && !e.Dispatched?
    requires e.Staged? ==> IsBuild(e.act.tool, e.act.target, e.act.payload)
    ensures e.ConfirmOk? ==> G.Inv(G.State(v.log + [e], v.waiting[t := G.Waiting(e.act, |v.log|)]))
    ensures !e.ConfirmOk? ==> G.Inv(G.State(v.log + [e], v.waiting))
  {
    hide G.Inv, Can, After, G.BuildPayload;
    if e.Staged? {
      G.StagingEvent(v, e);
    } else if e.ConfirmOk? {
      G.ConfirmEvent(v, t, e.id, e.act);
    } else {
      G.QuietEvent(v, e);
    }
  }

  lemma StagedIsBuild(s: T.State, pc: T.Pc)
    requires T.Finishing(pc) && StagesBuilds(s.mem, pc)
    requires (pc.ConfirmWritten? || pc.StageInserted? || pc.GetFound?) ==> pc.ref in s.mem.heap
    ensures var e := T.Returned(s, pc);
      !e.Dispatched? && (e.Staged? ==> IsBuild(e.act.tool, e.act.target, e.act.payload))
  {
    hide IsBuild;
  }

  lemma WaitingKept(s: State, t: Tid, step: T.Step)
    requires WaitingOutside(s) && Enabled(s, t, Inside(step))
    ensures WaitingOutside(Take(s, t, Inside(step)))
  {
    OthersStay(s.threads, t, step);
    hide T.Take, T.Enabled, T.Returned;
  }

  lemma InsideKeeps(s: State, t: Tid, step: T.Step)
    requires Inv(s) && Enabled(s, t, Inside(step))
    ensures Inv(Take(s, t, Inside(step)))
  {
    hide T.Inv, G.Inv, T.Take, T.Enabled, AllStageBuilds, WaitingOutside, T.Returned;
    T.StepKeeps(s.threads, t, step);
    BuildsKept(s.threads, t, step);
    OthersStay(s.threads, t, step);
    WaitingKept(s, t, step);
    if step.Unlock? { UnlockViews(s, t); }
  }

  lemma StepKeeps(s: State, t: Tid, step: Step)
    requires Inv(s) && Enabled(s, t, step)
    ensures Inv(Take(s, t, step))
  {
    hide Inv, Take;
    match step
    case Receive(r) => ReceiveKeeps(s, t, r);
    case Inside(inner) => InsideKeeps(s, t, inner);
    case Proceed => ProceedKeeps(s, t);
  }

  // ----- Runs -----

  datatype Move = Move(t: Tid, step: Step)

  function Start(clock: int): State { State(T.Start(clock), map[]) }

  predicate Playable(s: State, moves: seq<Move>)
    decreases |moves|
  {
    moves == []
    || (Enabled(s, moves[0].t, moves[0].step) && Playable(Take(s, moves[0].t, moves[0].step), moves[1..]))
  }

  function Play(s: State, moves: seq<Move>): State
    requires Playable(s, moves)
    decreases |moves|
  {
    if moves == [] then s else Play(Take(s, moves[0].t, moves[0].step), moves[1..])
  }

  lemma {:induction false} PlayKeeps(s: State, moves: seq<Move>)
    requires Inv(s) && Playable(s, moves)
    ensures Inv(Play(s, moves))
    decreases |moves|
  {
    hide Inv, Enabled, Take;
    if moves != [] {
      StepKeeps(s, moves[0].t, moves[0].step);
      PlayKeeps(Take(s, moves[0].t, moves[0].step), moves[1..]);
    }
  }

  lemma StartIsFine(clock: int)
    ensures Inv(Start(clock))
  {
    T.StartIsFine(clock);
    G.StartIsFine();
    hide T.Inv, G.Inv;
  }

  /** However requests interleave, down to the single steps inside the Stager, every dispatch is justified. */
  lemma EveryInterleavingIsJustified(clock: int, moves: seq<Move>)
    requires Playable(Start(clock), moves)
    ensures G.JustifiedThroughout(Play(Start(clock), moves).threads.log)
  {
    hide Playable, Play, T.Inv, G.Inv, G.JustifiedThroughout;
    StartIsFine(clock);
    PlayKeeps(Start(clock), moves);
    G.InvJustifies(View(Play(Start(clock), moves)));
  }
}
