/**
 What a caller of the Stager gets, however many other threads are inside it: each call returns once, with an
 answer to what was asked.
 */
module StagerCalls {
  import opened Staging
  import opened StagerThreads

  /** A method may be called by any thread outside one, and gets the lock just when no other holder excludes it. */
  lemma LockGrantedIff(s: State, t: Tid, call: Pc)
    requires Inv(s)
    ensures Enabled(s, t, Call(call)) <==> PcOf(s, t).Idle? && Starts(call)
    ensures Enabled(s, t, Lock) <==>
      && (PcOf(s, t).WantsConfirm? || PcOf(s, t).WantsDiscard? || PcOf(s, t).WantsPrune? || PcOf(s, t).WantsStage?)
      && forall u :: !HoldsWrite(PcOf(s, u)) && !HoldsRead(PcOf(s, u))
    ensures Enabled(s, t, RLock) <==>
      && (PcOf(s, t).WantsGet? || PcOf(s, t).WantsList?)
      && forall u :: !HoldsWrite(PcOf(s, u))
  {
    assert LockOk(s);
    hide Inv, HoldsWrite, HoldsRead, PcOf, Starts;
    if u :| u in s.writer { assert HoldsWrite(PcOf(s, u)); } else { assert s.writer == {}; }
    if u :| u in s.readers { assert HoldsRead(PcOf(s, u)); } else { assert s.readers == {}; }
  }

  /** The events that answer a call made when the clock showed `since` and returning by `until`. */
  predicate Answers(call: Pc, e: Event, since: int, until: int) {
    match call
    case WantsConfirm(id) => e == ConfirmErr(id) || (e.ConfirmOk? && e.id == id && e.act.status == Confirmed)
    case WantsDiscard(id) => e == DiscardOk(id) || e == DiscardErr(id)
    case WantsPrune(maxAge) => e.Prune? && e.maxAge == maxAge && since <= e.now <= until
    case WantsStage(args) =>
      && e.Staged? && since <= e.began <= e.act.createdAt <= until
      && e.act.status == Pending && e.act.tool == args.tool && e.act.target == args.target
      && e.act.payload == args.payload && e.act.preview == args.preview
    case WantsGet(id) => e == GetErr(id) || (e.GetOk? && e.id == id)
    case WantsList => e.Listed?
    case _ => false
  }

  predicate Carries(act: Action, args: Args) {
    act.tool == args.tool && act.target == args.target && act.payload == args.payload && act.preview == args.preview
  }

  /** A thread at `pc` is on its way to answer `call`, and has read the clock at or after `since` if at all. */
  predicate Serves(m: Memory, clock: int, call: Pc, since: int, pc: Pc) {
    && since <= clock
    && ServesCall(m, call, pc)
    && match pc
       case PruneWalk(_, now, _, _) => since <= now <= clock
       case StageIn(_, began) => since <= began <= clock
       case StageWalk(_, began, _) => since <= began <= clock
       case StageRoomed(_, began) => since <= began <= clock
       case StageInserted(began, _, ref) => ref in m.heap && since <= began <= m.heap[ref].createdAt <= clock
       case _ => true
  }

  predicate ServesCall(m: Memory, call: Pc, pc: Pc) {
    || pc == call
    || match call
       case WantsConfirm(id) =>
         (pc.ConfirmIn? || pc.ConfirmFound? || pc.ConfirmTested? || pc.ConfirmWritten? || pc.ConfirmRefused?)
         && pc.id == id
       case WantsDiscard(id) =>
         (pc.DiscardIn? || pc.DiscardFound? || pc.DiscardMarked? || pc.DiscardDropped? || pc.DiscardRefused?)
         && pc.id == id
       case WantsPrune(maxAge) => (pc.PruneIn? || pc.PruneWalk?) && pc.maxAge == maxAge
       case WantsStage(args) =>
         || ((pc.StageIn? || pc.StageWalk? || pc.StageRoomed?) && pc.args == args)
         || (pc.StageInserted? && pc.ref in m.heap && Carries(m.heap[pc.ref], args))
       case WantsGet(id) => (pc.GetIn? || pc.GetFound? || pc.GetMissed?) && pc.id == id
       case WantsList => pc.ListWalk?
       case _ => false
  }

  /** Objects keep what was staged, so whatever memory becomes, the thread still serves its call. */
  lemma ServesOn(m: Memory, m': Memory, clock: int, later: int, call: Pc, since: int, pc: Pc)
    requires Serves(m, clock, call, since, pc) && AllForward(m, m') && clock <= later
    ensures Serves(m', later, call, since, pc)
  {
  }

  lemma OwnStepServes(s: State, t: Tid, step: Step, call: Pc)
    requires Starts(call) && ServesCall(s.mem, call, PcOf(s, t)) && Enabled(s, t, step)
    requires !step.Unlock? && !step.Tick?
    ensures ServesCall(Take(s, t, step).mem, call, PcOf(Take(s, t, step), t))
  {
    hide Swept, Marked, Gone, Cutoff, Expired;
  }

  lemma OwnStepDated(s: State, t: Tid, step: Step, call: Pc, since: int)
    requires Starts(call) && Serves(s.mem, s.clock, call, since, PcOf(s, t)) && Enabled(s, t, step)
    requires !step.Unlock? && !step.Tick?
    ensures var s' := Take(s, t, step); Serves(s'.mem, s'.clock, call, since, PcOf(s', t))
  {
    OwnStepServes(s, t, step, call);
    hide Swept, Marked, Gone, Cutoff, Expired, ServesCall, Starts;
  }

  lemma OthersStay(s: State, t: Tid, step: Step, u: Tid)
    requires Enabled(s, t, step) && (u != t || step.Tick?)
    ensures PcOf(Take(s, t, step), u) == PcOf(s, u) && s.clock <= Take(s, t, step).clock
  {
    hide Swept, Marked, Gone, Returned, Entered;
  }

  lemma StepServes(s: State, t: Tid, step: Step, u: Tid, call: Pc, since: int)
    requires Inv(s) && Enabled(s, t, step) && Starts(call) && Serves(s.mem, s.clock, call, since, PcOf(s, u))
    requires t == u ==> !step.Unlock?
    ensures var s' := Take(s, t, step); Serves(s'.mem, s'.clock, call, since, PcOf(s', u))
  {
    hide Inv, Take, Serves, AllForward, Enabled, Starts;
    if t == u && !step.Tick? {
      OwnStepDated(s, t, step, call, since);
    } else {
      OthersStay(s, t, step, u);
      StepMovesForward(s, t, step);
      var s' := Take(s, t, step);
      ServesOn(s.mem, s'.mem, s.clock, s'.clock, call, since, PcOf(s, u));
    }
  }

  /** Only giving the lock back adds to the log, one event each time. */
  lemma OnlyUnlockLogs(s: State, t: Tid, step: Step)
    requires Enabled(s, t, step)
    ensures var s' := Take(s, t, step);
      s'.log == if step.Unlock? then s.log + [EventOf(s, t)] else s.log
  {
    hide Swept, Marked, Gone, Returned, Entered;
  }

  lemma ServedAnswer(s: State, pc: Pc, call: Pc, since: int)
    requires Starts(call) && Serves(s.mem, s.clock, call, since, pc) && Finishing(pc)
    requires (pc.ConfirmWritten? || pc.StageInserted? || pc.GetFound?) ==> pc.ref in s.mem.heap
    requires pc.ConfirmWritten? ==> s.mem.heap[pc.ref].status == Confirmed
    requires pc.StageInserted? ==> s.mem.heap[pc.ref].status == Pending
    ensures Answers(call, Returned(s, pc), since, s.clock)
  {
  }

  lemma StatusWritten(m: Memory, b: Board, pc: Pc)
    requires HeapOk(m) && Midway(m, b, pc)
    ensures pc.ConfirmWritten? ==> pc.ref in m.heap && m.heap[pc.ref].status == Confirmed
    ensures pc.StageInserted? ==> pc.ref in m.heap && m.heap[pc.ref].status == Pending
  {
    hide Contents, Walked, Pruned, Roomed, Apply, Can;
    ContentsAt(m);
  }

  /** What unlocking needs, and what it logs. */
  lemma UnlockReturns(s: State, t: Tid)
    requires Enabled(s, t, Unlock)
    ensures var pc := PcOf(s, t);
      Finishing(pc) && ((pc.ConfirmWritten? || pc.StageInserted? || pc.GetFound?) ==> pc.ref in s.mem.heap)
  {
    hide Finishing;
  }

  lemma ReturnAnswers(s: State, t: Tid, call: Pc, since: int)
    requires Inv(s) && Starts(call) && Serves(s.mem, s.clock, call, since, PcOf(s, t)) && Enabled(s, t, Unlock)
    ensures Answers(call, EventOf(s, t), since, s.clock)
  {
    hide Inv, Enabled, Serves, Answers, Returned, Midway, Starts, Finishing;
    UnlockReturns(s, t);
    FinishingInside(PcOf(s, t));
    MidwayHere(s, t);
    StatusWritten(s.mem, After(s.log), PcOf(s, t));
    ServedAnswer(s, PcOf(s, t), call, since);
  }

  lemma {:induction false} StillServed(s: State, moves: seq<Move>, t: Tid, call: Pc, since: int)
    requires Inv(s) && Playable(s, moves) && Starts(call) && Serves(s.mem, s.clock, call, since, PcOf(s, t))
    requires forall k :: 0 <= k < |moves| && moves[k].t == t ==> !moves[k].step.Unlock?
    ensures var s' := Play(s, moves); Inv(s') && Serves(s'.mem, s'.clock, call, since, PcOf(s', t))
    decreases |moves|
  {
    hide Inv, Take, Serves, Enabled, Starts;
    if moves != [] {
      StepKeeps(s, moves[0].t, moves[0].step);
      StepServes(s, moves[0].t, moves[0].step, t, call, since);
      StillServed(Take(s, moves[0].t, moves[0].step), moves[1..], t, call, since);
    }
  }

  /**
   Whatever other threads do between a call and the unlocking that ends it, the unlocking adds one event to the log,
   and it answers the call: the same ID, the same age, the action with the arguments of the staging, each clock
   reading taken while the call was under way.
   */
  lemma CallIsAnswered(s: State, t: Tid, call: Pc, between: seq<Move>)
    requires Inv(s) && Enabled(s, t, Call(call))
    requires Playable(Take(s, t, Call(call)), between)
    requires forall k :: 0 <= k < |between| && between[k].t == t ==> !between[k].step.Unlock?
    requires Enabled(Play(Take(s, t, Call(call)), between), t, Unlock)
    ensures var before := Play(Take(s, t, Call(call)), between);
      exists e :: Take(before, t, Unlock).log == before.log + [e] && Answers(call, e, s.clock, before.clock)
  {
    hide Inv, Serves, Answers, EventOf, Playable, Play;
    var called := Take(s, t, Call(call));
    StepKeeps(s, t, Call(call));
    CallServes(called.mem, s.clock, call);
    StillServed(called, between, t, call, s.clock);
    var before := Play(called, between);
    ReturnAnswers(before, t, call, s.clock);
    OnlyUnlockLogs(before, t, Unlock);
  }

  lemma CallServes(m: Memory, clock: int, call: Pc)
    requires Starts(call)
    ensures Serves(m, clock, call, clock, call)
  {
  }
}
