/**
 Any number of threads inside the Stager methods at once, one small step at a time: take the
 lock, look up, test, write, release.  Every interleaving is a run of the atomic Stager.
 */
module StagerThreads {
  import opened Staging
  import opened Capacity

  type Tid = nat
  type Ref = nat

  /** What a caller passes to `Stage`. */
  datatype Args = Args(tool: string, target: string, payload: map<string, Any>, preview: string)

  /** Where a thread stands inside a method; `Wants` positions hold no lock. */
  datatype Pc =
    | Idle
    | WantsConfirm(id: string)
    | ConfirmIn(id: string)
    | ConfirmFound(id: string, ref: Ref)
    | ConfirmTested(id: string, ref: Ref)
    | ConfirmWritten(id: string, ref: Ref)
    | ConfirmRefused(id: string)
    | WantsDiscard(id: string)
    | DiscardIn(id: string)
    | DiscardFound(id: string, ref: Ref)
    | DiscardMarked(id: string, ref: Ref)
    | DiscardDropped(id: string)
    | DiscardRefused(id: string)
    | WantsPrune(maxAge: int)
    | PruneIn(maxAge: int)
    | PruneWalk(maxAge: int, now: int, todo: set<string>, count: int)
    | WantsStage(args: Args)
    | StageIn(args: Args, began: int)
    | StageWalk(args: Args, began: int, todo: set<string>)
    | StageRoomed(args: Args, began: int)
    | StageInserted(began: int, id: string, ref: Ref)
    | WantsGet(id: string)
    | GetIn(id: string)
    | GetFound(id: string, ref: Ref)
    | GetMissed(id: string)
    | WantsList
    | ListWalk(todo: set<string>, out: seq<Action>)

  predicate HoldsWrite(pc: Pc) {
    pc.ConfirmIn? || pc.ConfirmFound? || pc.ConfirmTested? || pc.ConfirmWritten? || pc.ConfirmRefused?
    || pc.DiscardIn? || pc.DiscardFound? || pc.DiscardMarked? || pc.DiscardDropped? || pc.DiscardRefused?
    || pc.PruneIn? || pc.PruneWalk?
    || pc.StageIn? || pc.StageWalk? || pc.StageRoomed? || pc.StageInserted?
  }

  predicate HoldsRead(pc: Pc) { pc.GetIn? || pc.GetFound? || pc.GetMissed? || pc.ListWalk? }

  /** The memory the lock protects: the map of pointers and what they point to. */
  datatype Memory = Memory(actions: map<string, Ref>, heap: map<Ref, Action>)

  /** Memory, the read-write lock, the clock, every thread and the history of returned calls. */
  datatype State = State(
    writer: set<Tid>,
    readers: set<Tid>,
    mem: Memory,
    threads: map<Tid, Pc>,
    clock: int,
    log: seq<Event>)

  function Contents(m: Memory): Board
    requires forall id :: id in m.actions ==> m.actions[id] in m.heap
  {
    map id | id in m.actions :: m.heap[m.actions[id]]
  }

  function PcOf(s: State, t: Tid): Pc { if t in s.threads then s.threads[t] else Idle }

  function At(s: State, t: Tid, pc: Pc): State { s.(threads := s.threads[t := pc]) }

  // ----- Steps -----

  datatype Step =
    | Call(pc: Pc)
    | Tick(elapsed: nat)
    | Lock
    | RLock
    | LookUp
    | Test
    | WriteStatus
    | DropKey
    | ReadClock
    | Visit(id: string)
    | Insert(id: string, ref: Ref)
    | Unlock

  predicate Starts(pc: Pc) {
    pc.WantsConfirm? || pc.WantsDiscard? || pc.WantsPrune? || pc.WantsStage? || pc.WantsGet? || pc.WantsList?
  }

  /** The position after taking the lock. */
  function Entered(s: State, pc: Pc): Pc {
    match pc
    case WantsConfirm(id) => ConfirmIn(id)
    case WantsDiscard(id) => DiscardIn(id)
    case WantsPrune(maxAge) => PruneIn(maxAge)
    case WantsStage(args) => StageIn(args, s.clock)
    case WantsGet(id) => GetIn(id)
    case WantsList => ListWalk(s.mem.actions.Keys, [])
    case _ => pc
  }

  /** The call a thread completes when it releases the lock, with its result. */
  function Returned(s: State, pc: Pc): (e: Event)
    requires Finishing(pc)
    requires (pc.ConfirmWritten? || pc.StageInserted? || pc.GetFound?) ==> pc.ref in s.mem.heap
  {
    match pc
    case ConfirmWritten(id, ref) => ConfirmOk(id, s.mem.heap[ref])
    case ConfirmRefused(id) => ConfirmErr(id)
    case DiscardDropped(id) => DiscardOk(id)
    case DiscardRefused(id) => DiscardErr(id)
    case PruneWalk(maxAge, now, _, count) => Prune(now, maxAge, count)
    case StageInserted(began, _, ref) => Staged(s.mem.heap[ref], began)
    case GetFound(id, ref) => GetOk(id, s.mem.heap[ref])
    case GetMissed(id) => GetErr(id)
    case ListWalk(_, out) => Listed(out)
  }

  predicate Finishing(pc: Pc) {
    pc.ConfirmWritten? || pc.ConfirmRefused? || pc.DiscardDropped? || pc.DiscardRefused?
    || (pc.PruneWalk? && pc.todo == {}) || pc.StageInserted?
    || pc.GetFound? || pc.GetMissed? || (pc.ListWalk? && pc.todo == {})
  }

  predicate Enabled(s: State, t: Tid, step: Step) {
    var pc := PcOf(s, t);
    match step
    case Call(next) => pc.Idle? && Starts(next)
    case Tick(_) => true
    case Lock => (pc.WantsConfirm? || pc.WantsDiscard? || pc.WantsPrune? || pc.WantsStage?) && s.writer == {} &&
      s.readers == {}
    case RLock => (pc.WantsGet? || pc.WantsList?) && s.writer == {}
    case LookUp => pc.ConfirmIn? || pc.DiscardIn? || pc.GetIn?
    case Test => pc.ConfirmFound? && pc.ref in s.mem.heap
    case WriteStatus => (pc.ConfirmTested? || pc.DiscardFound?) && pc.ref in s.mem.heap
    case DropKey => pc.DiscardMarked?
    case ReadClock => pc.PruneIn? || pc.StageIn?
    case Visit(id) =>
      (pc.PruneWalk? || pc.StageWalk? || pc.ListWalk?) && id in pc.todo && id in s.mem.actions &&
        s.mem.actions[id] in s.mem.heap
    case Insert(_, ref) => (pc.StageRoomed? || (pc.StageWalk? && pc.todo == {})) && ref !in s.mem.heap
    case Unlock => Finishing(pc) && ((pc.ConfirmWritten? || pc.StageInserted? || pc.GetFound?) ==> pc.ref in s.mem.heap)
  }

  predicate Expired(act: Action, cutoff: int) { act.createdAt < cutoff }

  function Gone(m: Memory, id: string, cutoff: int): int
    requires id in m.actions && m.actions[id] in m.heap
  {
    if Expired(m.heap[m.actions[id]], cutoff) then 1 else 0
  }

  /** Memory after a status was written in place. */
  function Marked(m: Memory, ref: Ref, status: Status): Memory
    requires ref in m.heap
  {
    m.(heap := m.heap[ref := m.heap[ref].(status := status)])
  }

  /** Memory after a pruning walk visited `id`. */
  function Swept(m: Memory, id: string, cutoff: int): Memory
    requires id in m.actions && m.actions[id] in m.heap
  {
    if Expired(m.heap[m.actions[id]], cutoff) then m.(actions := m.actions - {id}) else m
  }

  function Take(s: State, t: Tid, step: Step): State
    requires Enabled(s, t, step)
  {
    var pc := PcOf(s, t);
    match step
    case Call(next) => At(s, t, next)
    case Tick(elapsed) => s.(clock := s.clock + elapsed)
    case Lock => At(s, t, Entered(s, pc)).(writer := {t})
    case RLock => At(s, t, Entered(s, pc)).(readers := s.readers + {t})
    case LookUp =>
      if pc.GetIn? then At(s, t, if pc.id in s.mem.actions then GetFound(pc.id, s.mem.actions[pc.id])
        else GetMissed(pc.id))
      else if pc.ConfirmIn? then
        At(s, t, if pc.id in s.mem.actions then ConfirmFound(pc.id, s.mem.actions[pc.id]) else ConfirmRefused(pc.id))
      else At(s, t, if pc.id in s.mem.actions then DiscardFound(pc.id, s.mem.actions[pc.id]) else DiscardRefused(pc.id))
    case Test =>
      At(s, t, if s.mem.heap[pc.ref].status == Pending then ConfirmTested(pc.id, pc.ref) else ConfirmRefused(pc.id))
    case WriteStatus =>
      if pc.ConfirmTested? then
        At(s, t, ConfirmWritten(pc.id, pc.ref)).(mem := Marked(s.mem, pc.ref, Confirmed))
      else
        At(s, t, DiscardMarked(pc.id, pc.ref)).(mem := Marked(s.mem, pc.ref, Discarded))
    case DropKey => At(s, t, DiscardDropped(pc.id)).(mem := s.mem.(actions := s.mem.actions - {pc.id}))
    case ReadClock =>
      if pc.PruneIn? then At(s, t, PruneWalk(pc.maxAge, s.clock, s.mem.actions.Keys, 0))
      else if |s.mem.actions| >= MAX_CAPACITY then At(s, t, StageWalk(pc.args, s.clock, s.mem.actions.Keys))
      else At(s, t, StageRoomed(pc.args, pc.began))
    case Visit(id) =>
      if pc.ListWalk? then At(s, t, ListWalk(pc.todo - {id}, pc.out + [s.mem.heap[s.mem.actions[id]]]))
      else if pc.PruneWalk? then
        var cutoff := Cutoff(pc.now, pc.maxAge);
        At(s, t, PruneWalk(pc.maxAge, pc.now, pc.todo - {id}, pc.count + Gone(s.mem, id, cutoff)))
          .(mem := Swept(s.mem, id, cutoff))
      else
        At(s, t, StageWalk(pc.args, pc.began, pc.todo - {id})).(mem := Swept(s.mem, id, Cutoff(pc.began, DEFAULT_TTL)))
    case Insert(id, ref) =>
      var a := pc.args;
      var act := Action(id, a.tool, a.target, a.payload, a.preview, Pending, s.clock);
      At(s, t, StageInserted(pc.began, id, ref)).(mem := Memory(s.mem.actions[id := ref], s.mem.heap[ref := act]))
    case Unlock =>
      At(s, t, Idle).(writer := s.writer - {t}, readers := s.readers - {t}, log := s.log + [Returned(s, pc)])
  }

  /** The call a thread completes by giving the lock back. */
  function EventOf(s: State, t: Tid): Event
    requires Enabled(s, t, Unlock)
  {
    Returned(s, PcOf(s, t))
  }

  // ----- The invariant -----

  predicate HeapOk(m: Memory) {
    forall id :: id in m.actions ==> m.actions[id] in m.heap && m.heap[m.actions[id]].id == id
  }

  /** What is left of `b` when a walk over it still has to visit `todo`. */
  function Walked(b: Board, todo: set<string>, cutoff: int): Board {
    map id | id in b && (id in todo || !(b[id].createdAt < cutoff)) :: b[id]
  }

  predicate Holds(m: Memory, id: string, ref: Ref) { id in m.actions && m.actions[id] == ref && ref in m.heap }

  /** How shared memory relates to the board `b` of the history while `pc` holds the lock. */
  ghost predicate Midway(m: Memory, b: Board, pc: Pc)
    requires HeapOk(m)
  {
    var now := Contents(m);
    match pc
    case ConfirmIn(_) => now == b
    case ConfirmFound(id, ref) => now == b && Holds(m, id, ref)
    case ConfirmTested(id, ref) => now == b && Holds(m, id, ref) && b[id].status == Pending
    case ConfirmWritten(id, ref) =>
      Holds(m, id, ref) && id in b && b[id].status == Pending && now == b[id := b[id].(status := Confirmed)]
    case ConfirmRefused(id) => now == b && Can(b, ConfirmErr(id))
    case DiscardIn(_) => now == b
    case DiscardFound(id, ref) => now == b && Holds(m, id, ref)
    case DiscardMarked(id, ref) => Holds(m, id, ref) && id in b && now - {id} == b - {id}
    case DiscardDropped(id) => id in b && now == b - {id}
    case DiscardRefused(id) => now == b && id !in b
    case PruneIn(_) => now == b
    case PruneWalk(maxAge, clock, todo, count) =>
      todo <= now.Keys && now == Walked(b, todo, Cutoff(clock, maxAge)) && count == |b| - |now|
    case StageIn(_, _) => now == b
    case StageWalk(_, began, todo) =>
      |b| >= MAX_CAPACITY && todo <= now.Keys && now == Walked(b, todo, Cutoff(began, DEFAULT_TTL))
    case StageRoomed(_, began) => now == Roomed(b, began)
    case StageInserted(began, id, ref) =>
      Holds(m, id, ref) && m.heap[ref].status == Pending && now == Apply(b, Staged(m.heap[ref], began))
    case GetIn(_) => now == b
    case GetFound(id, ref) => now == b && Holds(m, id, ref)
    case GetMissed(id) => now == b && id !in b
    case ListWalk(todo, out) =>
      && now == b && todo <= b.Keys
      && (forall i :: 0 <= i < |out| ==> out[i].id in b && out[i].id !in todo && b[out[i].id] == out[i])
      && (forall i, j :: 0 <= i < j < |out| ==> out[i].id != out[j].id)
      && (forall id :: id in b && id !in todo ==> b[id] in out)
    case _ => true
  }

  /** The lock protocol: a writer alone, or any number of readers. */
  ghost predicate LockOk(s: State) {
    && (forall t :: t in s.writer <==> HoldsWrite(PcOf(s, t)))
    && (forall t :: t in s.readers <==> HoldsRead(PcOf(s, t)))
    && (s.writer != {} ==> s.readers == {})
    && (forall t, u :: t in s.writer && u in s.writer ==> t == u)
  }

  ghost predicate Inv(s: State) {
    && HeapOk(s.mem)
    && LockOk(s)
    && Legal(s.log)
    && (forall t :: t in s.threads ==> Midway(s.mem, After(s.log), s.threads[t]))
    && (s.writer == {} ==> Contents(s.mem) == After(s.log))
  }

  // ----- Every step keeps the invariant -----

  lemma MidwayOutside(m: Memory, b: Board, pc: Pc)
    requires HeapOk(m) && !HoldsWrite(pc) && !HoldsRead(pc)
    ensures Midway(m, b, pc)
  {
  }

  /** While a thread writes, no other thread is inside a method. */
  lemma WriterAlone(s: State, t: Tid, u: Tid)
    requires LockOk(s) && t in s.writer && u != t
    ensures !HoldsWrite(PcOf(s, u)) && !HoldsRead(PcOf(s, u))
  {
    hide HoldsWrite, HoldsRead;
  }

  /** Steps inside a method: the lock is kept, and only a writer changes shared memory. */
  lemma InsideKeeps(s: State, s': State, t: Tid, pc': Pc)
    requires Inv(s) && s'.threads == s.threads[t := pc'] && s'.log == s.log
    requires s'.writer == s.writer && s'.readers == s.readers
    requires HoldsWrite(pc') == HoldsWrite(PcOf(s, t)) && HoldsRead(pc') == HoldsRead(PcOf(s, t))
    requires t in s.writer || s'.mem == s.mem
    requires HeapOk(s'.mem) && Midway(s'.mem, After(s.log), pc')
    ensures Inv(s')
  {
    hide Midway, After, Legal, HoldsWrite, HoldsRead, Contents;
    assert forall u :: PcOf(s', u) == if u == t then pc' else PcOf(s, u);
    forall u | u in s'.threads ensures Midway(s'.mem, After(s.log), s'.threads[u]) {
      if u != t {
        if t in s.writer {
          WriterAlone(s, t, u);
          MidwayOutside(s'.mem, After(s.log), s.threads[u]);
        } else {
        }
      }
    }
  }

  /** Inside a lock the thread is in `threads`, so the invariant says how far it has come. */
  lemma MidwayHere(s: State, t: Tid)
    requires Inv(s) && (HoldsWrite(PcOf(s, t)) || HoldsRead(PcOf(s, t)))
    ensures HeapOk(s.mem) && Midway(s.mem, After(s.log), PcOf(s, t)) && (HoldsWrite(PcOf(s, t)) ==> t in s.writer)
  {
  }

  lemma CallKeeps(s: State, t: Tid, next: Pc)
    requires Inv(s) && Enabled(s, t, Call(next))
    ensures Inv(Take(s, t, Call(next)))
  {
    hide Contents, After, Legal;
    MidwayOutside(s.mem, After(s.log), next);
    InsideKeeps(s, At(s, t, next), t, next);
  }

  lemma TickKeeps(s: State, t: Tid, elapsed: nat)
    requires Inv(s)
    ensures Inv(Take(s, t, Tick(elapsed)))
  {
    hide After, Legal, Midway;
    var s' := Take(s, t, Tick(elapsed));
    forall u | u in s'.threads ensures Midway(s'.mem, After(s.log), s'.threads[u]) {
    }
    assert forall u :: PcOf(s', u) == PcOf(s, u);
  }

  lemma LockTaken(s: State, t: Tid, step: Step)
    requires LockOk(s) && Enabled(s, t, step) && (step == Lock || step == RLock)
    ensures LockOk(Take(s, t, step)) && Starts(PcOf(s, t))
  {
    hide HoldsWrite, HoldsRead, Entered;
    var s' := Take(s, t, step);
    var pc' := Entered(s, PcOf(s, t));
    assert forall u :: PcOf(s', u) == if u == t then pc' else PcOf(s, u);
    EnteredLock(s, PcOf(s, t));
  }

  lemma LockKeeps(s: State, t: Tid, step: Step)
    requires Inv(s) && Enabled(s, t, step) && (step == Lock || step == RLock)
    ensures Inv(Take(s, t, step))
  {
    hide After, Legal, Contents, HoldsWrite, HoldsRead, Midway, LockOk, Entered;
    LockTaken(s, t, step);
    EnteredMidway(s, PcOf(s, t));
    var s' := Take(s, t, step);
    forall u | u in s'.threads ensures Midway(s'.mem, After(s'.log), s'.threads[u]) {
    }
  }

  lemma EnteredMidway(s: State, pc: Pc)
    requires HeapOk(s.mem) && Starts(pc) && Contents(s.mem) == After(s.log)
    ensures Midway(s.mem, After(s.log), Entered(s, pc))
  {
    hide After;
  }

  lemma EnteredLock(s: State, pc: Pc)
    requires Starts(pc)
    ensures !HoldsWrite(pc) && !HoldsRead(pc)
    ensures HoldsRead(Entered(s, pc)) <==> pc.WantsGet? || pc.WantsList?
    ensures HoldsWrite(Entered(s, pc)) <==> !(pc.WantsGet? || pc.WantsList?)
  {
  }

  lemma ConfirmLookUpKeeps(s: State, t: Tid)
    requires Inv(s) && PcOf(s, t).ConfirmIn?
    ensures Inv(Take(s, t, LookUp))
  {
    hide Inv, After, Legal, Contents;
    MidwayHere(s, t);
    ContentsAt(s.mem);
    InsideKeeps(s, Take(s, t, LookUp), t, Take(s, t, LookUp).threads[t]);
  }

  lemma DiscardLookUpKeeps(s: State, t: Tid)
    requires Inv(s) && PcOf(s, t).DiscardIn?
    ensures Inv(Take(s, t, LookUp))
  {
    hide Inv, After, Legal, Contents;
    MidwayHere(s, t);
    ContentsAt(s.mem);
    InsideKeeps(s, Take(s, t, LookUp), t, Take(s, t, LookUp).threads[t]);
  }

  lemma GetLookUpKeeps(s: State, t: Tid)
    requires Inv(s) && PcOf(s, t).GetIn?
    ensures Inv(Take(s, t, LookUp))
  {
    hide Inv, After, Legal, Contents;
    MidwayHere(s, t);
    ContentsAt(s.mem);
    InsideKeeps(s, Take(s, t, LookUp), t, Take(s, t, LookUp).threads[t]);
  }

  lemma LookUpKeeps(s: State, t: Tid)
    requires Inv(s) && Enabled(s, t, LookUp)
    ensures Inv(Take(s, t, LookUp))
  {
    hide Inv, Take;
    var pc := PcOf(s, t);
    if pc.ConfirmIn? { ConfirmLookUpKeeps(s, t); }
    else if pc.DiscardIn? { DiscardLookUpKeeps(s, t); }
    else { GetLookUpKeeps(s, t); }
  }

  lemma TestKeeps(s: State, t: Tid)
    requires Inv(s) && Enabled(s, t, Test)
    ensures Inv(Take(s, t, Test))
  {
    hide Inv, After, Legal;
    var s' := Take(s, t, Test);
    MidwayHere(s, t);
    InsideKeeps(s, s', t, s'.threads[t]);
  }

  lemma ConfirmWriteKeeps(s: State, t: Tid, pc: Pc)
    requires Inv(s) && PcOf(s, t) == pc && pc.ConfirmTested? && pc.ref in s.mem.heap
    ensures Inv(At(s, t, ConfirmWritten(pc.id, pc.ref)).(mem := Marked(s.mem, pc.ref, Confirmed)))
  {
    hide Inv, After, Legal, Contents;
    MidwayHere(s, t);
    var m' := Marked(s.mem, pc.ref, Confirmed);
    OneWritten(s.mem, m', pc.id, pc.ref);
    ContentsAt(s.mem);
    var pc' := ConfirmWritten(pc.id, pc.ref);
    InsideKeeps(s, At(s, t, pc').(mem := m'), t, pc');
  }

  lemma DiscardWriteKeeps(s: State, t: Tid, pc: Pc)
    requires Inv(s) && PcOf(s, t) == pc && pc.DiscardFound? && pc.ref in s.mem.heap
    ensures Inv(At(s, t, DiscardMarked(pc.id, pc.ref)).(mem := Marked(s.mem, pc.ref, Discarded)))
  {
    hide Inv, After, Legal, Contents;
    MidwayHere(s, t);
    var m' := Marked(s.mem, pc.ref, Discarded);
    OneWritten(s.mem, m', pc.id, pc.ref);
    ContentsAt(s.mem);
    var pc' := DiscardMarked(pc.id, pc.ref);
    InsideKeeps(s, At(s, t, pc').(mem := m'), t, pc');
  }

  lemma WriteKeeps(s: State, t: Tid)
    requires Inv(s) && Enabled(s, t, WriteStatus)
    ensures Inv(Take(s, t, WriteStatus))
  {
    hide Inv, After, Legal, Contents, Midway;
    var pc := PcOf(s, t);
    if pc.ConfirmTested? { ConfirmWriteKeeps(s, t, pc); } else { DiscardWriteKeeps(s, t, pc); }
  }

  lemma ContentsAt(m: Memory)
    requires HeapOk(m)
    ensures Contents(m).Keys == m.actions.Keys
    ensures forall id :: id in m.actions ==> Contents(m)[id] == m.heap[m.actions[id]]
  {
  }

  /** Distinct keys point to distinct actions, so a write in place shows under one key only. */
  lemma OneWritten(m: Memory, m': Memory, id: string, ref: Ref)
    requires HeapOk(m) && Holds(m, id, ref) && m'.actions == m.actions && ref in m'.heap
    requires m'.heap == m.heap[ref := m'.heap[ref]] && m'.heap[ref].id == id
    ensures HeapOk(m') && Contents(m') == Contents(m)[id := m'.heap[ref]]
  {
    forall k | k in m.actions && k != id ensures m.actions[k] != ref {
      assert m.heap[m.actions[k]].id == k;
    }
  }

  lemma DropKeeps(s: State, t: Tid)
    requires Inv(s) && Enabled(s, t, DropKey)
    ensures Inv(Take(s, t, DropKey))
  {
    hide Inv, After, Legal, Contents;
    var s' := Take(s, t, DropKey);
    MidwayHere(s, t);
    ContentsDrop(s.mem, PcOf(s, t).id);
    InsideKeeps(s, s', t, s'.threads[t]);
  }

  lemma ReadClockKeeps(s: State, t: Tid)
    requires Inv(s) && Enabled(s, t, ReadClock)
    ensures Inv(Take(s, t, ReadClock))
  {
    hide Inv, After, Legal;
    var s' := Take(s, t, ReadClock);
    var b := After(s.log);
    MidwayHere(s, t);
    assert b.Keys == s.mem.actions.Keys && |b.Keys| == |s.mem.actions.Keys| && |b| == |s.mem.actions|;
    assert forall cutoff :: Walked(b, b.Keys, cutoff) == b;
    InsideKeeps(s, s', t, s'.threads[t]);
  }

  lemma OneKeyLess(b: Board, id: string)
    requires id in b
    ensures |b - {id}| == |b| - 1
  {
    assert b.Keys == (b - {id}).Keys + {id};
  }

  lemma ContentsDrop(m: Memory, id: string)
    requires HeapOk(m) && id in m.actions
    ensures var m' := m.(actions := m.actions - {id});
      HeapOk(m') && Contents(m') == Contents(m) - {id} && |Contents(m')| == |Contents(m)| - 1
  {
    var m' := m.(actions := m.actions - {id});
    ContentsAt(m);
    ContentsAt(m');
    hide Contents;
    assert Contents(m') == Contents(m) - {id};
    OneKeyLess(Contents(m), id);
  }

  lemma WalkedStep(b: Board, todo: set<string>, id: string, cutoff: int)
    requires id in todo && id in b
    ensures Walked(b, todo - {id}, cutoff)
         == if Expired(b[id], cutoff) then Walked(b, todo, cutoff) - {id} else Walked(b, todo, cutoff)
  {
  }

  /** One visit of a pruning walk deletes the visited key if it is expired, and no other. */
  lemma OneVisited(m: Memory, b: Board, todo: set<string>, id: string, cutoff: int)
    requires HeapOk(m) && id in todo && id in m.actions && todo <= Contents(m).Keys
    requires Contents(m) == Walked(b, todo, cutoff)
    ensures var m' := Swept(m, id, cutoff);
      && HeapOk(m') && Contents(m') == Walked(b, todo - {id}, cutoff) && todo - {id} <= Contents(m').Keys
      && |Contents(m')| == |Contents(m)| - Gone(m, id, cutoff)
  {
    assert Contents(m)[id] == b[id] == m.heap[m.actions[id]];
    hide Walked, Contents;
    ContentsDrop(m, id);
    WalkedStep(b, todo, id, cutoff);
  }

  lemma PruneVisitKeeps(s: State, t: Tid, id: string, pc: Pc)
    requires Inv(s) && PcOf(s, t) == pc && pc.PruneWalk? && id in pc.todo && id in s.mem.actions
    ensures var cutoff := Cutoff(pc.now, pc.maxAge);
      Inv(At(s, t, PruneWalk(pc.maxAge, pc.now, pc.todo - {id}, pc.count + Gone(s.mem, id, cutoff)))
            .(mem := Swept(s.mem, id, cutoff)))
  {
    hide Inv, After, Legal, Contents, Walked, Swept, Gone;
    MidwayHere(s, t);
    var cutoff := Cutoff(pc.now, pc.maxAge);
    OneVisited(s.mem, After(s.log), pc.todo, id, cutoff);
    var pc' := PruneWalk(pc.maxAge, pc.now, pc.todo - {id}, pc.count + Gone(s.mem, id, cutoff));
    InsideKeeps(s, At(s, t, pc').(mem := Swept(s.mem, id, cutoff)), t, pc');
  }

  lemma StageVisitKeeps(s: State, t: Tid, id: string, pc: Pc)
    requires Inv(s) && PcOf(s, t) == pc && pc.StageWalk? && id in pc.todo && id in s.mem.actions
    ensures Inv(At(s, t, StageWalk(pc.args, pc.began, pc.todo - {id})).(mem := Swept(s.mem, id,
        Cutoff(pc.began, DEFAULT_TTL))))
  {
    hide Inv, After, Legal, Contents, Walked, Swept, Gone;
    MidwayHere(s, t);
    var cutoff := Cutoff(pc.began, DEFAULT_TTL);
    OneVisited(s.mem, After(s.log), pc.todo, id, cutoff);
    var pc' := StageWalk(pc.args, pc.began, pc.todo - {id});
    InsideKeeps(s, At(s, t, pc').(mem := Swept(s.mem, id, cutoff)), t, pc');
  }

  lemma ListVisitKeeps(s: State, t: Tid, id: string, pc: Pc)
    requires Inv(s) && PcOf(s, t) == pc && pc.ListWalk? && id in pc.todo && id in s.mem.actions
    ensures Inv(At(s, t, ListWalk(pc.todo - {id}, pc.out + [s.mem.heap[s.mem.actions[id]]])))
  {
    hide Inv, After, Legal, Contents;
    MidwayHere(s, t);
    ContentsAt(s.mem);
    var pc' := ListWalk(pc.todo - {id}, pc.out + [s.mem.heap[s.mem.actions[id]]]);
    InsideKeeps(s, At(s, t, pc'), t, pc');
  }

  lemma VisitKeeps(s: State, t: Tid, id: string)
    requires Inv(s) && Enabled(s, t, Visit(id))
    ensures Inv(Take(s, t, Visit(id)))
  {
    hide Inv, After, Legal, Contents, Walked, Midway;
    var pc := PcOf(s, t);
    if pc.PruneWalk? { PruneVisitKeeps(s, t, id, pc); }
    else if pc.StageWalk? { StageVisitKeeps(s, t, id, pc); }
    else { ListVisitKeeps(s, t, id, pc); }
  }

  lemma ContentsInsert(m: Memory, id: string, ref: Ref, act: Action)
    requires HeapOk(m) && ref !in m.heap && act.id == id
    ensures var m' := Memory(m.actions[id := ref], m.heap[ref := act]);
      HeapOk(m') && Contents(m') == Contents(m)[id := act]
  {
  }

  lemma WalkDone(b: Board, cutoff: int)
    ensures Walked(b, {}, cutoff) == Pruned(b, cutoff)
  {
  }

  lemma InsertKeeps(s: State, t: Tid, id: string, ref: Ref)
    requires Inv(s) && Enabled(s, t, Insert(id, ref))
    ensures Inv(Take(s, t, Insert(id, ref)))
  {
    hide Inv, After, Legal, Contents, Walked, Pruned;
    var s' := Take(s, t, Insert(id, ref));
    var pc := PcOf(s, t);
    MidwayHere(s, t);
    WalkDone(After(s.log), Cutoff(pc.began, DEFAULT_TTL));
    ContentsInsert(s.mem, id, ref, s'.mem.heap[ref]);
    InsideKeeps(s, s', t, s'.threads[t]);
  }

  lemma ConfirmReturns(s: State, b: Board, pc: Pc)
    requires HeapOk(s.mem) && Midway(s.mem, b, pc) && (pc.ConfirmWritten? || pc.ConfirmRefused?)
    requires pc.ConfirmWritten? ==> pc.ref in s.mem.heap
    ensures Can(b, Returned(s, pc)) && Contents(s.mem) == Apply(b, Returned(s, pc))
  {
    hide Contents, Walked, Pruned;
    ContentsAt(s.mem);
  }

  lemma DiscardReturns(s: State, b: Board, pc: Pc)
    requires HeapOk(s.mem) && Midway(s.mem, b, pc) && (pc.DiscardDropped? || pc.DiscardRefused?)
    ensures Can(b, Returned(s, pc)) && Contents(s.mem) == Apply(b, Returned(s, pc))
  {
    hide Contents, Walked, Pruned;
  }

  lemma BoardReturns(s: State, b: Board, pc: Pc)
    requires HeapOk(s.mem) && Midway(s.mem, b, pc) && Finishing(pc) && (pc.PruneWalk? || pc.StageInserted?)
    requires pc.StageInserted? ==> pc.ref in s.mem.heap
    ensures Can(b, Returned(s, pc)) && Contents(s.mem) == Apply(b, Returned(s, pc))
  {
    hide Contents, Walked, Pruned;
    if pc.PruneWalk? { WalkDone(b, Cutoff(pc.now, pc.maxAge)); }
  }

  lemma GetReturns(s: State, b: Board, pc: Pc)
    requires HeapOk(s.mem) && Midway(s.mem, b, pc) && (pc.GetFound? || pc.GetMissed?)
    requires pc.GetFound? ==> pc.ref in s.mem.heap
    ensures Can(b, Returned(s, pc)) && Contents(s.mem) == b == Apply(b, Returned(s, pc))
  {
    hide Contents;
    ContentsAt(s.mem);
  }

  lemma ListReturns(s: State, b: Board, pc: Pc)
    requires HeapOk(s.mem) && Midway(s.mem, b, pc) && pc.ListWalk? && pc.todo == {}
    ensures Can(b, Returned(s, pc)) && Contents(s.mem) == b == Apply(b, Returned(s, pc))
  {
    hide Contents, Can;
    AllListed(b, pc.out);
  }

  lemma AllListed(b: Board, out: seq<Action>)
    requires forall i :: 0 <= i < |out| ==> out[i].id in b && b[out[i].id] == out[i]
    requires forall i, j :: 0 <= i < j < |out| ==> out[i].id != out[j].id
    requires forall id :: id in b ==> b[id] in out
    ensures Can(b, Listed(out))
  {
  }

  /** When a method is about to return, memory and its result are those of one atomic event. */
  lemma ReturnsAtomically(s: State, b: Board, pc: Pc)
    requires HeapOk(s.mem) && Midway(s.mem, b, pc) && Finishing(pc)
    requires (pc.ConfirmWritten? || pc.StageInserted? || pc.GetFound?) ==> pc.ref in s.mem.heap
    ensures Can(b, Returned(s, pc)) && Contents(s.mem) == Apply(b, Returned(s, pc))
    ensures HoldsRead(pc) ==> Apply(b, Returned(s, pc)) == b
  {
    hide Contents, Midway, Can, Apply, Returned;
    FinishingInside(pc);
    if pc.GetFound? || pc.GetMissed? { GetReturns(s, b, pc); }
    else if pc.ListWalk? { ListReturns(s, b, pc); }
    else if pc.PruneWalk? || pc.StageInserted? { BoardReturns(s, b, pc); }
    else if pc.ConfirmWritten? || pc.ConfirmRefused? { ConfirmReturns(s, b, pc); }
    else { DiscardReturns(s, b, pc); }
  }

  lemma UnlockFrees(s: State, t: Tid)
    requires LockOk(s) && Enabled(s, t, Unlock)
    ensures LockOk(Take(s, t, Unlock)) && (t in s.writer ==> Take(s, t, Unlock).writer == {})
  {
    hide HoldsWrite, HoldsRead, Returned;
    var s' := Take(s, t, Unlock);
    assert forall u :: PcOf(s', u) == if u == t then Idle else PcOf(s, u);
    IdleOutside();
  }

  lemma UnlockKeeps(s: State, t: Tid)
    requires Inv(s) && Enabled(s, t, Unlock)
    ensures Inv(Take(s, t, Unlock))
  {
    hide After, Legal, Contents, Can, Apply, Midway, HoldsWrite, HoldsRead, Returned, LockOk, Finishing;
    var pc := PcOf(s, t);
    var e := Returned(s, pc);
    var s' := Take(s, t, Unlock);
    FinishingInside(pc);
    MidwayHere(s, t);
    ReturnsAtomically(s, After(s.log), pc);
    LegalStep(s.log, e);
    UnlockFrees(s, t);
    forall u | u in s'.threads ensures Midway(s'.mem, After(s'.log), s'.threads[u]) {
      if u == t {
        IdleOutside();
        MidwayOutside(s'.mem, After(s'.log), Idle);
      } else if HoldsWrite(pc) {
        WriterAlone(s, t, u);
        MidwayOutside(s'.mem, After(s'.log), s.threads[u]);
      }
    }
  }

  lemma FinishingInside(pc: Pc)
    requires Finishing(pc)
    ensures HoldsWrite(pc) != HoldsRead(pc)
  {
  }

  lemma IdleOutside()
    ensures !HoldsWrite(Idle) && !HoldsRead(Idle)
  {
  }

  lemma StepKeeps(s: State, t: Tid, step: Step)
    requires Inv(s) && Enabled(s, t, step)
    ensures Inv(Take(s, t, step))
  {
    hide Inv, Enabled, Take;
    match step
    case Call(next) => CallKeeps(s, t, next);
    case Tick(elapsed) => TickKeeps(s, t, elapsed);
    case Lock => LockKeeps(s, t, step);
    case RLock => LockKeeps(s, t, step);
    case LookUp => LookUpKeeps(s, t);
    case Test => TestKeeps(s, t);
    case WriteStatus => WriteKeeps(s, t);
    case DropKey => DropKeeps(s, t);
    case ReadClock => ReadClockKeeps(s, t);
    case Visit(id) => VisitKeeps(s, t, id);
    case Insert(id, ref) => InsertKeeps(s, t, id, ref);
    case Unlock => UnlockKeeps(s, t);
  }

  // ----- Runs -----

  datatype Move = Move(t: Tid, step: Step)

  function Start(clock: int): State { State({}, {}, Memory(map[], map[]), map[], clock, []) }

  predicate Playable(s: State, moves: seq<Move>)
    decreases |moves|
  {
    moves == []
    || (Enabled(s, moves[0].t, moves[0].step) && Playable(Take(s, moves[0].t, moves[0].step), moves[1..]))
  }

  function Play(s: State, moves: seq<Move>): State
    requires Playable(s, moves)
    decreases |moves|
  {
    if moves == [] then s else Play(Take(s, moves[0].t, moves[0].step), moves[1..])
  }

  lemma {:induction false} PlayKeeps(s: State, moves: seq<Move>)
    requires Inv(s) && Playable(s, moves)
    ensures Inv(Play(s, moves))
    decreases |moves|
  {
    hide Inv, Enabled, Take;
    if moves != [] {
      StepKeeps(s, moves[0].t, moves[0].step);
      PlayKeeps(Take(s, moves[0].t, moves[0].step), moves[1..]);
    }
  }

  lemma StartIsFine(clock: int)
    ensures Inv(Start(clock))
  {
    assert Contents(Start(clock).mem) == map[];
  }

  /**
   Every interleaving of any number of threads is a run of the atomic Stager: the calls that have
   returned, in the order in which they gave the lock back, form a legal history, and whenever
   nobody writes, memory is the board that history leads to.
   */
  lemma EveryRunIsAtomic(clock: int, moves: seq<Move>)
    requires Playable(Start(clock), moves)
    ensures var s := Play(Start(clock), moves);
      Legal(s.log) && HeapOk(s.mem) && (s.writer == {} ==> Contents(s.mem) == After(s.log))
  {
    hide Playable, Play, After, Legal, Contents;
    StartIsFine(clock);
    PlayKeeps(Start(clock), moves);
  }

  /** However threads race, no ID is confirmed more often than it was staged. */
  lemma RacingConfirms(clock: int, moves: seq<Move>, id: string)
    requires Playable(Start(clock), moves)
    ensures var log := Play(Start(clock), moves).log; Confirms(log, id) <= Stages(log, id)
  {
    hide *;
    EveryRunIsAtomic(clock, moves);
    ConfirmsNeverExceedStages(Play(Start(clock), moves).log, id);
  }

  // ----- The objects callers keep pointers to -----

  /** The same action, with its status unchanged, confirmed from pending, or discarded. */
  predicate Forward(before: Action, after: Action) {
    && after.(status := before.status) == before
    && (after.status == before.status || before.status == Pending ||
        (before.status == Confirmed && after.status == Discarded))
  }

  /** Every object is still there and has only moved forward. */
  ghost predicate AllForward(m: Memory, m': Memory) {
    forall ref :: ref in m.heap ==> ref in m'.heap && Forward(m.heap[ref], m'.heap[ref])
  }

  lemma WriteMovesForward(s: State, t: Tid)
    requires Inv(s) && Enabled(s, t, WriteStatus)
    ensures AllForward(s.mem, Take(s, t, WriteStatus).mem)
  {
    hide Legal, After;
    MidwayHere(s, t);
    AlwaysWellKept(s.log);
    var pc, b := PcOf(s, t), After(s.log);
    assert Contents(s.mem) == b && Holds(s.mem, pc.id, pc.ref);
    assert s.mem.heap[pc.ref] == Contents(s.mem)[pc.id];
  }

  lemma OtherStepsKeepObjects(s: State, t: Tid, step: Step)
    requires Enabled(s, t, step) && !step.WriteStatus?
    ensures forall ref :: ref in s.mem.heap ==>
        ref in Take(s, t, step).mem.heap && Take(s, t, step).mem.heap[ref] == s.mem.heap[ref]
  {
    hide Cutoff, Entered, Returned, Gone, Expired;
  }

  lemma StepMovesForward(s: State, t: Tid, step: Step)
    requires Inv(s) && Enabled(s, t, step)
    ensures AllForward(s.mem, Take(s, t, step).mem)
  {
    if step.WriteStatus? {
      WriteMovesForward(s, t);
    } else {
      OtherStepsKeepObjects(s, t, step);
      hide Take, Enabled, Inv;
    }
  }

  lemma ForwardTwice(a: Memory, b: Memory, c: Memory)
    requires AllForward(a, b) && AllForward(b, c)
    ensures AllForward(a, c)
  {
    forall ref | ref in a.heap ensures ref in c.heap && Forward(a.heap[ref], c.heap[ref]) {
      assert Forward(a.heap[ref], b.heap[ref]) && Forward(b.heap[ref], c.heap[ref]);
    }
  }

  /**
   From any moment of any run on, an action somebody holds a pointer to is never unconfirmed, revived or
   rewritten.
   */
  lemma {:induction false} PointersMoveForward(s: State, moves: seq<Move>)
    requires Inv(s) && Playable(s, moves)
    ensures AllForward(s.mem, Play(s, moves).mem)
    decreases |moves|
  {
    hide Inv, Enabled, Take, AllForward;
    if moves == [] {
      StaysForward(s.mem);
    } else {
      var next := Take(s, moves[0].t, moves[0].step);
      StepKeeps(s, moves[0].t, moves[0].step);
      StepMovesForward(s, moves[0].t, moves[0].step);
      PointersMoveForward(next, moves[1..]);
      ForwardTwice(s.mem, next.mem, Play(s, moves).mem);
    }
  }

  lemma StaysForward(m: Memory)
    ensures AllForward(m, m)
  {
  }

  // ----- The lock never wedges -----

  /** A step of a method that is under way, as opposed to a new call or the clock. */
  predicate Progress(step: Step) { !step.Call? && !step.Tick? }

  lemma {:induction false} FreshRef(heap: map<Ref, Action>) returns (ref: Ref)
    ensures ref !in heap
  {
    ref := 0;
    var below: set<Ref> := {};
    while ref in heap
      invariant below <= heap.Keys && forall r :: r in below ==> r < ref
      decreases heap.Keys - below
    {
      below := below + {ref};
      ref := ref + 1;
    }
  }

  lemma MidwayRefs(m: Memory, b: Board, pc: Pc)
    requires HeapOk(m) && Midway(m, b, pc)
    ensures pc.ConfirmFound? || pc.ConfirmTested? || pc.ConfirmWritten? || pc.DiscardFound? || pc.StageInserted? ||
        pc.GetFound?
      ==> pc.ref in m.heap
  {
    hide Contents, Walked, Pruned, Apply, Can;
  }

  lemma MidwayTodo(m: Memory, b: Board, pc: Pc)
    requires HeapOk(m) && Midway(m, b, pc) && (pc.PruneWalk? || pc.StageWalk? || pc.ListWalk?)
    ensures pc.todo <= m.actions.Keys
  {
    hide Contents, Walked;
    ContentsAt(m);
  }

  /** A thread inside a method always has a next step. */
  lemma InsideMoves(s: State, t: Tid) returns (step: Step)
    requires Inv(s) && (HoldsWrite(PcOf(s, t)) || HoldsRead(PcOf(s, t)))
    ensures Progress(step) && Enabled(s, t, step)
  {
    hide Inv, After, Legal, Midway;
    MidwayHere(s, t);
    var pc := PcOf(s, t);
    MidwayRefs(s.mem, After(s.log), pc);
    if pc.ConfirmIn? || pc.DiscardIn? || pc.GetIn? { step := LookUp; }
    else if pc.ConfirmFound? { step := Test; }
    else if pc.ConfirmTested? || pc.DiscardFound? { step := WriteStatus; }
    else if pc.DiscardMarked? { step := DropKey; }
    else if pc.PruneIn? || pc.StageIn? { step := ReadClock; }
    else if (pc.PruneWalk? || pc.StageWalk? || pc.ListWalk?) && pc.todo != {} {
      var id :| id in pc.todo;
      MidwayTodo(s.mem, After(s.log), pc);
      step := Visit(id);
    } else if pc.StageWalk? || pc.StageRoomed? {
      var ref := FreshRef(s.mem.heap);
      step := Insert("", ref);
    } else { step := Unlock; }
  }

  /** As long as some thread is in or before a method, some thread can take its next step. */
  lemma NeverStuck(s: State, t: Tid) returns (u: Tid, step: Step)
    requires Inv(s) && PcOf(s, t) != Idle
    ensures Progress(step) && Enabled(s, u, step)
  {
    hide After, Legal, Contents, Midway;
    if s.writer != {} {
      u :| u in s.writer;
      step := InsideMoves(s, u);
    } else if s.readers != {} {
      u :| u in s.readers;
      step := InsideMoves(s, u);
    } else {
      u := t;
      var pc := PcOf(s, t);
      step := if pc.WantsGet? || pc.WantsList? then RLock else Lock;
    }
  }

  // ----- Time -----

  /** Every staging in the log was created by `now`. */
  ghost predicate AllBy(log: seq<Event>, now: int) {
    forall k :: 0 <= k < |log| && log[k].Staged? ==> log[k].act.createdAt <= now
  }

  /** A Stage under way read its clock after all stagings of the log. */
  ghost predicate TimelyAt(s: State, pc: Pc) {
    match pc
    case StageIn(_, began) => AllBy(s.log, began) && began <= s.clock
    case StageWalk(_, began, _) => AllBy(s.log, began) && began <= s.clock
    case StageRoomed(_, began) => AllBy(s.log, began) && began <= s.clock
    case StageInserted(began, _, ref) =>
      AllBy(s.log, began) && ref in s.mem.heap && began <= s.mem.heap[ref].createdAt <= s.clock
    case _ => true
  }

  ghost predicate Timely(s: State) {
    && Monotone(s.log) && AllBy(s.log, s.clock)
    && forall t :: t in s.threads ==> TimelyAt(s, s.threads[t])
  }

  lemma TimelyOutside(s: State, pc: Pc)
    requires !HoldsWrite(pc)
    ensures TimelyAt(s, pc)
  {
  }

  /** What the acting thread itself still knows about time after its step. */
  lemma TimelyActor(s: State, t: Tid, step: Step)
    requires Timely(s) && Enabled(s, t, step) && !step.Unlock? && !step.Tick?
    ensures TimelyAt(Take(s, t, step), PcOf(Take(s, t, step), t))
  {
    hide Monotone;
    AllBySelf(s.log, s.clock);
  }

  lemma AllBySelf(log: seq<Event>, now: int)
    ensures forall later :: AllBy(log, now) && now <= later ==> AllBy(log, later)
  {
  }

  /** Only the writer changes memory or the log; the log grows only on unlocking. */
  lemma TimelyOthers(s: State, t: Tid, step: Step, u: Tid)
    requires Inv(s) && Timely(s) && Enabled(s, t, step) && u != t && u in s.threads
    ensures TimelyAt(Take(s, t, step), s.threads[u])
  {
    hide Monotone, After, Legal, Contents, Midway;
    if !HoldsWrite(PcOf(s, u)) {
      TimelyOutside(Take(s, t, step), s.threads[u]);
    } else {
      assert u in s.writer;
      WriterAlone(s, u, t);
      OutsideSteps(s, t, step);
    }
  }

  /** A thread outside every method can only call, wait for the clock or try the lock. */
  lemma OutsideSteps(s: State, t: Tid, step: Step)
    requires Enabled(s, t, step) && !HoldsWrite(PcOf(s, t)) && !HoldsRead(PcOf(s, t))
    ensures var s' := Take(s, t, step); s'.mem == s.mem && s'.log == s.log && s'.clock >= s.clock
  {
  }

  lemma MonotoneStep(log: seq<Event>, e: Event)
    requires Monotone(log) && (e.Staged? ==> AllBy(log, e.began) && e.began <= e.act.createdAt)
    ensures Monotone(log + [e])
  {
    var more := log + [e];
    assert forall k :: 0 <= k < |log| ==> more[k] == log[k];
  }

  lemma AllByStep(log: seq<Event>, e: Event, now: int)
    requires AllBy(log, now) && (e.Staged? ==> e.act.createdAt <= now)
    ensures AllBy(log + [e], now)
  {
  }

  lemma StepKeepsTimely(s: State, t: Tid, step: Step)
    requires Inv(s) && Timely(s) && Enabled(s, t, step)
    ensures Timely(Take(s, t, step))
  {
    hide Inv, Monotone, AllBy, TimelyAt;
    var s' := Take(s, t, step);
    AllBySelf(s.log, s.clock);
    forall u | u in s'.threads ensures TimelyAt(s', s'.threads[u]) {
      if u != t { TimelyOthers(s, t, step, u); } else { TimelyActorAny(s, t, step); }
    }
    if step.Unlock? { UnlockTimely(s, t); }
  }

  lemma TimelyActorAny(s: State, t: Tid, step: Step)
    requires Timely(s) && Enabled(s, t, step) && t in Take(s, t, step).threads
    ensures TimelyAt(Take(s, t, step), Take(s, t, step).threads[t])
  {
    hide Monotone;
    if !step.Unlock? && !step.Tick? { hide AllBy, TimelyAt; TimelyActor(s, t, step); }
  }

  lemma UnlockTimely(s: State, t: Tid)
    requires Timely(s) && Enabled(s, t, Unlock)
    ensures var s' := Take(s, t, Unlock); Monotone(s'.log) && AllBy(s'.log, s'.clock)
  {
    var e := Returned(s, PcOf(s, t));
    hide Monotone, AllBy;
    MonotoneStep(s.log, e);
    AllByStep(s.log, e, s.clock);
  }

  lemma {:induction false} PlayKeepsTimely(s: State, moves: seq<Move>)
    requires Inv(s) && Timely(s) && Playable(s, moves)
    ensures Timely(Play(s, moves))
    decreases |moves|
  {
    hide Inv, Timely, Enabled, Take;
    if moves != [] {
      StepKeeps(s, moves[0].t, moves[0].step);
      StepKeepsTimely(s, moves[0].t, moves[0].step);
      PlayKeepsTimely(Take(s, moves[0].t, moves[0].step), moves[1..]);
    }
  }

  /** In every run, at most `rate` Stage calls per TTL keep the board within its capacity or `rate`. */
  lemma EveryRunIsBounded(clock: int, moves: seq<Move>, rate: nat)
    requires Playable(Start(clock), moves)
    requires forall from :: |StagesDuring(Play(Start(clock), moves).log, from)| <= rate
    ensures var s := Play(Start(clock), moves);
      Bounded(s.log) && |After(s.log)| <= if rate <= MAX_CAPACITY then MAX_CAPACITY else rate
  {
    hide Playable, Play, After, Legal, Inv, Monotone, Bounded;
    StartIsFine(clock);
    assert Timely(Start(clock)) by { NothingIsMonotone(); }
    PlayKeepsTimely(Start(clock), moves);
    EveryRunIsAtomic(clock, moves);
    var log := Play(Start(clock), moves).log;
    RateBoundsBoard(log, rate);
    MonotoneIsForward(log);
    AlwaysBounded(log);
  }

  /** Thread `t` has put its action into the map and not yet given the lock back. */
  predicate Inserting(s: State, t: Tid) {
    t in s.threads && s.threads[t].StageInserted? && s.threads[t].ref in s.mem.heap
  }

  function InsertedBy(s: State, t: Tid): Event
    requires Inserting(s, t)
  {
    Staged(s.mem.heap[s.threads[t].ref], s.threads[t].began)
  }

  /** The calls that have returned, and the staging under way if its action is in the map already. */
  ghost function Counted(s: State): seq<Event> {
    if exists t :: Inserting(s, t) then
      var t :| Inserting(s, t);
      s.log + [InsertedBy(s, t)]
    else s.log
  }

  lemma ShrunkBoards(b: Board, todo: set<string>, cutoff: int, began: int)
    ensures Walked(b, todo, cutoff).Keys <= b.Keys && Roomed(b, began).Keys <= b.Keys
  {
  }

  lemma SameWithout(a: Board, b: Board, id: string)
    requires id in b && a - {id} == b - {id}
    ensures a.Keys <= b.Keys
  {
    assert forall k :: k in a && k != id ==> k in a - {id};
  }

  /** Before its insertion a writer only takes keys away. */
  lemma WriterShrinks(m: Memory, b: Board, pc: Pc)
    requires HeapOk(m) && Midway(m, b, pc) && HoldsWrite(pc) && !pc.StageInserted?
    ensures Contents(m).Keys <= b.Keys
  {
    hide Contents, Can, Walked, Roomed, Cutoff;
    if pc.DiscardMarked? {
      SameWithout(Contents(m), b, pc.id);
    } else if pc.PruneWalk? {
      ShrunkBoards(b, pc.todo, Cutoff(pc.now, pc.maxAge), 0);
    } else if pc.StageWalk? {
      ShrunkBoards(b, pc.todo, Cutoff(pc.began, DEFAULT_TTL), 0);
    } else if pc.StageRoomed? {
      ShrunkBoards(b, {}, 0, pc.began);
    }
  }

  lemma ContentsSize(m: Memory)
    requires HeapOk(m)
    ensures |Contents(m)| == |m.actions|
  {
    ContentsAt(m);
    hide Contents;
    assert |Contents(m).Keys| == |m.actions.Keys|;
  }

  lemma InsertedIsCounted(s: State, t: Tid)
    requires Inv(s) && Timely(s) && Inserting(s, t)
    ensures var e := InsertedBy(s, t);
      Legal(s.log + [e]) && Monotone(s.log + [e]) && After(s.log + [e]) == Contents(s.mem)
  {
    hide Legal, After, Contents, Monotone, AllBy;
    var e := InsertedBy(s, t);
    MidwayHere(s, t);
    assert TimelyAt(s, s.threads[t]);
    LegalStep(s.log, e);
    MonotoneStep(s.log, e);
  }

  lemma WithoutInsertion(s: State)
    requires Inv(s) && forall t :: !Inserting(s, t)
    ensures |Contents(s.mem)| <= |After(s.log)|
  {
    hide Legal, After, Contents, Midway;
    if s.writer != {} {
      var t :| t in s.writer;
      MidwayHere(s, t);
      MidwayRefs(s.mem, After(s.log), PcOf(s, t));
      assert !Inserting(s, t);
      WriterShrinks(s.mem, After(s.log), PcOf(s, t));
      SubsetSize(Contents(s.mem).Keys, After(s.log).Keys);
    }
  }

  /**
   Memory itself, at every single step of every run, stays within the capacity or the rate, insertions under
   way included.
   */
  lemma MemoryIsBounded(clock: int, moves: seq<Move>, rate: nat)
    requires Playable(Start(clock), moves)
    requires forall from :: |StagesDuring(Counted(Play(Start(clock), moves)), from)| <= rate
    ensures |Play(Start(clock), moves).mem.actions| <= if rate <= MAX_CAPACITY then MAX_CAPACITY else rate
  {
    hide Playable, Play, After, Legal, Inv, Monotone, Contents, Inserting, InsertedBy, StagesDuring;
    StartIsFine(clock);
    assert Timely(Start(clock)) by { NothingIsMonotone(); }
    PlayKeepsTimely(Start(clock), moves);
    PlayKeeps(Start(clock), moves);
    var s := Play(Start(clock), moves);
    InvParts(s);
    ContentsSize(s.mem);
    if exists t :: Inserting(s, t) {
      var t :| Inserting(s, t) && Counted(s) == s.log + [InsertedBy(s, t)];
      InsertedIsCounted(s, t);
    } else {
      WithoutInsertion(s);
    }
    RateBoundsBoard(Counted(s), rate);
  }

  lemma InvParts(s: State)
    requires Inv(s)
    ensures HeapOk(s.mem) && Legal(s.log)
  {
    hide Legal, After, Midway, Contents;
  }

  lemma NothingIsMonotone()
    ensures Monotone([])
  {
  }

  lemma MonotoneIsForward(log: seq<Event>)
    requires Monotone(log)
    ensures StagesForward(log)
  {
  }
}
