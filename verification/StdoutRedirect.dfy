/**
 The stdout redirect: stray writers, a bounded pipe, the goroutine that drains it into a sink, and any
 number of calls of Close, interleaved step by step.
 */
module StdoutRedirect {
  import opened Options

  /** A byte, and whether the transport or anybody else wrote it. */
  datatype Octet = Frame(value: nat) | Stray(value: nat)

  datatype File = Genuine | WriteEnd

  /** The drain copies until the write end is closed or the sink fails, closes the read end and signals. */
  datatype Drain =
    | Reading
    | Writing(chunk: seq<Octet>)
    | Stopped(rest: seq<Octet>)
    | Shut(rest: seq<Octet>)
    | Finished(rest: seq<Octet>)

  datatype Closing = Called | Restored | Waiting | Returned(ok: bool)

  /** `held` are the files goroutines took from os.Stdout, `genuine` and `sink` what has reached the two outputs. */
  datatype State = State(
    stdout: File, held: set<File>, genuine: seq<Octet>,
    pipe: seq<Octet>, writeOpen: bool, drain: Drain, sink: seq<Octet>, sinkFailed: bool,
    closers: map<nat, Closing>)

  datatype Event =
    | Transport(frames: seq<Octet>)
    | Load
    | Write(file: File, bytes: seq<Octet>)
    | Read(n: nat)
    | Copy(n: nat, ok: bool)
    | Eof
    | ShutRead
    | Signal
    | Call(c: nat)
    | Restore(c: nat)
    | CloseEnd(c: nat)
    | Return(c: nat)

  /** The redirect as installed, when `held` was taken from os.Stdout before. */
  function Installed(held: set<File>): State {
    State(WriteEnd, held, [], [], true, Reading, [], false, map[])
  }

  predicate ReadOpen(d: Drain) { d.Reading? || d.Writing? || d.Stopped? }

  predicate InPhase(s: State, c: nat, phase: Closing) { c in s.closers && s.closers[c] == phase }

  /** A pipe write waits for room; it fails once either end is closed. */
  predicate Can(cap: nat, s: State, e: Event) {
    match e
    case Transport(frames) => forall i :: 0 <= i < |frames| ==> frames[i].Frame?
    case Load => true
    case Write(file, bytes) =>
      && file in s.held && bytes != [] && (forall i :: 0 <= i < |bytes| ==> bytes[i].Stray?)
      && (file == WriteEnd && s.writeOpen && ReadOpen(s.drain) ==> |s.pipe| + |bytes| <= cap)
    case Read(n) => s.drain == Reading && 1 <= n <= |s.pipe|
    case Copy(n, ok) => s.drain.Writing? && n <= |s.drain.chunk| && (ok ==> n == |s.drain.chunk|)
    case Eof => s.drain == Reading && s.pipe == [] && !s.writeOpen
    case ShutRead => s.drain.Stopped?
    case Signal => s.drain.Shut?
    case Call(c) => c !in s.closers
    case Restore(c) => InPhase(s, c, Called)
    case CloseEnd(c) => InPhase(s, c, Restored)
    case Return(c) => InPhase(s, c, Waiting) && s.drain.Finished?
  }

  function Next(cap: nat, s: State, e: Event): State
    requires Can(cap, s, e)
  {
    match e
    case Transport(frames) => s.(genuine := s.genuine + frames)
    case Load => s.(held := s.held + {s.stdout})
    case Write(file, bytes) =>
      if file == Genuine then s.(genuine := s.genuine + bytes)
      else if s.writeOpen && ReadOpen(s.drain) then s.(pipe := s.pipe + bytes)
      else s
    case Read(n) => s.(drain := Writing(s.pipe[..n]), pipe := s.pipe[n..])
    case Copy(n, ok) =>
      var t := s.(sink := s.sink + s.drain.chunk[..n]);
      if ok then t.(drain := Reading) else t.(drain := Stopped(s.drain.chunk[n..]), sinkFailed := true)
    case Eof => s.(drain := Stopped([]))
    case ShutRead => s.(drain := Shut(s.drain.rest))
    case Signal => s.(drain := Finished(s.drain.rest))
    case Call(c) => s.(closers := s.closers[c := Called])
    case Restore(c) => s.(stdout := Genuine, closers := s.closers[c := Restored])
    case CloseEnd(c) =>
      if s.writeOpen then s.(writeOpen := false, closers := s.closers[c := Waiting])
      else s.(closers := s.closers[c := Returned(false)])
    case Return(c) => s.(closers := s.closers[c := Returned(true)])
  }

  ghost predicate Legal(cap: nat, s: State, run: seq<Event>)
    decreases |run|, 0
  {
    run == [] || (Legal(cap, s, run[..|run| - 1]) && Can(cap, After(cap, s, run[..|run| - 1]), run[|run| - 1]))
  }

  ghost function After(cap: nat, s: State, run: seq<Event>): State
    requires Legal(cap, s, run)
    decreases |run|, 1
  {
    if run == [] then s else Next(cap, After(cap, s, run[..|run| - 1]), run[|run| - 1])
  }

  // ----- What the events of a run say by themselves -----

  /** Neither end of the pipe has been closed. */
  predicate PipeOpen(run: seq<Event>) {
    forall j :: 0 <= j < |run| ==> !run[j].CloseEnd? && !run[j].ShutRead?
  }

  /** What writers have put into the pipe. */
  function Accepted(run: seq<Event>): seq<Octet> {
    if run == [] then []
    else
      var m := |run| - 1;
      Accepted(run[..m]) +
      if run[m].Write? && run[m].file == WriteEnd && PipeOpen(run[..m]) then run[m].bytes else []
  }

  /** What writers were told could not be written. */
  function Refused(run: seq<Event>): seq<Octet> {
    if run == [] then []
    else
      var m := |run| - 1;
      Refused(run[..m]) +
      if run[m].Write? && run[m].file == WriteEnd && !PipeOpen(run[..m]) then run[m].bytes else []
  }

  /** What the transport and whoever holds the genuine stdout have written there. */
  function OnGenuine(run: seq<Event>): seq<Octet> {
    if run == [] then []
    else
      var m := |run| - 1;
      OnGenuine(run[..m]) +
      match run[m]
      case Transport(frames) => frames
      case Write(file, bytes) => if file == Genuine then bytes else []
      case _ => []
  }

  /** No write to the sink has failed. */
  predicate SinkWorks(run: seq<Event>) { forall j :: 0 <= j < |run| && run[j].Copy? ==> run[j].ok }

  predicate NoCloseEnd(run: seq<Event>) { forall j :: 0 <= j < |run| ==> !run[j].CloseEnd? }

  predicate NoRestore(run: seq<Event>) { forall j :: 0 <= j < |run| ==> !run[j].Restore? }

  /** What os.Stdout was taken from it: the pipe before the first Close restored it, the genuine stdout after. */
  predicate Taken(run: seq<Event>, file: File) {
    exists j :: 0 <= j < |run| && run[j] == Load && file == if NoRestore(run[..j]) then WriteEnd else Genuine
  }

  /** The state is the one the events say. */
  ghost predicate Agrees(held: set<File>, run: seq<Event>, s: State) {
    && (s.writeOpen && ReadOpen(s.drain) <==> PipeOpen(run))
    && (s.writeOpen <==> NoCloseEnd(run))
    && (s.sinkFailed <==> !SinkWorks(run))
    && (s.stdout == WriteEnd <==> NoRestore(run))
    && s.genuine == OnGenuine(run)
    && (forall c :: InPhase(s, c, Returned(true)) <==> Return(c) in run)
    && (forall file :: file in s.held <==> file in held || Taken(run, file))
  }

  lemma OneMore(run: seq<Event>)
    requires run != []
    ensures var m := |run| - 1; var e := run[m];
      && (PipeOpen(run) <==> PipeOpen(run[..m]) && !e.CloseEnd? && !e.ShutRead?)
      && (NoCloseEnd(run) <==> NoCloseEnd(run[..m]) && !e.CloseEnd?)
      && (SinkWorks(run) <==> SinkWorks(run[..m]) && (e.Copy? ==> e.ok))
      && (NoRestore(run) <==> NoRestore(run[..m]) && !e.Restore?)
      && (forall c :: Return(c) in run <==> Return(c) in run[..m] || e == Return(c))
  {
    var m := |run| - 1;
    assert run == run[..m] + [run[m]];
  }

  lemma OneMoreTaken(run: seq<Event>, file: File)
    requires run != []
    ensures var m := |run| - 1;
      Taken(run, file) <==>
        Taken(run[..m], file) || (run[m] == Load && file == if NoRestore(run[..m]) then WriteEnd else Genuine)
  {
    hide NoRestore;
    var m := |run| - 1;
    forall j | 0 <= j < m ensures run[..m][..j] == run[..j] && run[..m][j] == run[j] {
    }
  }

  /** What one event does to the ends of the pipe, to the two outputs, to the callers of Close and to who holds what. */
  lemma OneEvent(cap: nat, s: State, e: Event)
    requires Can(cap, s, e)
    ensures var s' := Next(cap, s, e);
      && (s'.writeOpen <==> s.writeOpen && !e.CloseEnd?)
      && (ReadOpen(s'.drain) <==> ReadOpen(s.drain) && !e.ShutRead?)
      && (s'.sinkFailed <==> s.sinkFailed || (e.Copy? && !e.ok))
      && s'.stdout == (if e.Restore? then Genuine else s.stdout)
      && s'.genuine == s.genuine + (
           match e
           case Transport(frames) => frames
           case Write(file, bytes) => if file == Genuine then bytes else []
           case _ => [])
      && s'.held == s.held + if e.Load? then {s.stdout} else {}
  {
    assert s.genuine + [] == s.genuine;
  }

  lemma OneReturn(cap: nat, s: State, e: Event, c: nat)
    requires Can(cap, s, e)
    ensures InPhase(Next(cap, s, e), c, Returned(true)) <==> InPhase(s, c, Returned(true)) || e == Return(c)
  {
  }

  lemma AgreesStep(cap: nat, held: set<File>, run: seq<Event>, s: State)
    requires run != [] && Agrees(held, run[..|run| - 1], s) && Can(cap, s, run[|run| - 1])
    ensures Agrees(held, run, Next(cap, s, run[|run| - 1]))
  {
    hide PipeOpen, NoCloseEnd, SinkWorks, NoRestore, Taken, Can, Next, InPhase, ReadOpen;
    OneMore(run);
    OneEvent(cap, s, run[|run| - 1]);
    forall c: nat { OneReturn(cap, s, run[|run| - 1], c); }
    forall file { OneMoreTaken(run, file); }
  }

  lemma {:induction false} RunAgrees(cap: nat, held: set<File>, run: seq<Event>)
    requires Legal(cap, Installed(held), run)
    ensures Agrees(held, run, After(cap, Installed(held), run))
    decreases |run|
  {
    if run != [] {
      hide Can, Next, Agrees;
      RunAgrees(cap, held, run[..|run| - 1]);
      AgreesStep(cap, held, run, After(cap, Installed(held), run[..|run| - 1]));
    }
  }

  // ----- What every step keeps -----

  function InFlight(d: Drain): seq<Octet> {
    match d
    case Reading => []
    case Writing(chunk) => chunk
    case Stopped(rest) => rest
    case Shut(rest) => rest
    case Finished(rest) => rest
  }

  /** The bytes `put` into the pipe are in the sink, in the drain's hands or in the pipe, in that order. */
  ghost predicate Conserved(cap: nat, s: State, put: seq<Octet>) {
    && put == s.sink + InFlight(s.drain) + s.pipe
    && |s.pipe| <= cap
  }

  /** Without a sink failure the drain stops only at the end. */
  ghost predicate Drains(s: State) {
    !s.sinkFailed && (s.drain.Stopped? || s.drain.Shut? || s.drain.Finished?) ==>
      s.pipe == [] && InFlight(s.drain) == [] && !s.writeOpen
  }

  predicate Winner(s: State, c: nat) { c in s.closers && (s.closers[c] == Waiting || s.closers[c] == Returned(true)) }

  /** The one Close that closed the write end waits for the drain; all others fail. */
  ghost predicate OneWinner(s: State) {
    && (forall c :: Winner(s, c) ==> !s.writeOpen)
    && (forall c, d :: Winner(s, c) && Winner(s, d) ==> c == d)
    && (!s.writeOpen ==> exists c :: Winner(s, c))
    && (forall c :: InPhase(s, c, Returned(true)) ==> s.drain.Finished?)
  }

  /** os.Stdout is the pipe until the first Close restores it. */
  ghost predicate RestoredByClose(s: State) {
    s.stdout == Genuine <==> exists c :: c in s.closers && s.closers[c] != Called
  }

  ghost predicate Pure(s: State) {
    s.stdout == WriteEnd ==> Genuine !in s.held && forall i :: 0 <= i < |s.genuine| ==> s.genuine[i].Frame?
  }

  lemma Cut(a: seq<Octet>, b: seq<Octet>, n: nat)
    requires n <= |b|
    ensures a + b[..n] + b[n..] == a + b
  {
  }

  lemma Regroup(a: seq<Octet>, b: seq<Octet>, c: seq<Octet>)
    ensures a + b + c == a + (b + c)
  {
  }

  lemma ConservedStep(cap: nat, s: State, e: Event, put: seq<Octet>)
    requires Can(cap, s, e) && Conserved(cap, s, put)
    ensures Conserved(cap, Next(cap, s, e),
        put + if e.Write? && e.file == WriteEnd && s.writeOpen && ReadOpen(s.drain) then e.bytes else [])
  {
    assert put + [] == put;
    if e.Read? {
      Cut(s.sink, s.pipe, e.n);
    } else if e.Copy? {
      Cut(s.sink, s.drain.chunk, e.n);
    } else if e.Write? {
      Regroup(s.sink + InFlight(s.drain), s.pipe, e.bytes);
    }
  }

  lemma DrainsStep(cap: nat, s: State, e: Event)
    requires Can(cap, s, e) && Drains(s)
    ensures Drains(Next(cap, s, e))
  {
  }

  lemma OneWinnerStep(cap: nat, s: State, e: Event)
    requires Can(cap, s, e) && OneWinner(s)
    ensures OneWinner(Next(cap, s, e))
  {
    var s' := Next(cap, s, e);
    forall c | Winner(s', c) ensures Winner(s, c) || (e == CloseEnd(c) && s.writeOpen) {
    }
    if e.CloseEnd? && s.writeOpen { assert Winner(s', e.c); }
    if !s.writeOpen {
      var c :| Winner(s, c);
      assert Winner(s', c);
    }
    forall c | InPhase(s', c, Returned(true)) && !InPhase(s, c, Returned(true)) ensures s.drain.Finished? {
    }
  }

  lemma RestoredStep(cap: nat, s: State, e: Event)
    requires Can(cap, s, e) && RestoredByClose(s)
    ensures RestoredByClose(Next(cap, s, e))
  {
    var s' := Next(cap, s, e);
    if s.stdout == Genuine {
      var c :| c in s.closers && s.closers[c] != Called;
      assert c in s'.closers && s'.closers[c] != Called;
    }
    if e.Restore? { assert s'.closers[e.c] != Called; }
  }

  lemma PureStep(cap: nat, s: State, e: Event)
    requires Can(cap, s, e) && Pure(s)
    ensures Pure(Next(cap, s, e))
  {
  }

  lemma {:induction false} Always(cap: nat, held: set<File>, run: seq<Event>)
    requires Legal(cap, Installed(held), run)
    ensures var s := After(cap, Installed(held), run);
      Conserved(cap, s, Accepted(run)) && Drains(s) && OneWinner(s) && RestoredByClose(s)
      && (Genuine !in held ==> Pure(s))
    decreases |run|
  {
    hide Can, Next, Conserved, Drains, OneWinner, RestoredByClose, Pure, Agrees, PipeOpen;
    if run == [] {
      AtInstall(cap, held);
    } else {
      var m := |run| - 1;
      Always(cap, held, run[..m]);
      var s := After(cap, Installed(held), run[..m]);
      OpenAsSaid(cap, held, run[..m]);
      ConservedStep(cap, s, run[m], Accepted(run[..m]));
      DrainsStep(cap, s, run[m]);
      OneWinnerStep(cap, s, run[m]);
      RestoredStep(cap, s, run[m]);
      if Genuine !in held { PureStep(cap, s, run[m]); }
    }
  }

  lemma OpenAsSaid(cap: nat, held: set<File>, run: seq<Event>)
    requires Legal(cap, Installed(held), run)
    ensures var s := After(cap, Installed(held), run); s.writeOpen && ReadOpen(s.drain) <==> PipeOpen(run)
  {
    hide Can, Next, PipeOpen;
    RunAgrees(cap, held, run);
  }

  lemma AtInstall(cap: nat, held: set<File>)
    ensures var s := Installed(held);
      Conserved(cap, s, []) && Drains(s) && OneWinner(s) && RestoredByClose(s) && (Genuine !in held ==> Pure(s))
  {
  }

  // ----- What the redirect is for -----

  /** At every moment the sink holds, in order, the first of the bytes put into the pipe, and the rest is on its way. */
  lemma NothingIsLostOrReordered(cap: nat, held: set<File>, run: seq<Event>)
    requires Legal(cap, Installed(held), run)
    ensures var s := After(cap, Installed(held), run);
      Accepted(run) == s.sink + InFlight(s.drain) + s.pipe && |s.pipe| <= cap && s.genuine == OnGenuine(run)
  {
    Always(cap, held, run);
    RunAgrees(cap, held, run);
  }

  /** When Close has returned nil and no write to the sink failed, the sink holds every stray byte in order. */
  lemma CloseDelivers(cap: nat, held: set<File>, run: seq<Event>, c: nat)
    requires Legal(cap, Installed(held), run) && Return(c) in run
    ensures var s := After(cap, Installed(held), run);
      s.stdout == Genuine && !PipeOpen(run) && s.drain.Finished? && (SinkWorks(run) ==> s.sink == Accepted(run))
  {
    hide Legal, After, PipeOpen, NoCloseEnd, SinkWorks, NoRestore, Taken;
    Always(cap, held, run);
    RunAgrees(cap, held, run);
    var s := After(cap, Installed(held), run);
    assert InPhase(s, c, Returned(true)) && Winner(s, c);
    assert SinkWorks(run) ==> s.sink + [] + [] == s.sink;
  }

  /** Of any number of Close calls at most one returns nil. */
  lemma OneCloseSucceeds(cap: nat, held: set<File>, run: seq<Event>, c: nat, d: nat)
    requires Legal(cap, Installed(held), run)
    requires var s := After(cap, Installed(held), run); InPhase(s, c, Returned(true)) && InPhase(s, d, Returned(true))
    ensures c == d
  {
    Always(cap, held, run);
    var s := After(cap, Installed(held), run);
    assert Winner(s, c) && Winner(s, d);
  }

  lemma {:induction false} NothingRefused(run: seq<Event>)
    requires PipeOpen(run)
    ensures Refused(run) == []
    decreases |run|
  {
    hide PipeOpen;
    if run != [] {
      OneMore(run);
      NothingRefused(run[..|run| - 1]);
    }
  }

  /** No stray write is turned away before Close, unless the sink has failed. */
  lemma AcceptsUntilClosed(cap: nat, held: set<File>, run: seq<Event>)
    requires Legal(cap, Installed(held), run) && NoCloseEnd(run) && SinkWorks(run)
    ensures Refused(run) == [] && PipeOpen(run)
  {
    hide Legal, After, PipeOpen, NoCloseEnd, SinkWorks, NoRestore, Taken;
    Always(cap, held, run);
    RunAgrees(cap, held, run);
    NothingRefused(run);
  }

  /**
   Anybody who holds a file of the process can write any stray bytes to it at any time, to the open pipe as soon
   as they fit; and a file is held iff it was held before or taken from os.Stdout, which is the pipe until the
   first Close restores the genuine stdout.
   */
  lemma WhoCanWrite(cap: nat, held: set<File>, run: seq<Event>, file: File, bytes: seq<Octet>)
    requires Legal(cap, Installed(held), run) && bytes != [] && forall i :: 0 <= i < |bytes| ==> bytes[i].Stray?
    ensures Can(cap, After(cap, Installed(held), run), Load)
    ensures Can(cap, After(cap, Installed(held), run), Write(file, bytes)) <==>
      && (file in held || Taken(run, file))
      && (file == WriteEnd && PipeOpen(run) ==> |After(cap, Installed(held), run).pipe| + |bytes| <= cap)
  {
    hide Legal, After, PipeOpen, NoCloseEnd, SinkWorks, NoRestore, Taken;
    RunAgrees(cap, held, run);
  }

  // ----- The callers of Close -----

  /** This call of Close was the first to reach the write end. */
  predicate ClosedFirst(run: seq<Event>, c: nat) {
    exists j :: 0 <= j < |run| && run[j] == CloseEnd(c) && NoCloseEnd(run[..j])
  }

  /** How far a call of Close has come is what the events say. */
  ghost predicate PhaseAgrees(run: seq<Event>, s: State, c: nat) {
    && (c in s.closers <==> Call(c) in run)
    && (InPhase(s, c, Called) <==> Call(c) in run && Restore(c) !in run)
    && (InPhase(s, c, Restored) <==> Restore(c) in run && CloseEnd(c) !in run)
    && (InPhase(s, c, Waiting) <==> ClosedFirst(run, c) && Return(c) !in run)
    && (Return(c) in run ==> ClosedFirst(run, c))
    && (ClosedFirst(run, c) ==> CloseEnd(c) in run)
    && (CloseEnd(c) in run ==> Restore(c) in run) && (Restore(c) in run ==> Call(c) in run)
    && (s.drain.Finished? <==> Signal in run)
  }

  lemma OneMoreCloser(run: seq<Event>, c: nat)
    requires run != []
    ensures var m := |run| - 1;
      && (forall e :: e in run <==> e in run[..m] || e == run[m])
      && (ClosedFirst(run, c) <==> ClosedFirst(run[..m], c) || (run[m] == CloseEnd(c) && NoCloseEnd(run[..m])))
  {
    hide NoCloseEnd;
    var m := |run| - 1;
    assert run == run[..m] + [run[m]];
    forall j | 0 <= j < m ensures run[..m][..j] == run[..j] && run[..m][j] == run[j] {
    }
  }

  /** A caller of Close moves by its own events only, and what they need is the phase before. */
  lemma OwnEvents(cap: nat, s: State, e: Event, c: nat)
    requires Can(cap, s, e)
    ensures e == Call(c) ==> c !in s.closers
    ensures e == Restore(c) ==> InPhase(s, c, Called)
    ensures e == CloseEnd(c) ==> InPhase(s, c, Restored)
    ensures e == Return(c) ==> InPhase(s, c, Waiting)
    ensures Next(cap, s, e).drain.Finished? <==> s.drain.Finished? || e.Signal?
  {
  }

  /** What one event leaves a caller of Close in. */
  function PhaseAfter(s: State, e: Event, c: nat): Option<Closing> {
    if e == Call(c) then Some(Called)
    else if e == Restore(c) then Some(Restored)
    else if e == CloseEnd(c) then Some(if s.writeOpen then Waiting else Returned(false))
    else if e == Return(c) then Some(Returned(true))
    else if c in s.closers then Some(s.closers[c])
    else None
  }

  lemma OnePhase(cap: nat, s: State, e: Event, c: nat)
    requires Can(cap, s, e)
    ensures var s' := Next(cap, s, e);
      (if c in s'.closers then Some(s'.closers[c]) else None) == PhaseAfter(s, e, c)
  {
  }

  lemma PhaseStep(cap: nat, run: seq<Event>, s: State, c: nat)
    requires run != [] && PhaseAgrees(run[..|run| - 1], s, c) && Can(cap, s, run[|run| - 1])
    requires s.writeOpen <==> NoCloseEnd(run[..|run| - 1])
    ensures PhaseAgrees(run, Next(cap, s, run[|run| - 1]), c)
  {
    hide Can, Next, ClosedFirst, NoCloseEnd;
    var m := |run| - 1;
    OneMoreCloser(run, c);
    OwnEvents(cap, s, run[m], c);
    OnePhase(cap, s, run[m], c);
  }

  lemma {:induction false} PhaseIsSaid(cap: nat, held: set<File>, run: seq<Event>, c: nat)
    requires Legal(cap, Installed(held), run)
    ensures PhaseAgrees(run, After(cap, Installed(held), run), c)
    decreases |run|
  {
    if run != [] {
      hide Can, Next, InPhase, ClosedFirst, NoCloseEnd, PipeOpen, SinkWorks, NoRestore, Taken, PhaseAgrees;
      var m := |run| - 1;
      PhaseIsSaid(cap, held, run[..m], c);
      RunAgrees(cap, held, run[..m]);
      PhaseStep(cap, run, After(cap, Installed(held), run[..m]), c);
    }
  }

  /**
   Anybody can call Close at any time and gets on with it: restoring stdout and closing the write end take no
   waiting, and the call that closed it first can return nil as soon as the drain has signalled.
   */
  lemma WhoCanClose(cap: nat, held: set<File>, run: seq<Event>, c: nat)
    requires Legal(cap, Installed(held), run)
    ensures var s := After(cap, Installed(held), run);
      && (Can(cap, s, Call(c)) <==> Call(c) !in run)
      && (Can(cap, s, Restore(c)) <==> Call(c) in run && Restore(c) !in run)
      && (Can(cap, s, CloseEnd(c)) <==> Restore(c) in run && CloseEnd(c) !in run)
      && (Can(cap, s, Return(c)) <==> ClosedFirst(run, c) && Signal in run && Return(c) !in run)
  {
    hide Legal, After, ClosedFirst, InPhase;
    PhaseIsSaid(cap, held, run, c);
  }

  /** The genuine stdout carries frames only, as long as no Close has restored it. */
  ghost predicate FramesUntilRestored(cap: nat, held: set<File>) {
    forall run :: Legal(cap, Installed(held), run) && NoRestore(run) ==>
      forall i :: 0 <= i < |OnGenuine(run)| ==> OnGenuine(run)[i].Frame?
  }

  /** That holds in every run iff nobody took the genuine stdout from os.Stdout before the redirect. */
  lemma PureIffNotHeld(cap: nat, held: set<File>)
    ensures FramesUntilRestored(cap, held) <==> Genuine !in held
  {
    hide NoRestore;
    if Genuine !in held {
      forall run | Legal(cap, Installed(held), run) && NoRestore(run)
        ensures forall i :: 0 <= i < |OnGenuine(run)| ==> OnGenuine(run)[i].Frame?
      {
        Always(cap, held, run);
        RunAgrees(cap, held, run);
      }
    } else {
      StrayOnGenuine(cap, held);
    }
  }

  lemma StrayOnGenuine(cap: nat, held: set<File>)
    requires Genuine in held
    ensures !FramesUntilRestored(cap, held)
  {
    var run := [Write(Genuine, [Stray(0)])];
    assert run[..0] == [];
    assert Can(cap, After(cap, Installed(held), run[..0]), run[0]);
    assert OnGenuine(run) == OnGenuine(run[..0]) + [Stray(0)] == [Stray(0)];
    assert OnGenuine(run)[0].Stray?;
  }

  // ----- The drain finishes -----

  predicate DrainStep(e: Event) { e.Read? || e.Copy? || e.Eof? || e.ShutRead? || e.Signal? }

  /** Work the drain has left once nothing can enter the pipe any more. */
  function Work(s: State): nat {
    match s.drain
    case Reading => 2 * |s.pipe| + 3
    case Writing(_) => 2 * |s.pipe| + 4
    case Stopped(_) => 2
    case Shut(_) => 1
    case Finished(_) => 0
  }

  /** What the drain does next by itself. */
  function Onward(s: State): Event
    requires !s.drain.Finished?
  {
    match s.drain
    case Reading => if s.pipe == [] then Eof else Read(|s.pipe|)
    case Writing(chunk) => Copy(|chunk|, true)
    case Stopped(_) => ShutRead
    case Shut(_) => Signal
  }

  /** The drain can move unless it has finished or waits for the first byte of an open, empty pipe. */
  lemma DrainIsNeverStuck(cap: nat, s: State)
    ensures (exists e :: DrainStep(e) && Can(cap, s, e)) <==>
        !s.drain.Finished? && !(s.drain.Reading? && s.pipe == [] && s.writeOpen)
  {
    if e :| DrainStep(e) && Can(cap, s, e) {
      assert !(s.drain.Reading? && s.pipe == [] && s.writeOpen);
    } else if !s.drain.Finished? && !(s.drain.Reading? && s.pipe == [] && s.writeOpen) {
      assert DrainStep(Onward(s)) && Can(cap, s, Onward(s));
    }
  }

  lemma WorkShrinks(cap: nat, s: State, e: Event)
    requires Can(cap, s, e) && !s.writeOpen
    ensures var s' := Next(cap, s, e);
      !s'.writeOpen && (if DrainStep(e) then Work(s') < Work(s) else Work(s') == Work(s))
  {
  }

  function DrainSteps(run: seq<Event>): nat {
    if run == [] then 0 else DrainSteps(run[..|run| - 1]) + if DrainStep(run[|run| - 1]) then 1 else 0
  }

  /** After the write end is closed, whatever else runs, the drain needs no more steps than it has work. */
  lemma {:induction false} DrainIsBounded(cap: nat, s: State, run: seq<Event>)
    requires Legal(cap, s, run) && !s.writeOpen
    ensures !After(cap, s, run).writeOpen && DrainSteps(run) + Work(After(cap, s, run)) <= Work(s)
    decreases |run|
  {
    hide Can, Next, Work, DrainStep;
    if run != [] {
      var m := |run| - 1;
      DrainIsBounded(cap, s, run[..m]);
      WorkShrinks(cap, After(cap, s, run[..m]), run[m]);
    }
  }

  /**
   Close returns: while it waits, in every continuation the drain either has a step to make, and only
   boundedly many of them, or has finished, and then Close can return nil.
   */
  lemma CloseReturns(cap: nat, held: set<File>, run: seq<Event>, more: seq<Event>, c: nat)
    requires Legal(cap, Installed(held), run)
    requires var s := After(cap, Installed(held), run); InPhase(s, c, Waiting) && Legal(cap, s, more)
    requires InPhase(After(cap, After(cap, Installed(held), run), more), c, Waiting)
    ensures var s := After(cap, Installed(held), run); var s' := After(cap, s, more);
      && DrainSteps(more) <= Work(s)
      && (Can(cap, s', Return(c)) || (exists e :: DrainStep(e) && Can(cap, s', e)))
      && (DrainSteps(more) == Work(s) ==> Can(cap, s', Return(c)))
  {
    hide Next, Legal, After;
    Always(cap, held, run);
    var s := After(cap, Installed(held), run);
    assert Winner(s, c);
    DrainIsBounded(cap, s, more);
    DrainIsNeverStuck(cap, After(cap, s, more));
  }

  lemma FullPipeMoves(cap: nat, s: State)
    requires cap > 0 && |s.pipe| == cap
    ensures (exists e :: DrainStep(e) && Can(cap, s, e)) || !ReadOpen(s.drain)
  {
    DrainIsNeverStuck(cap, s);
  }

  /** Writers wait: there is no room and nobody has turned them away. */
  predicate Jammed(cap: nat, s: State) { |s.pipe| == cap && ReadOpen(s.drain) }

  lemma JamStep(cap: nat, s: State, e: Event)
    requires cap > 0 && Can(cap, s, e) && Jammed(cap, s) && Jammed(cap, Next(cap, s, e))
    ensures DrainStep(e) ==> s.drain.Writing? && !Next(cap, s, e).drain.Writing?
    ensures !DrainStep(e) ==> Next(cap, s, e).drain == s.drain
  {
  }

  lemma {:induction false} JamIsShort(cap: nat, s: State, run: seq<Event>)
    requires cap > 0 && Legal(cap, s, run)
    requires forall n :: 0 <= n <= |run| ==> Legal(cap, s, run[..n]) && Jammed(cap, After(cap, s, run[..n]))
    ensures DrainSteps(run) + (if After(cap, s, run).drain.Writing? then 1 else 0) <= if s.drain.Writing? then 1 else 0
    decreases |run|
  {
    hide Can, Next, DrainStep, Jammed;
    assert run[..|run|] == run;
    if run != [] {
      var m := |run| - 1;
      forall n | 0 <= n <= m ensures Legal(cap, s, run[..m][..n]) && Jammed(cap, After(cap, s, run[..m][..n])) {
        assert run[..m][..n] == run[..n];
      }
      JamIsShort(cap, s, run[..m]);
      assert Jammed(cap, After(cap, s, run[..m]));
      JamStep(cap, After(cap, s, run[..m]), run[m]);
    }
  }

  /**
   Writers never wait for long at a full pipe: while they wait, whatever else runs, the drain has a step to make,
   and after one step at most they have room or are refused.
   */
  lemma FullPipeClears(cap: nat, s: State, run: seq<Event>)
    requires cap > 0 && Legal(cap, s, run)
    requires forall n :: 0 <= n <= |run| ==> Legal(cap, s, run[..n]) && Jammed(cap, After(cap, s, run[..n]))
    ensures DrainSteps(run) <= 1
    ensures exists e :: DrainStep(e) && Can(cap, After(cap, s, run), e)
  {
    hide Can, Next, DrainStep, Legal, After;
    JamIsShort(cap, s, run);
    assert run[..|run|] == run;
    assert Jammed(cap, After(cap, s, run));
    FullPipeMoves(cap, After(cap, s, run));
  }

  lemma {:induction false} LegalPrefix(cap: nat, s: State, run: seq<Event>, n: nat)
    requires Legal(cap, s, run) && n <= |run|
    ensures Legal(cap, s, run[..n])
    decreases |run|
  {
    hide Can, Next;
    if n == |run| {
      assert run[..n] == run;
    } else {
      LegalPrefix(cap, s, run[..|run| - 1], n);
      assert run[..|run| - 1][..n] == run[..n];
    }
  }

  lemma StepAt(cap: nat, s: State, run: seq<Event>, n: nat)
    requires Legal(cap, s, run) && n < |run|
    ensures Legal(cap, s, run[..n]) && Legal(cap, s, run[..n + 1]) && Can(cap, After(cap, s, run[..n]), run[n])
    ensures After(cap, s, run[..n + 1]) == Next(cap, After(cap, s, run[..n]), run[n])
  {
    LegalPrefix(cap, s, run, n);
    LegalPrefix(cap, s, run, n + 1);
    hide Can, Next;
    assert run[..n + 1][..n] == run[..n];
  }

  lemma NextFailed(cap: nat, s: State, e: Event, c: nat)
    requires Can(cap, s, e) && InPhase(s, c, Returned(false))
    ensures InPhase(Next(cap, s, e), c, Returned(false))
  {
  }

  lemma {:induction false} FailedStays(cap: nat, s: State, run: seq<Event>, n: nat, c: nat)
    requires Legal(cap, s, run) && n <= |run| && Legal(cap, s, run[..n])
    requires InPhase(After(cap, s, run[..n]), c, Returned(false))
    ensures InPhase(After(cap, s, run), c, Returned(false))
    decreases |run|
  {
    hide Can, Next, InPhase;
    if n == |run| {
      assert run[..n] == run;
    } else {
      var m := |run| - 1;
      assert run[..m][..n] == run[..n];
      FailedStays(cap, s, run[..m], n, c);
      NextFailed(cap, After(cap, s, run[..m]), run[m], c);
    }
  }

  /**
   In every run the first Close to reach the write end closes it. Every other one fails there, for good, and its
   step changes nothing else: it has not waited for a single byte.
   */
  lemma LosingCloseDoesNotWait(cap: nat, held: set<File>, run: seq<Event>, i: nat, c: nat)
    requires Legal(cap, Installed(held), run) && i < |run| && run[i] == CloseEnd(c)
    ensures Legal(cap, Installed(held), run[..i]) && Legal(cap, Installed(held), run[..i + 1])
    ensures var s, s' := After(cap, Installed(held), run[..i]), After(cap, Installed(held), run[..i + 1]);
      && (s.writeOpen <==> forall j :: 0 <= j < i ==> !run[j].CloseEnd?)
      && (!s.writeOpen ==> s' == s.(closers := s.closers[c := Returned(false)]))
      && (!s.writeOpen ==> InPhase(After(cap, Installed(held), run), c, Returned(false)))
  {
    hide Legal, After;
    StepAt(cap, Installed(held), run, i);
    RunAgrees(cap, held, run[..i]);
    assert forall j :: 0 <= j < i ==> run[..i][j] == run[j];
    if !After(cap, Installed(held), run[..i]).writeOpen {
      FailedStays(cap, Installed(held), run, i + 1, c);
    }
  }
}
