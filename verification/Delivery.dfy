/**
 What reaches the upstream over whole runs of the bridge: only sanitized facts; and exactly when they reach the
 bank they were meant for, against every upstream and against a given one.
 */
module Delivery {
  import opened Options
  import opened Regex
  import opened Sanitizer
  import opened RawText
  import opened ZeroLeak
  import opened OfflineBuffer

  /** The bridge at the start of a run: a buffer file, and no request sent. */
  function Begin(buffer: seq<Entry>): World { World(buffer, []) }

  /** Requests are only added, and a buffered entry keeps everything but its flag. */
  ghost predicate Grows(w: World, w': World) {
    && |w.posts| <= |w'.posts| && w'.posts[..|w.posts|] == w.posts
    && |w.buffer| <= |w'.buffer| && OnlyFlagsOff(w.buffer, w'.buffer[..|w.buffer|])
  }

  lemma GrowsTwice(a: World, b: World, c: World)
    requires Grows(a, b) && Grows(b, c)
    ensures Grows(a, c)
  {
    assert c.posts[..|a.posts|] == c.posts[..|b.posts|][..|a.posts|];
    forall k | 0 <= k < |a.buffer|
      ensures c.buffer[..|a.buffer|][k] == a.buffer[k] || c.buffer[..|a.buffer|][k] == a.buffer[k].(pending := false)
    {
      assert b.buffer[..|a.buffer|][k] == b.buffer[k] && c.buffer[..|b.buffer|][k] == c.buffer[k];
    }
  }

  lemma RetainGrows(env: Env, w: World, call: Call)
    ensures Grows(w, Retain(env, w, call))
  {
    hide CleanFact, Flushed;
    if Accepted(env.table, call) {
      var path := env.quote(call.bank);
      var sent := Send(env, w, path, CleanFact(env.table, call), None);
      FlushPosts(env, sent, path, |sent.buffer|);
      var w' := Retain(env, w, call);
      assert w'.posts[..|w.posts|] == w'.posts[..|sent.posts|][..|w.posts|] == w.posts;
      assert w'.buffer[..|w.buffer|] == if Acked(sent) then w'.buffer else w.buffer;
    }
  }

  lemma {:induction false} RunGrows(env: Env, w: World, calls: seq<Call>, n: nat)
    requires n <= |calls|
    ensures Grows(RunCalls(env, w, calls[..n]), RunCalls(env, w, calls))
    decreases |calls|
  {
    hide Retain, Grows;
    if n == |calls| {
      assert calls[..n] == calls;
      GrowsItself(RunCalls(env, w, calls));
    } else {
      var m := |calls| - 1;
      RunGrows(env, w, calls[..m], n);
      assert calls[..m][..n] == calls[..n];
      RetainGrows(env, RunCalls(env, w, calls[..m]), calls[m]);
      GrowsTwice(RunCalls(env, w, calls[..n]), RunCalls(env, w, calls[..m]), RunCalls(env, w, calls));
    }
  }

  lemma GrowsItself(w: World)
    ensures Grows(w, w)
  {
    assert w.posts[..|w.posts|] == w.posts && w.buffer[..|w.buffer|] == w.buffer;
  }

  // ----- Banks -----

  /** Every acknowledged re-sent fact went to the bank it was retained for. */
  ghost predicate Routed(env: Env, w: World) {
    forall i :: 0 <= i < |w.posts| && w.posts[i].slot.Some? && 200 <= w.posts[i].status < 300 ==>
      w.posts[i].slot.value < |w.buffer| && w.posts[i].path == env.quote(w.buffer[w.posts[i].slot.value].bank)
  }

  /** All accepted calls share one bank, and with what the buffer held pending at the start, if there is such a call. */
  ghost predicate OneBank(env: Env, buffer: seq<Entry>, calls: seq<Call>) {
    forall j :: 0 <= j < |calls| && Accepted(env.table, calls[j]) ==>
      && (forall k :: 0 <= k < |buffer| && buffer[k].pending ==> env.quote(buffer[k].bank) == env.quote(calls[j].bank))
      && (forall i :: 0 <= i < j && Accepted(env.table, calls[i]) ==>
          env.quote(calls[i].bank) == env.quote(calls[j].bank))
  }

  /** Everything pending is for `path`, and everything acknowledged so far went where it should. */
  ghost predicate AllAt(env: Env, w: World, path: string) {
    Routed(env, w) && forall k :: 0 <= k < |w.buffer| && w.buffer[k].pending ==> env.quote(w.buffer[k].bank) == path
  }

  lemma {:induction false} FlushStays(env: Env, w: World, path: string, n: nat)
    requires n <= |w.buffer| && AllAt(env, w, path)
    ensures AllAt(env, Flushed(env, w, path, n), path)
  {
    if n > 0 { FlushStays(env, w, path, n - 1); }
  }

  lemma {:induction false} OneBankStays(env: Env, w: World, calls: seq<Call>, path: string)
    requires AllAt(env, w, path)
    requires forall i :: 0 <= i < |calls| && Accepted(env.table, calls[i]) ==> env.quote(calls[i].bank) == path
    ensures AllAt(env, RunCalls(env, w, calls), path)
    decreases |calls|
  {
    hide Flushed, Accepted, CleanFact;
    if calls != [] {
      var m := |calls| - 1;
      OneBankStays(env, w, calls[..m], path);
      var mid := RunCalls(env, w, calls[..m]);
      if Accepted(env.table, calls[m]) {
        var sent := Send(env, mid, path, CleanFact(env.table, calls[m]), None);
        FlushStays(env, sent, path, |sent.buffer|);
      }
    }
  }

  lemma {:induction false} RefusedRun(env: Env, w: World, calls: seq<Call>)
    requires forall i :: 0 <= i < |calls| ==> !Accepted(env.table, calls[i])
    ensures RunCalls(env, w, calls) == w
    decreases |calls|
  {
    hide Accepted;
    if calls != [] { RefusedRun(env, w, calls[..|calls| - 1]); }
  }

  /** With one bank, every acknowledgement lands where it should, whatever the upstream does. */
  lemma OneBankIsRouted(env: Env, buffer: seq<Entry>, calls: seq<Call>)
    requires OneBank(env, buffer, calls)
    ensures Routed(env, RunCalls(env, Begin(buffer), calls))
  {
    hide RunCalls, Accepted;
    if i :| 0 <= i < |calls| && Accepted(env.table, calls[i]) {
      forall j | 0 <= j < |calls| && Accepted(env.table, calls[j])
        ensures env.quote(calls[j].bank) == env.quote(calls[i].bank)
      {
        if j < i { assert env.quote(calls[j].bank) == env.quote(calls[i].bank); }
      }
      OneBankStays(env, Begin(buffer), calls, env.quote(calls[i].bank));
    } else {
      RefusedRun(env, Begin(buffer), calls);
    }
  }

  function AcceptedCount(t: CharTable, calls: seq<Call>): nat {
    if calls == [] then 0
    else AcceptedCount(t, calls[..|calls| - 1]) + if Accepted(t, calls[|calls| - 1]) then 1 else 0
  }

  /** While the upstream is down, the accepted calls pile up behind what the buffer held. */
  lemma {:induction false} OfflineRun(env: Env, buffer: seq<Entry>, calls: seq<Call>)
    requires forall n :: 0 <= n < AcceptedCount(env.table, calls) ==> !(200 <= env.reply(n) < 300)
    ensures var w := RunCalls(env, Begin(buffer), calls);
      && |w.posts| == AcceptedCount(env.table, calls) && |w.buffer| == |buffer| + |w.posts|
      && w.buffer[..|buffer|] == buffer
      && (forall k :: |buffer| <= k < |w.buffer| ==> w.buffer[k].pending)
    decreases |calls|
  {
    hide Accepted, CleanFact, Flushed;
    if calls != [] {
      var m := |calls| - 1;
      OfflineRun(env, buffer, calls[..m]);
      var mid, w := RunCalls(env, Begin(buffer), calls[..m]), RunCalls(env, Begin(buffer), calls);
      assert w.buffer[..|buffer|] == mid.buffer[..|buffer|];
    } else {
      assert buffer[..|buffer|] == buffer;
    }
  }

  /** Where an accepted call of an offline run is buffered. */
  lemma {:induction false} OfflineSlot(env: Env, buffer: seq<Entry>, calls: seq<Call>, i: nat)
    requires forall n :: 0 <= n < AcceptedCount(env.table, calls) ==> !(200 <= env.reply(n) < 300)
    requires i < |calls| && Accepted(env.table, calls[i])
    ensures var k := |buffer| + AcceptedCount(env.table, calls[..i]); var w := RunCalls(env, Begin(buffer), calls);
      k < |w.buffer| && w.buffer[k].bank == calls[i].bank && w.buffer[k].pending
    decreases |calls|
  {
    hide Accepted, CleanFact, Flushed;
    var m := |calls| - 1;
    OfflineRun(env, buffer, calls[..m]);
    if i < m {
      OfflineSlot(env, buffer, calls[..m], i);
      assert calls[..m][..i] == calls[..i];
    }
  }

  /** Down until call `j`, then up: call `j` pushes the backlog into its own bank. */
  function UpFrom(m: nat): nat -> int { n => if n < m then 0 else 200 }

  lemma FlushMisroutes(env: Env, w: World, path: string, k: nat)
    requires k < |w.buffer| && w.buffer[k].pending && env.quote(w.buffer[k].bank) != path
    requires forall n :: n >= |w.posts| ==> 200 <= env.reply(n) < 300
    ensures !Routed(env, Flush(env, w, path))
  {
    var n := |w.buffer|;
    FlushPosts(env, w, path, k);
    FlushPosts(env, w, path, k + 1);
    FlushPosts(env, w, path, n);
    var mid := Flushed(env, w, path, k);
    var one := Flushed(env, w, path, k + 1);
    var w' := Flush(env, w, path);
    assert mid.buffer[k] == mid.buffer[k..][0] == w.buffer[k..][0] == w.buffer[k];
    FlushedKeeps(env, w, path, k + 1, n);
    var at := |mid.posts|;
    assert w'.posts[at] == w'.posts[..|one.posts|][at] == one.posts[at];
    assert one.posts[at] == Post(path, w.buffer[k].fact, env.reply(at), Some(k));
  }

  lemma {:induction false} FlushedKeeps(env: Env, w: World, path: string, n: nat, m: nat)
    requires n <= m <= |w.buffer|
    ensures var a, b := Flushed(env, w, path, n), Flushed(env, w, path, m);
      |a.posts| <= |b.posts| && b.posts[..|a.posts|] == a.posts
    decreases m
  {
    var a := Flushed(env, w, path, n);
    if n < m {
      FlushedKeeps(env, w, path, n, m - 1);
      var c := Flushed(env, w, path, m - 1);
      var b := Flushed(env, w, path, m);
      assert b.posts[..|a.posts|] == c.posts[..|a.posts|];
    } else {
      assert a.posts[..|a.posts|] == a.posts;
    }
  }

  lemma UpFromIs(m: nat)
    ensures forall n: nat :: 200 <= UpFrom(m)(n) < 300 <==> n >= m
  {
  }

  /** An accepted call that finds a pending entry of another bank sends it astray, if the upstream comes back then. */
  lemma ForeignBacklogMisroutes(env: Env, buffer: seq<Entry>, calls: seq<Call>, j: nat, k: nat)
    requires j < |calls| && Accepted(env.table, calls[j])
    requires var w := RunCalls(env.(reply := UpFrom(AcceptedCount(env.table, calls[..j]))), Begin(buffer), calls[..j]);
      k < |w.buffer| && w.buffer[k].pending && env.quote(w.buffer[k].bank) != env.quote(calls[j].bank)
    ensures var bad := env.(reply := UpFrom(AcceptedCount(env.table, calls[..j])));
      !Routed(bad, RunCalls(bad, Begin(buffer), calls))
  {
    hide Accepted, CleanFact, Flushed, Routed;
    var m := AcceptedCount(env.table, calls[..j]);
    var bad := env.(reply := UpFrom(m));
    UpFromIs(m);
    OfflineRun(bad, buffer, calls[..j]);
    var w := RunCalls(bad, Begin(buffer), calls[..j]);
    var path := env.quote(calls[j].bank);
    var sent := Send(bad, w, path, CleanFact(env.table, calls[j]), None);
    FlushMisroutes(bad, sent, path, k);
    assert calls[..j + 1][..j] == calls[..j];
    assert RunCalls(bad, Begin(buffer), calls[..j + 1]) == Flush(bad, sent, path);
    RunGrows(bad, Begin(buffer), calls, j + 1);
    SlotsInRange(bad, buffer, calls[..j + 1]);
    MisroutedStays(bad, RunCalls(bad, Begin(buffer), calls[..j + 1]), RunCalls(bad, Begin(buffer), calls), path);
  }

  /** Where a call's backlog is not all its own, some upstream makes the run go astray. */
  lemma TwoBanksMisroute(env: Env, buffer: seq<Entry>, calls: seq<Call>, j: nat)
    requires j < |calls| && Accepted(env.table, calls[j])
    requires
      || (exists k :: 0 <= k < |buffer| && buffer[k].pending && env.quote(buffer[k].bank) != env.quote(calls[j].bank))
      || (exists i :: 0 <= i < j && Accepted(env.table, calls[i])
            && env.quote(calls[i].bank) != env.quote(calls[j].bank))
    ensures var bad := env.(reply := UpFrom(AcceptedCount(env.table, calls[..j])));
      !Routed(bad, RunCalls(bad, Begin(buffer), calls))
  {
    hide Accepted, CleanFact, Flushed, Routed, RunCalls, UpFrom, Ok, AcceptedCount;
    var bad := env.(reply := UpFrom(AcceptedCount(env.table, calls[..j])));
    UpFromIs(AcceptedCount(env.table, calls[..j]));
    var w := RunCalls(bad, Begin(buffer), calls[..j]);
    OfflineRun(bad, buffer, calls[..j]);
    if k :| 0 <= k < |buffer| && buffer[k].pending && env.quote(buffer[k].bank) != env.quote(calls[j].bank) {
      assert w.buffer[..|buffer|][k] == w.buffer[k];
      ForeignBacklogMisroutes(env, buffer, calls, j, k);
    } else {
      var i :| 0 <= i < j && Accepted(env.table, calls[i]) && env.quote(calls[i].bank) != env.quote(calls[j].bank);
      OfflineSlot(bad, buffer, calls[..j], i);
      ForeignBacklogMisroutes(env, buffer, calls, j, |buffer| + AcceptedCount(env.table, calls[..j][..i]));
    }
  }

  lemma SlotsInRange(env: Env, buffer: seq<Entry>, calls: seq<Call>)
    ensures var w := RunCalls(env, Begin(buffer), calls);
      forall i :: 0 <= i < |w.posts| && w.posts[i].slot.Some? ==> w.posts[i].slot.value < |w.buffer|
  {
    hide RunCalls, Acks;
    var settled := set j: nat | j < |buffer| && !buffer[j].pending;
    NoAcksYet(buffer, settled);
    RunAccounts(env, Begin(buffer), calls, settled);
  }

  lemma MisroutedStays(env: Env, w: World, w': World, path: string)
    requires Grows(w, w') && !Routed(env, w)
    requires forall i :: 0 <= i < |w.posts| && w.posts[i].slot.Some? ==> w.posts[i].slot.value < |w.buffer|
    ensures !Routed(env, w')
  {
    var i :| 0 <= i < |w.posts| && w.posts[i].slot.Some? && 200 <= w.posts[i].status < 300
      && !(w.posts[i].slot.value < |w.buffer| && w.posts[i].path == env.quote(w.buffer[w.posts[i].slot.value].bank));
    var k := w.posts[i].slot.value;
    assert w'.posts[i] == w'.posts[..|w.posts|][i] == w.posts[i];
    assert w'.buffer[..|w.buffer|][k] == w'.buffer[k];
  }

  /**
   From any buffer, re-sent facts are acknowledged in their own bank whatever the upstream does, iff accepted
   calls and pending entries share one bank.
   */
  lemma RoutedIffOneBank(env: Env, buffer: seq<Entry>, calls: seq<Call>)
    ensures (forall reply: nat -> int ::
        Routed(env.(reply := reply), RunCalls(env.(reply := reply), Begin(buffer), calls)))
       <==> OneBank(env, buffer, calls)
  {
    hide Routed, RunCalls, Accepted;
    if OneBank(env, buffer, calls) {
      forall reply: nat -> int
        ensures Routed(env.(reply := reply), RunCalls(env.(reply := reply), Begin(buffer), calls))
      {
        OneBankIsRouted(env.(reply := reply), buffer, calls);
      }
    } else {
      var j: nat :| j < |calls| && Accepted(env.table, calls[j]) &&
        ((exists k :: 0 <= k < |buffer| && buffer[k].pending && env.quote(buffer[k].bank) != env.quote(calls[j].bank))
        || (exists i :: 0 <= i < j && Accepted(env.table, calls[i])
              && env.quote(calls[i].bank) != env.quote(calls[j].bank)));
      TwoBanksMisroute(env, buffer, calls, j);
    }
  }

  // ----- Banks, against a given upstream -----

  /** Every re-sent request names an entry of the buffer. */
  ghost predicate InRange(w: World) {
    forall i :: 0 <= i < |w.posts| && w.posts[i].slot.Some? ==> w.posts[i].slot.value < |w.buffer|
  }

  /** Entry `k` is pending for another bank, and its request during a flush to `path` is acknowledged. */
  predicate Astray(env: Env, w: World, path: string, k: nat)
    requires k < |w.buffer|
  {
    && w.buffer[k].pending && env.quote(w.buffer[k].bank) != path
    && 200 <= env.reply(|Flushed(env, w, path, k).posts|) < 300
  }

  lemma SendRouted(env: Env, w: World, path: string, fact: Fact, slot: Option<nat>)
    requires InRange(w) && (slot.Some? ==> slot.value < |w.buffer|)
    ensures var sent := Send(env, w, path, fact, slot);
      && InRange(sent)
      && (Routed(env, sent) <==>
          Routed(env, w) && (slot.Some? && 200 <= env.reply(|w.posts|) < 300 ==>
            path == env.quote(w.buffer[slot.value].bank)))
  {
    var sent := Send(env, w, path, fact, slot);
    var n := |w.posts|;
    assert sent.posts[n] == Post(path, fact, env.reply(n), slot);
    assert forall i :: 0 <= i < n ==> sent.posts[i] == w.posts[i];
  }

  lemma SettleRouted(env: Env, w: World, k: nat)
    requires InRange(w) && k < |w.buffer|
    ensures InRange(Settle(w, k)) && (Routed(env, Settle(w, k)) <==> Routed(env, w))
  {
    assert forall j :: 0 <= j < |w.buffer| ==> Settle(w, k).buffer[j].bank == w.buffer[j].bank;
  }

  lemma FlushOneRouted(env: Env, w: World, path: string, k: nat)
    requires InRange(w) && k < |w.buffer|
    ensures var w' := FlushOne(env, w, path, k); var e := w.buffer[k];
      && InRange(w')
      && (Routed(env, w') <==>
          Routed(env, w) && !(e.pending && env.quote(e.bank) != path && 200 <= env.reply(|w.posts|) < 300))
  {
    hide Routed, InRange;
    if w.buffer[k].pending {
      var sent := Send(env, w, path, w.buffer[k].fact, Some(k));
      SendRouted(env, w, path, w.buffer[k].fact, Some(k));
      SettleRouted(env, sent, k);
    }
  }

  lemma {:induction false} FlushRouted(env: Env, w: World, path: string, n: nat)
    requires InRange(w) && n <= |w.buffer|
    ensures var w' := Flushed(env, w, path, n);
      && InRange(w')
      && (Routed(env, w') <==> Routed(env, w) && forall k :: 0 <= k < n ==> !Astray(env, w, path, k))
  {
    hide Routed, InRange, FlushOne;
    if n > 0 {
      FlushRouted(env, w, path, n - 1);
      var mid := Flushed(env, w, path, n - 1);
      FlushPosts(env, w, path, n - 1);
      assert mid.buffer[n - 1] == mid.buffer[n - 1..][0] == w.buffer[n - 1..][0] == w.buffer[n - 1];
      FlushOneRouted(env, mid, path, n - 1);
      assert Astray(env, w, path, n - 1) <==>
        w.buffer[n - 1].pending && env.quote(w.buffer[n - 1].bank) != path && 200 <= env.reply(|mid.posts|) < 300;
    }
  }

  lemma AppendRouted(env: Env, w: World, call: Call, fact: Fact)
    requires InRange(w)
    ensures var w' := Append(w, call, fact); InRange(w') && (Routed(env, w') <==> Routed(env, w))
  {
    var w' := Append(w, call, fact);
    assert forall j :: 0 <= j < |w.buffer| ==> w'.buffer[j] == w.buffer[j];
  }

  /** Call `call`, met in `w`, gets through and then sends something to a bank it was not meant for. */
  ghost predicate SendsAstray(env: Env, w: World, call: Call) {
    var path := env.quote(call.bank);
    var sent := Send(env, w, path, CleanFact(env.table, call), None);
    && Accepted(env.table, call) && 200 <= env.reply(|w.posts|) < 300
    && exists k :: 0 <= k < |w.buffer| && Astray(env, sent, path, k)
  }

  lemma RetainRouted(env: Env, w: World, call: Call)
    requires InRange(w)
    ensures InRange(Retain(env, w, call))
    ensures Routed(env, Retain(env, w, call)) <==> Routed(env, w) && !SendsAstray(env, w, call)
  {
    hide Routed, InRange, Accepted, CleanFact, Flushed, Astray;
    if Accepted(env.table, call) {
      var fact, path := CleanFact(env.table, call), env.quote(call.bank);
      var sent := Send(env, w, path, fact, None);
      SendRouted(env, w, path, fact, None);
      FlushRouted(env, sent, path, |sent.buffer|);
      AppendRouted(env, sent, call, fact);
    }
  }

  lemma BeginRouted(env: Env, buffer: seq<Entry>)
    ensures InRange(Begin(buffer)) && Routed(env, Begin(buffer))
  {
  }

  ghost predicate AstrayAt(env: Env, buffer: seq<Entry>, calls: seq<Call>, j: nat)
    requires j < |calls|
  {
    SendsAstray(env, RunCalls(env, Begin(buffer), calls[..j]), calls[j])
  }

  lemma AstrayAtPrefix(env: Env, buffer: seq<Entry>, calls: seq<Call>, j: nat)
    requires calls != [] && j < |calls| - 1
    ensures AstrayAt(env, buffer, calls[..|calls| - 1], j) == AstrayAt(env, buffer, calls, j)
  {
    hide SendsAstray, RunCalls;
    assert calls[..|calls| - 1][..j] == calls[..j];
  }

  lemma LastStep(env: Env, buffer: seq<Entry>, calls: seq<Call>)
    requires calls != [] && InRange(RunCalls(env, Begin(buffer), calls[..|calls| - 1]))
    ensures var m := |calls| - 1; var w := RunCalls(env, Begin(buffer), calls[..m]);
      && InRange(RunCalls(env, Begin(buffer), calls))
      && (Routed(env, RunCalls(env, Begin(buffer), calls)) <==> Routed(env, w) && !AstrayAt(env, buffer, calls, m))
  {
    hide Routed, InRange, Retain, SendsAstray;
    RetainRouted(env, RunCalls(env, Begin(buffer), calls[..|calls| - 1]), calls[|calls| - 1]);
  }

  ghost predicate NothingAstray(env: Env, buffer: seq<Entry>, calls: seq<Call>) {
    forall j :: 0 <= j < |calls| ==> !AstrayAt(env, buffer, calls, j)
  }

  lemma NothingAstrayStep(env: Env, buffer: seq<Entry>, calls: seq<Call>)
    requires calls != []
    ensures var m := |calls| - 1;
      NothingAstray(env, buffer, calls) <==> NothingAstray(env, buffer, calls[..m]) && !AstrayAt(env, buffer, calls, m)
  {
    hide AstrayAt;
    var m := |calls| - 1;
    var before := calls[..m];
    assert |before| == m;
    forall j | 0 <= j < m ensures AstrayAt(env, buffer, before, j) == AstrayAt(env, buffer, calls, j) {
      AstrayAtPrefix(env, buffer, calls, j);
    }
  }

  /**
   Against a given upstream: re-sent facts are acknowledged in their own bank iff no call that gets through finds
   a pending entry of another bank whose request is acknowledged as well.
   */
  lemma {:induction false} RoutedIffNothingAstray(env: Env, buffer: seq<Entry>, calls: seq<Call>)
    ensures InRange(RunCalls(env, Begin(buffer), calls))
    ensures Routed(env, RunCalls(env, Begin(buffer), calls)) <==> NothingAstray(env, buffer, calls)
    decreases |calls|
  {
    if calls == [] {
      BeginRouted(env, buffer);
    } else {
      hide *;
      RoutedIffNothingAstray(env, buffer, calls[..|calls| - 1]);
      LastStep(env, buffer, calls);
      NothingAstrayStep(env, buffer, calls);
    }
  }

  /** So it is enough that every call that gets through finds nothing pending but for its own bank. */
  lemma OwnBacklogIsRouted(env: Env, buffer: seq<Entry>, calls: seq<Call>)
    requires forall j :: 0 <= j < |calls| && Accepted(env.table, calls[j]) ==>
      var w := RunCalls(env, Begin(buffer), calls[..j]);
      200 <= env.reply(|w.posts|) < 300 ==>
        forall k :: 0 <= k < |w.buffer| && w.buffer[k].pending ==>
          env.quote(w.buffer[k].bank) == env.quote(calls[j].bank)
    ensures Routed(env, RunCalls(env, Begin(buffer), calls))
  {
    hide Routed, RunCalls, Accepted, CleanFact, Flushed;
    RoutedIffNothingAstray(env, buffer, calls);
  }

  // ----- Only sanitized facts -----

  /** The sanitized facts of the accepted calls. */
  ghost function CleanFacts(t: CharTable, calls: seq<Call>): set<Fact> {
    set i | 0 <= i < |calls| && Accepted(t, calls[i]) :: CleanFact(t, calls[i])
  }

  ghost function Sent(posts: seq<Post>): set<Fact> { set i | 0 <= i < |posts| :: posts[i].fact }

  ghost function Stored(b: seq<Entry>): set<Fact> { set k | 0 <= k < |b| :: b[k].fact }

  lemma SendAdds(env: Env, w: World, path: string, fact: Fact, slot: Option<nat>)
    ensures Sent(Send(env, w, path, fact, slot).posts) == Sent(w.posts) + {fact}
  {
    var w' := Send(env, w, path, fact, slot);
    var n := |w.posts|;
    assert w'.posts[n].fact == fact;
    forall f | f in Sent(w.posts) ensures f in Sent(w'.posts) {
      var i :| 0 <= i < n && w.posts[i].fact == f;
      assert w'.posts[i].fact == f;
    }
    forall f | f in Sent(w'.posts) ensures f in Sent(w.posts) + {fact} {
      var i :| 0 <= i < n + 1 && w'.posts[i].fact == f;
      if i < n { assert w.posts[i].fact == f; }
    }
  }

  lemma SettleKeeps(w: World, k: nat)
    requires k < |w.buffer|
    ensures Stored(Settle(w, k).buffer) == Stored(w.buffer)
  {
    var b := Settle(w, k).buffer;
    forall f | f in Stored(b) ensures f in Stored(w.buffer) {
      var j :| 0 <= j < |b| && b[j].fact == f;
      assert w.buffer[j].fact == f;
    }
    forall f | f in Stored(w.buffer) ensures f in Stored(b) {
      var j :| 0 <= j < |b| && w.buffer[j].fact == f;
      assert b[j].fact == f;
    }
  }

  lemma AppendAdds(w: World, call: Call, fact: Fact)
    ensures Stored(Append(w, call, fact).buffer) == Stored(w.buffer) + {fact}
  {
    var b := Append(w, call, fact).buffer;
    var n := |w.buffer|;
    assert b[n].fact == fact;
    forall f | f in Stored(w.buffer) ensures f in Stored(b) {
      var i :| 0 <= i < n && w.buffer[i].fact == f;
      assert b[i].fact == f;
    }
    forall f | f in Stored(b) ensures f in Stored(w.buffer) + {fact} {
      var i :| 0 <= i < n + 1 && b[i].fact == f;
      if i < n { assert w.buffer[i].fact == f; }
    }
  }

  /** A flush sends nothing but what is stored, and stores nothing new. */
  lemma {:induction false} FlushSendsStored(env: Env, w: World, path: string, n: nat)
    requires n <= |w.buffer|
    ensures var w' := Flushed(env, w, path, n);
      Stored(w'.buffer) == Stored(w.buffer) && Sent(w.posts) <= Sent(w'.posts) <= Sent(w.posts) + Stored(w.buffer)
  {
    hide Stored, Sent;
    if n > 0 {
      FlushSendsStored(env, w, path, n - 1);
      var mid := Flushed(env, w, path, n - 1);
      var sent := Send(env, mid, path, mid.buffer[n - 1].fact, Some(n - 1));
      SendAdds(env, mid, path, mid.buffer[n - 1].fact, Some(n - 1));
      SettleKeeps(sent, n - 1);
      StoredHas(mid.buffer, n - 1);
    }
  }

  lemma StoredHas(b: seq<Entry>, k: nat)
    requires k < |b|
    ensures b[k].fact in Stored(b)
  {
  }

  lemma RetainSends(env: Env, w: World, call: Call)
    ensures var w', own := Retain(env, w, call), if Accepted(env.table, call) then {CleanFact(env.table, call)} else {};
      && Sent(w.posts) + own <= Sent(w'.posts) <= Sent(w.posts) + own + Stored(w.buffer)
      && Stored(w.buffer) <= Stored(w'.buffer) <= Stored(w.buffer) + own
  {
    hide Stored, Sent, CleanFact, Flushed;
    if Accepted(env.table, call) {
      var fact, path := CleanFact(env.table, call), env.quote(call.bank);
      var sent := Send(env, w, path, fact, None);
      SendAdds(env, w, path, fact, None);
      FlushSendsStored(env, sent, path, |sent.buffer|);
      AppendAdds(sent, call, fact);
    }
  }

  lemma CleanFactsStep(t: CharTable, calls: seq<Call>)
    requires calls != []
    ensures var m := |calls| - 1;
      CleanFacts(t, calls) == CleanFacts(t, calls[..m]) + if Accepted(t, calls[m]) then {CleanFact(t, calls[m])} else {}
  {
    hide CleanFact, Accepted;
    var m := |calls| - 1;
    forall f | f in CleanFacts(t, calls[..m]) ensures f in CleanFacts(t, calls) {
      var i :| 0 <= i < m && Accepted(t, calls[..m][i]) && f == CleanFact(t, calls[..m][i]);
      assert calls[i] == calls[..m][i];
    }
    forall f | f in CleanFacts(t, calls)
      ensures f in CleanFacts(t, calls[..m]) || (Accepted(t, calls[m]) && f == CleanFact(t, calls[m]))
    {
      var i :| 0 <= i < |calls| && Accepted(t, calls[i]) && f == CleanFact(t, calls[i]);
      if i < m { assert calls[i] == calls[..m][i]; }
    }
  }

  /**
   What is sent in a run is what the accepted calls say once sanitized, and, re-sent by flushes, at most
   what the buffer held at the start; only such facts are ever stored.
   */
  lemma {:induction false} SendsSanitizedOnly(env: Env, buffer: seq<Entry>, calls: seq<Call>)
    ensures var w := RunCalls(env, Begin(buffer), calls);
      && CleanFacts(env.table, calls) <= Sent(w.posts) <= CleanFacts(env.table, calls) + Stored(buffer)
      && Stored(buffer) <= Stored(w.buffer) <= CleanFacts(env.table, calls) + Stored(buffer)
    decreases |calls|
  {
    hide Stored, Sent, CleanFact, Accepted, Retain, CleanFacts;
    if calls == [] {
      NothingYet(env.table);
    } else {
      var m := |calls| - 1;
      SendsSanitizedOnly(env, buffer, calls[..m]);
      RetainSends(env, RunCalls(env, Begin(buffer), calls[..m]), calls[m]);
      CleanFactsStep(env.table, calls);
    }
  }

  lemma NothingYet(t: CharTable)
    ensures Sent([]) == {} && CleanFacts(t, []) == {}
  {
  }

  ghost predicate CleanText(t: CharTable, fact: Fact) { Clean(t, fact.content) && Clean(t, fact.context) }

  /** In one of the call's texts a path is glued to what stands before it, so that redaction exposes something. */
  predicate Leaks(t: CharTable, call: Call) {
    RawExposed(t, false, Strip(t, call.content)) || RawExposed(t, false, Strip(t, call.context))
  }

  lemma CleanUnlessLeaks(t: CharTable, call: Call)
    requires t.Valid()
    ensures CleanText(t, CleanFact(t, call)) <==> !Leaks(t, call)
  {
    hide Clean, SanitizePrivacy, RawExposed, Strip;
    CleanUnlessRawExposed(t, Strip(t, call.content));
    CleanUnlessRawExposed(t, Strip(t, call.context));
  }

  /**
   The zero-leak invariant of facts over runs: starting from clean entries, no content or context ever sent holds
   a private address or a user path iff no accepted call leaks; then none that is stored does either.
   */
  lemma RunIsCleanIff(env: Env, buffer: seq<Entry>, calls: seq<Call>)
    requires env.table.Valid() && forall f :: f in Stored(buffer) ==> CleanText(env.table, f)
    ensures var w := RunCalls(env, Begin(buffer), calls); var t := env.table;
      && ((forall f :: f in Sent(w.posts) ==> CleanText(t, f)) <==>
          (forall i :: 0 <= i < |calls| && Accepted(t, calls[i]) ==> !Leaks(t, calls[i])))
      && ((forall f :: f in Sent(w.posts) ==> CleanText(t, f)) ==>
          forall f :: f in Stored(w.buffer) ==> CleanText(t, f))
  {
    hide Stored, Sent, CleanFact, Accepted, RunCalls, CleanText, Leaks;
    var t := env.table;
    SendsSanitizedOnly(env, buffer, calls);
    forall i | 0 <= i < |calls| ensures CleanText(t, CleanFact(t, calls[i])) <==> !Leaks(t, calls[i]) {
      CleanUnlessLeaks(t, calls[i]);
    }
    forall i | 0 <= i < |calls| && Accepted(t, calls[i]) ensures CleanFact(t, calls[i]) in CleanFacts(t, calls) {
    }
  }

  // ----- A condition on the text as it was passed in -----

  lemma DriveExtends(t: CharTable, u: string, n: nat)
    requires n <= |u| && DriveLen(t, u[..n]) > 0
    ensures DriveLen(t, u) > 0
  {
    assert u[..n][1..] == u[1..][..n - 1];
    assert u[..n][9..] == u[9..][..n - 9];
  }

  lemma DropLastLater(s: string, k: nat)
    requires k < |s|
    ensures s[..|s| - 1][k..] == s[k..][..|s| - 1 - k]
  {
  }

  lemma {:induction false} StripGluesNothing(t: CharTable, s: string)
    requires GluedDrivePath(t, Strip(t, s))
    ensures GluedDrivePath(t, s)
    decreases |s|
  {
    hide DriveLen;
    if s != "" && t.space(s[0]) {
      StripGluesNothing(t, s[1..]);
      var k :| 1 <= k < |s[1..]| && t.word(s[1..][k - 1]) && DriveLen(t, s[1..][k..]) > 0;
      assert s[1..][k..] == s[k + 1..];
    } else if s != "" && t.space(s[|s| - 1]) {
      var u := s[..|s| - 1];
      StripGluesNothing(t, u);
      var k :| 1 <= k < |u| && t.word(u[k - 1]) && DriveLen(t, u[k..]) > 0;
      DropLastLater(s, k);
      DriveExtends(t, s[k..], |u| - k);
    }
  }

  /** Texts without a Windows user path right behind a word character never leak, sent at once or later. */
  lemma UngluedNeverLeaks(t: CharTable, call: Call)
    requires t.Valid() && !GluedDrivePath(t, call.content) && !GluedDrivePath(t, call.context)
    ensures !Leaks(t, call)
  {
    hide GluedDrivePath, RawExposed, FirstPass, SanitizePrivacy, Clean, Strip;
    var a, b := Strip(t, call.content), Strip(t, call.context);
    if GluedDrivePath(t, a) { StripGluesNothing(t, call.content); }
    if GluedDrivePath(t, b) { StripGluesNothing(t, call.context); }
    CleanWithoutGluedDrive(t, a);
    CleanWithoutGluedDrive(t, b);
    CleanUnlessRawExposed(t, a);
    CleanUnlessRawExposed(t, b);
  }
}
