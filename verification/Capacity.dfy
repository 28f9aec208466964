/**
 What bounds the staging board.  Only expired actions make room, so the board can outgrow
 its nominal capacity, but never beyond the rate at which actions are staged.
 */
module Capacity {
  import opened Staging

  /** In every Stage call the clock read for `CreatedAt` is not before the one read for pruning. */
  ghost predicate StagesForward(log: seq<Event>) {
    forall k :: 0 <= k < |log| && log[k].Staged? ==> log[k].began <= log[k].act.createdAt
  }

  /** The clock does not run backwards from one Stage call to the next. */
  ghost predicate Monotone(log: seq<Event>) {
    StagesForward(log)
    && forall j, k :: 0 <= j < k < |log| && log[j].Staged? && log[k].Staged? ==> log[j].act.createdAt <= log[k].began
  }

  /** Position of the last Stage of the log, or -1. */
  function LastStage(log: seq<Event>): (s: int)
    ensures -1 <= s < |log| && (s >= 0 ==> log[s].Staged?)
    ensures forall k :: s < k < |log| ==> !log[k].Staged?
  {
    if log == [] then -1
    else if log[|log| - 1].Staged? then |log| - 1
    else LastStage(log[..|log| - 1])
  }

  /** Within capacity, or holding only what was created at most one TTL before the last Stage began. */
  ghost predicate Bounded(log: seq<Event>) {
    var b := After(log);
    |b| <= MAX_CAPACITY
    || (LastStage(log) >= 0
        && forall id :: id in b ==> b[id].createdAt >= Cutoff(log[LastStage(log)].began, DEFAULT_TTL))
  }

  lemma StageBounds(b: Board, act: Action, began: int)
    requires began <= act.createdAt
    ensures var after := Apply(b, Staged(act, began));
      |after| <= MAX_CAPACITY || forall id :: id in after ==> after[id].createdAt >= Cutoff(began, DEFAULT_TTL)
  {
    var room := Roomed(b, began);
    var after := room[act.id := act];
    assert after.Keys == room.Keys + {act.id};
    if |b| < MAX_CAPACITY { assert |after.Keys| <= |room.Keys| + 1; }
  }

  /** No other event adds an action or changes when one was created. */
  lemma OthersShrink(b: Board, e: Event)
    requires Can(b, e) && !e.Staged?
    ensures var after := Apply(b, e);
      |after| <= |b| && forall id :: id in after ==> id in b && after[id].createdAt == b[id].createdAt
  {
    var after := Apply(b, e);
    assert after.Keys <= b.Keys;
    SubsetSize(after.Keys, b.Keys);
  }

  /** After every operation the board is within capacity or holds only unexpired actions. */
  lemma {:induction false} AlwaysBounded(log: seq<Event>)
    requires Legal(log) && StagesForward(log)
    ensures Bounded(log)
    decreases |log|
  {
    hide Apply, Can;
    if log != [] {
      var n := |log| - 1;
      var before := log[..n];
      LegalPrefix(log, n);
      assert StagesForward(before) by {
        forall k | 0 <= k < n && before[k].Staged? ensures before[k].began <= before[k].act.createdAt {
          assert before[k] == log[k];
        }
      }
      AlwaysBounded(before);
      assert Can(After(before), log[n]);
      if log[n].Staged? {
        StageBounds(After(before), log[n].act, log[n].began);
      } else {
        OthersShrink(After(before), log[n]);
      }
    }
  }

  // ----- Exactly when the capacity is exceeded -----

  /** A staging under a new ID that finds the board full and nothing expired. */
  ghost predicate Overfills(b: Board, e: Event) {
    e.Staged? && |b| == MAX_CAPACITY && e.act.id !in b
    && forall id :: id in b ==> b[id].createdAt >= Cutoff(e.began, DEFAULT_TTL)
  }

  lemma InsertedSize(room: Board, id: string, act: Action)
    ensures |room[id := act]| == |room| + if id in room then 0 else 1
  {
    assert room[id := act].Keys == room.Keys + {id};
  }

  lemma PrunedSize(b: Board, cutoff: int)
    ensures |Pruned(b, cutoff)| == |b| <==> forall id :: id in b ==> b[id].createdAt >= cutoff
    ensures (forall id :: id in b ==> b[id].createdAt >= cutoff) ==> Pruned(b, cutoff) == b
    ensures |Pruned(b, cutoff)| <= |b|
  {
    KeptKeys(b, cutoff);
    var kept := Pruned(b, cutoff);
    if id :| id in b && b[id].createdAt < cutoff {
      assert kept.Keys <= b.Keys - {id};
      SubsetSize(kept.Keys, b.Keys - {id});
    } else {
      assert kept == b;
    }
  }

  /** From a board within capacity one event leads beyond it iff it overfills the board. */
  lemma BeyondCapacityIff(b: Board, e: Event)
    requires Can(b, e) && |b| <= MAX_CAPACITY
    ensures |Apply(b, e)| > MAX_CAPACITY <==> Overfills(b, e)
  {
    if e.Staged? {
      InsertedSize(Roomed(b, e.began), e.act.id, e.act);
      PrunedSize(b, Cutoff(e.began, DEFAULT_TTL));
    } else {
      OthersShrink(b, e);
    }
  }

  ghost predicate WithinCapacity(log: seq<Event>) {
    forall k :: 0 <= k <= |log| ==> |After(log[..k])| <= MAX_CAPACITY
  }

  lemma {:induction false} NoOverfillStaysWithin(log: seq<Event>, n: nat)
    requires Legal(log) && n <= |log| && forall k :: 0 <= k < n ==> !Overfills(After(log[..k]), log[k])
    ensures |After(log[..n])| <= MAX_CAPACITY
    decreases n
  {
    hide After, Apply, Can, Overfills;
    if n == 0 {
      NothingAtFirst(log);
    } else {
      NoOverfillStaysWithin(log, n - 1);
      AfterNext(log, n - 1);
      BeyondCapacityIff(After(log[..n - 1]), log[n - 1]);
    }
  }

  /**
   The board stays within its capacity throughout a history iff no staging under a new ID ever finds it full of
   actions that have not expired.
   */
  lemma WithinCapacityIff(log: seq<Event>)
    requires Legal(log)
    ensures WithinCapacity(log) <==> forall k :: 0 <= k < |log| ==> !Overfills(After(log[..k]), log[k])
  {
    hide After, Apply, Overfills;
    if WithinCapacity(log) {
      forall k | 0 <= k < |log| ensures !Overfills(After(log[..k]), log[k]) {
        AfterNext(log, k);
        assert |After(log[..k])| <= MAX_CAPACITY && |After(log[..k + 1])| <= MAX_CAPACITY;
        BeyondCapacityIff(After(log[..k]), log[k]);
      }
    } else {
      var k :| 0 <= k <= |log| && |After(log[..k])| > MAX_CAPACITY;
      if forall j :: 0 <= j < |log| ==> !Overfills(After(log[..j]), log[j]) {
        NoOverfillStaysWithin(log, k);
      }
    }
  }

  // ----- The rate of staging bounds the board -----

  /** The Stage calls that were under way at some time from `from` to `from + DEFAULT_TTL`. */
  ghost function StagesDuring(log: seq<Event>, from: int): set<int> {
    set k | 0 <= k < |log| && log[k].Staged? && log[k].act.createdAt >= from && log[k].began <= from + DEFAULT_TTL
  }

  lemma {:induction false} InjectiveImageSize(keys: set<string>, at: map<string, int>, image: set<int>)
    requires keys <= at.Keys && forall id :: id in keys ==> at[id] in image
    requires forall a, b :: a in keys && b in keys && at[a] == at[b] ==> a == b
    ensures |keys| <= |image|
    decreases |keys|
  {
    if keys != {} {
      var id :| id in keys;
      InjectiveImageSize(keys - {id}, at, image - {at[id]});
    }
  }

  /** Everything on a board over capacity was staged during one TTL before the last Stage began. */
  lemma OverfullIsRecent(log: seq<Event>, id: string)
    requires Legal(log) && Monotone(log) && |After(log)| > MAX_CAPACITY && id in After(log)
    ensures LastStage(log) >= 0
    ensures LatestStage(log, id, |log|) in StagesDuring(log, Cutoff(log[LastStage(log)].began, DEFAULT_TTL))
  {
    hide After, Can, Apply;
    AlwaysBounded(log);
    assert log[..|log|] == log;
    HeldIsLatest(log, id, |log|);
    var s := LatestStage(log, id, |log|);
    assert s <= LastStage(log);
  }

  /** At most `rate` Stage calls per TTL keep the board within the capacity or `rate`, whichever is larger. */
  lemma RateBoundsBoard(log: seq<Event>, rate: nat)
    requires Legal(log) && Monotone(log)
    requires forall from :: |StagesDuring(log, from)| <= rate
    ensures |After(log)| <= if rate <= MAX_CAPACITY then MAX_CAPACITY else rate
  {
    hide After, Can, Apply, Legal, Monotone;
    var b := After(log);
    if |b| > MAX_CAPACITY {
      var some :| some in b.Keys by { assert |b.Keys| > 0; }
      OverfullIsRecent(log, some);
      var recent := StagesDuring(log, Cutoff(log[LastStage(log)].began, DEFAULT_TTL));
      var at := map id | id in b :: LatestStage(log, id, |log|);
      forall id | id in b.Keys ensures at[id] in recent { OverfullIsRecent(log, id); }
      forall x, y | x in b.Keys && y in b.Keys && at[x] == at[y] ensures x == y {
        OverfullIsRecent(log, x);
        assert log[at[x]].act.id == x && log[at[y]].act.id == y;
      }
      InjectiveImageSize(b.Keys, at, recent);
    }
  }

  /** The nominal capacity alone is no bound: staging only fresh actions goes past it. */
  lemma {:induction false} FreshStagesOverflow(ids: seq<string>, now: int)
    requires forall i, j :: 0 <= i < j < |ids| ==> ids[i] != ids[j]
    ensures var log := seq(|ids|, i requires 0 <= i < |ids| =>
        Staged(Action(ids[i], "", "", map[], "", Pending, now), now));
      Legal(log) && Monotone(log) && |After(log)| == |ids|
  {
    var log := seq(|ids|, i requires 0 <= i < |ids| => Staged(Action(ids[i], "", "", map[], "", Pending, now), now));
    FreshPrefix(ids, now, log, |ids|);
    assert log[..|ids|] == log;
  }

  lemma StageFresh(b: Board, act: Action, now: int)
    requires act.id !in b && act.createdAt == now && forall id :: id in b ==> b[id].createdAt == now
    ensures var after := Apply(b, Staged(act, now));
      && after.Keys == b.Keys + {act.id} && |after| == |b| + 1
      && forall id :: id in after ==> after[id].createdAt == now
  {
    assert Pruned(b, Cutoff(now, DEFAULT_TTL)) == b;
    assert Apply(b, Staged(act, now)).Keys == b.Keys + {act.id};
  }

  lemma {:induction false} FreshPrefix(ids: seq<string>, now: int, log: seq<Event>, n: nat)
    requires n <= |ids| == |log|
    requires forall i, j :: 0 <= i < j < |ids| ==> ids[i] != ids[j]
    requires forall i :: 0 <= i < |ids| ==> log[i] == Staged(Action(ids[i], "", "", map[], "", Pending, now), now)
    ensures var b := After(log[..n]);
      && |b| == n
      && (forall id :: id in b ==> b[id].createdAt == now)
      && (forall i :: n <= i < |ids| ==> ids[i] !in b)
    decreases n
  {
    if n > 0 {
      hide After, Apply;
      FreshPrefix(ids, now, log, n - 1);
      AfterNext(log, n - 1);
      StageFresh(After(log[..n - 1]), log[n - 1].act, now);
    }
  }
}
