/**
 The staging board of the MCP server as a value: a map of staged actions, the events that
 happen to it and the board after a history of events.
 */
module Staging {

  datatype Status = Pending | Confirmed | Discarded

  datatype Any = Str(text: string) | Flag(flag: bool)

  datatype Action = Action(
    id: string,
    tool: string,
    target: string,
    payload: map<string, Any>,
    preview: string,
    status: Status,
    createdAt: int)

  type Board = map<string, Action>

  /** Fifteen minutes in nanoseconds. */
  const DEFAULT_TTL: int := 15 * 60 * 1_000_000_000
  const MAX_CAPACITY: nat := 1000

  function Cutoff(now: int, maxAge: int): int { now - (if maxAge <= 0 then DEFAULT_TTL else maxAge) }

  function Pruned(b: Board, cutoff: int): Board { map id | id in b && !(b[id].createdAt < cutoff) :: b[id] }

  /** What `Stage` makes of the board before it inserts. */
  function Roomed(b: Board, began: int): Board {
    if |b| >= MAX_CAPACITY then Pruned(b, Cutoff(began, DEFAULT_TTL)) else b
  }

  /** A build request as `builder.Dispatch` receives it. */
  datatype Request = Request(flavor: string, backend: string, dryRun: bool)

  /** Why a handler called `builder.Dispatch`: at once, or for the confirmation at a log position. */
  datatype Origin = Direct(confirmed: bool) | ForConfirm(at: nat)

  /** A completed Stager method together with what it returned, or a dispatch. */
  datatype Event =
    | Staged(act: Action, began: int)
    | ConfirmOk(id: string, act: Action)
    | ConfirmErr(id: string)
    | DiscardOk(id: string)
    | DiscardErr(id: string)
    | Prune(now: int, maxAge: int, count: int)
    | GetOk(id: string, act: Action)
    | GetErr(id: string)
    | Listed(out: seq<Action>)
    | Dispatched(request: Request, origin: Origin)

  /** `out` shows every action of the board once, in any order. */
  ghost predicate Lists(b: Board, out: seq<Action>) {
    && (forall i :: 0 <= i < |out| ==> out[i].id in b && b[out[i].id] == out[i])
    && (forall i, j :: 0 <= i < j < |out| ==> out[i].id != out[j].id)
    && (forall id :: id in b ==> b[id] in out)
  }

  /** The atomic Stager: may `e` happen on board `b`, with the result it carries? */
  ghost predicate Can(b: Board, e: Event) {
    match e
    case Staged(act, _) => act.status == Pending
    case ConfirmOk(id, act) => id in b && b[id].status == Pending && act == b[id].(status := Confirmed)
    case ConfirmErr(id) => id in b ==> b[id].status != Pending
    case DiscardOk(id) => id in b
    case DiscardErr(id) => id !in b
    case Prune(now, maxAge, count) => count == |b| - |Pruned(b, Cutoff(now, maxAge))|
    case GetOk(id, act) => id in b && act == b[id]
    case GetErr(id) => id !in b
    case Listed(out) => Lists(b, out)
    case Dispatched(_, _) => true
  }

  function Apply(b: Board, e: Event): Board {
    match e
    case Staged(act, began) => Roomed(b, began)[act.id := act]
    case ConfirmOk(id, act) => b[id := act]
    case DiscardOk(id) => b - {id}
    case Prune(now, maxAge, _) => Pruned(b, Cutoff(now, maxAge))
    case _ => b
  }

  function After(log: seq<Event>): Board {
    if log == [] then map[] else Apply(After(log[..|log| - 1]), log[|log| - 1])
  }

  ghost predicate Legal(log: seq<Event>) {
    forall k :: 0 <= k < |log| ==> Can(After(log[..k]), log[k])
  }

  lemma LegalStep(log: seq<Event>, e: Event)
    requires Legal(log) && Can(After(log), e)
    ensures Legal(log + [e]) && After(log + [e]) == Apply(After(log), e)
  {
    hide Can, Apply;
    var more := log + [e];
    assert more[..|more| - 1] == log;
    forall k | 0 <= k < |more| ensures Can(After(more[..k]), more[k]) {
      if k < |log| { assert more[..k] == log[..k]; } else { assert more[..k] == log; }
    }
  }

  lemma LegalPrefix(log: seq<Event>, n: nat)
    requires Legal(log) && n <= |log|
    ensures Legal(log[..n])
  {
    hide Can, After;
    forall k | 0 <= k < n ensures Can(After(log[..n][..k]), log[..n][k]) {
      assert log[..n][..k] == log[..k];
    }
  }

  lemma AfterNext(log: seq<Event>, k: nat)
    requires k < |log|
    ensures After(log[..k + 1]) == Apply(After(log[..k]), log[k])
  {
    hide Apply;
    assert log[..k + 1][..k] == log[..k];
  }

  // ----- Pruning -----

  lemma {:induction false} KeptKeys(b: Board, cutoff: int)
    ensures Pruned(b, cutoff).Keys == set id | id in b && b[id].createdAt >= cutoff
    ensures |Pruned(b, cutoff)| <= |b|
  {
    var kept := Pruned(b, cutoff);
    assert kept.Keys <= b.Keys;
    SubsetSize(kept.Keys, b.Keys);
  }

  lemma {:induction false} SubsetSize<T>(a: set<T>, b: set<T>)
    requires a <= b
    ensures |a| <= |b|
  {
    assert b == a + (b - a) && a !! (b - a);
  }

  /** Two prunes in a row leave what the later cutoff alone leaves, and their counts add up to its count. */
  lemma PruneTwice(b: Board, first: int, second: int)
    requires first <= second
    ensures Pruned(Pruned(b, first), second) == Pruned(b, second)
    ensures (|b| - |Pruned(b, first)|) + (|Pruned(b, first)| - |Pruned(Pruned(b, first), second)|)
         == |b| - |Pruned(b, second)|
  {
    assert Pruned(Pruned(b, first), second) == Pruned(b, second);
  }

  /**
   What a prune keeps, in numbers: everything not older than `maxAge`, or than fifteen minutes if that is not
   positive.
   */
  lemma PruneKeepsYoung(b: Board, now: int, maxAge: int, count: int, id: string)
    ensures var b' := Apply(b, Prune(now, maxAge, count));
      && (id in b' <==>
            id in b && now - b[id].createdAt <= if maxAge <= 0 then 15 * 60 * 1_000_000_000 else maxAge)
      && (id in b' ==> b'[id] == b[id])
  {
  }

  /**
   What a staging keeps, in numbers: below a thousand actions everything, from there on everything not older than
   fifteen minutes; in any case the new action is held.
   */
  lemma StageKeepsYoung(b: Board, act: Action, began: int, id: string)
    ensures var b' := Apply(b, Staged(act, began));
      && act.id in b' && b'[act.id] == act
      && (id != act.id ==>
            && (id in b' <==> id in b && (|b| < 1000 || began - b[id].createdAt <= 15 * 60 * 1_000_000_000))
            && (id in b' ==> b'[id] == b[id]))
  {
  }

  // ----- Every board a history leads to -----

  /** Keys are action IDs and no discarded action is kept. */
  ghost predicate WellKept(b: Board) {
    forall id :: id in b ==> b[id].id == id && b[id].status != Discarded
  }

  lemma {:induction false} AlwaysWellKept(log: seq<Event>)
    requires Legal(log)
    ensures WellKept(After(log))
    decreases |log|
  {
    if log != [] {
      var n := |log| - 1;
      LegalPrefix(log, n);
      AlwaysWellKept(log[..n]);
      assert Can(After(log[..n]), log[n]);
    }
  }

  /** Position of the last staging of `id` before position `c`, or -1. */
  function LatestStage(log: seq<Event>, id: string, c: nat): (s: int)
    requires c <= |log|
    ensures -1 <= s < c
    ensures s >= 0 ==> log[s].Staged? && log[s].act.id == id
    ensures forall k :: s < k < c ==> !(log[k].Staged? && log[k].act.id == id)
    decreases c
  {
    if c == 0 then -1
    else if log[c - 1].Staged? && log[c - 1].act.id == id then c - 1
    else LatestStage(log, id, c - 1)
  }

  /** An event that does not stage `id` leaves its action alone, confirms it or removes it. */
  lemma EventKeeps(b: Board, e: Event, id: string)
    requires Can(b, e) && id in Apply(b, e) && !(e.Staged? && e.act.id == id)
    ensures id in b && Apply(b, e)[id].(status := Pending) == b[id].(status := Pending)
    ensures Apply(b, e)[id] == b[id] || (e.ConfirmOk? && b[id].status == Pending && Apply(b, e)[id].status == Confirmed)
  {
  }

  lemma EventStages(b: Board, e: Event)
    requires Can(b, e) && e.Staged?
    ensures e.act.id in Apply(b, e) && Apply(b, e)[e.act.id] == e.act && e.act.status == Pending
  {
  }

  /** What the board holds under an ID is what was last staged under it, except for the status. */
  lemma {:induction false} HeldIsLatest(log: seq<Event>, id: string, c: nat)
    requires Legal(log) && c <= |log| && id in After(log[..c])
    ensures var s := LatestStage(log, id, c);
      && s >= 0
      && After(log[..c])[id].(status := Pending) == log[s].act
      && (forall k :: s < k <= c ==> id in After(log[..k]))
    decreases c
  {
    hide Apply, Can, After, Legal;
    if c == 0 {
      NothingAtFirst(log);
    } else {
      AfterNext(log, c - 1);
      LegalAt(log, c - 1);
      var b, e := After(log[..c - 1]), log[c - 1];
      if e.Staged? && e.act.id == id {
        EventStages(b, e);
      } else {
        EventKeeps(b, e, id);
        HeldIsLatest(log, id, c - 1);
      }
    }
  }

  lemma LegalAt(log: seq<Event>, k: nat)
    requires Legal(log) && k < |log|
    ensures Can(After(log[..k]), log[k])
  {
    hide Can, After;
  }

  lemma NothingAtFirst(log: seq<Event>)
    ensures After(log[..0]) == map[]
  {
  }

  /** Under one staging, an action that is still pending was pending all along. */
  lemma {:induction false} PendingAllAlong(log: seq<Event>, id: string, c: nat, k: nat)
    requires Legal(log) && c <= |log| && id in After(log[..c]) && After(log[..c])[id].status == Pending
    requires 0 <= LatestStage(log, id, c) < k <= c
    ensures id in After(log[..k]) && After(log[..k])[id] == log[LatestStage(log, id, c)].act
    decreases c
  {
    hide Apply, Can, After;
    HeldIsLatest(log, id, c);
    if k < c {
      AfterNext(log, c - 1);
      assert Can(After(log[..c - 1]), log[c - 1]);
      EventKeeps(After(log[..c - 1]), log[c - 1], id);
      PendingAllAlong(log, id, c - 1, k);
    }
  }

  /**
   Every successful confirmation returns the action of the latest staging of its ID, and between
   the two the board held that action, pending: it was not confirmed, discarded, pruned or replaced.
   */
  lemma ConfirmHasItsStage(log: seq<Event>, c: nat)
    requires Legal(log) && c < |log| && log[c].ConfirmOk?
    ensures var s := LatestStage(log, log[c].id, c);
      && 0 <= s
      && log[c].act == log[s].act.(status := Confirmed)
      && (forall k :: s < k <= c ==> log[c].id in After(log[..k]) && After(log[..k])[log[c].id] == log[s].act)
  {
    hide After;
    var id := log[c].id;
    assert Can(After(log[..c]), log[c]);
    HeldIsLatest(log, id, c);
    forall k | LatestStage(log, id, c) < k <= c
      ensures id in After(log[..k]) && After(log[..k])[id] == log[LatestStage(log, id, c)].act
    {
      PendingAllAlong(log, id, c, k);
    }
  }

  /** One staging is confirmed at most once: different confirmations have different stagings. */
  lemma ConfirmsAreInjective(log: seq<Event>, c: nat, d: nat)
    requires Legal(log) && c < d < |log| && log[c].ConfirmOk? && log[d].ConfirmOk?
    ensures LatestStage(log, log[c].id, c) != LatestStage(log, log[d].id, d)
  {
    ConfirmHasItsStage(log, c);
    ConfirmHasItsStage(log, d);
    var s := LatestStage(log, log[d].id, d);
    assert log[s].act.status == Pending by { assert Can(After(log[..s]), log[s]); }
    assert s < c + 1 <= d ==> After(log[..c + 1])[log[d].id].status == Pending;
    AfterNext(log, c);
    assert After(log[..c + 1])[log[c].id].status == Confirmed;
  }

  function Stages(log: seq<Event>, id: string): nat {
    if log == [] then 0
    else Stages(log[..|log| - 1], id) + (if log[|log| - 1].Staged? && log[|log| - 1].act.id == id then 1 else 0)
  }

  function Confirms(log: seq<Event>, id: string): nat {
    if log == [] then 0
    else Confirms(log[..|log| - 1], id) + (if log[|log| - 1].ConfirmOk? && log[|log| - 1].id == id then 1 else 0)
  }

  /** With no assumption that IDs are fresh: no ID is confirmed more often than it was staged. */
  lemma {:induction false} ConfirmsNeverExceedStages(log: seq<Event>, id: string)
    requires Legal(log)
    ensures var b := After(log);
      Confirms(log, id) + (if id in b && b[id].status == Pending then 1 else 0) <= Stages(log, id)
    decreases |log|
  {
    if log != [] {
      var n := |log| - 1;
      LegalPrefix(log, n);
      ConfirmsNeverExceedStages(log[..n], id);
      assert Can(After(log[..n]), log[n]);
    }
  }

  /** A status only moves forward: a kept action is the same action, and a confirmed one stays confirmed. */
  lemma StatusMovesForward(log: seq<Event>, k: nat, id: string)
    requires Legal(log) && k < |log|
    requires id in After(log[..k]) && id in After(log[..k + 1])
    requires !(log[k].Staged? && log[k].act.id == id)
    ensures var old', new' := After(log[..k])[id], After(log[..k + 1])[id];
      new' == old' || (log[k].ConfirmOk? && old'.status == Pending && new' == old'.(status := Confirmed))
  {
    AfterNext(log, k);
    assert Can(After(log[..k]), log[k]);
  }

  // ----- How long an action stays -----

  /** The event takes an action that was created at `createdAt` and is held under `id` off the board. */
  predicate Drops(b: Board, e: Event, id: string, createdAt: int) {
    || (e.DiscardOk? && e.id == id)
    || (e.Prune? && createdAt < Cutoff(e.now, e.maxAge))
    || (e.Staged? && |b| >= MAX_CAPACITY && createdAt < Cutoff(e.began, DEFAULT_TTL))
  }

  lemma EventDrops(b: Board, e: Event, id: string)
    requires Can(b, e) && !(e.Staged? && e.act.id == id)
    ensures id in Apply(b, e) <==> id in b && !Drops(b, e, id, b[id].createdAt)
  {
  }

  /** After the last staging of its ID, an action is held exactly until an event drops it. */
  lemma {:induction false} HeldUntilDropped(log: seq<Event>, id: string, c: nat)
    requires Legal(log) && c <= |log|
    ensures var s := LatestStage(log, id, c);
      id in After(log[..c]) <==>
        s >= 0 && forall k :: s < k < c ==> !Drops(After(log[..k]), log[k], id, log[s].act.createdAt)
    decreases c
  {
    hide Apply, Can, After, Drops;
    if c == 0 {
      NothingAtFirst(log);
    } else {
      AfterNext(log, c - 1);
      var b, e := After(log[..c - 1]), log[c - 1];
      assert Can(b, e);
      if e.Staged? && e.act.id == id {
        EventStages(b, e);
      } else {
        HeldUntilDropped(log, id, c - 1);
        EventDrops(b, e, id);
        if id in b { HeldIsLatest(log, id, c - 1); }
      }
    }
  }

  predicate ConfirmsId(e: Event, id: string) { e.ConfirmOk? && e.id == id }

  /** An action is pending from its staging until it is confirmed. */
  lemma {:induction false} PendingUntilConfirmed(log: seq<Event>, id: string, c: nat)
    requires Legal(log) && c <= |log| && id in After(log[..c])
    ensures var s := LatestStage(log, id, c);
      s >= 0 && (After(log[..c])[id].status == Pending <==> forall k :: s < k < c ==> !ConfirmsId(log[k], id))
    decreases c
  {
    hide Apply, Can, After;
    HeldIsLatest(log, id, c);
    if c == 0 {
      NothingAtFirst(log);
    } else {
      AfterNext(log, c - 1);
      var b, e := After(log[..c - 1]), log[c - 1];
      assert Can(b, e);
      if e.Staged? && e.act.id == id {
        EventStages(b, e);
      } else {
        EventKeeps(b, e, id);
        PendingUntilConfirmed(log, id, c - 1);
        EventConfirms(b, e, id);
      }
    }
  }

  lemma EventConfirms(b: Board, e: Event, id: string)
    requires Can(b, e) && id in b && id in Apply(b, e) && !(e.Staged? && e.act.id == id)
    ensures Apply(b, e)[id].status == Pending <==> b[id].status == Pending && !ConfirmsId(e, id)
  {
  }

  /**
   An ID can be confirmed iff, since its last staging, nothing dropped or confirmed it: no discard, no confirmation,
   and no prune that its creation time fell behind. How old the action is by now does not enter.
   */
  lemma ConfirmableIff(log: seq<Event>, id: string)
    requires Legal(log)
    ensures var s := LatestStage(log, id, |log|);
      (exists act :: Can(After(log), ConfirmOk(id, act))) <==>
        s >= 0 && forall k :: s < k < |log| ==>
          !Drops(After(log[..k]), log[k], id, log[s].act.createdAt) && !ConfirmsId(log[k], id)
  {
    hide After, Drops;
    assert log[..|log|] == log;
    HeldUntilDropped(log, id, |log|);
    if id in After(log) {
      PendingUntilConfirmed(log, id, |log|);
      if After(log)[id].status == Pending {
        assert Can(After(log), ConfirmOk(id, After(log)[id].(status := Confirmed)));
      }
    }
  }

  /**
   Below capacity nothing expires by itself: an action of any age, here older than the TTL, can still be
   confirmed.
   */
  lemma ExpiredIsConfirmable(old': Action, new': Action)
    requires old'.status == new'.status == Pending && old'.id != new'.id
    requires new'.createdAt > old'.createdAt + DEFAULT_TTL
    ensures var log := [Staged(old', old'.createdAt), Staged(new', new'.createdAt)];
      Legal(log) && exists act :: Can(After(log), ConfirmOk(old'.id, act))
  {
    var first, log := [Staged(old', old'.createdAt)], [Staged(old', old'.createdAt), Staged(new', new'.createdAt)];
    LegalStep([], log[0]);
    assert [] + [log[0]] == first && first + [log[1]] == log && log[..1] == first;
    assert After(first) == map[old'.id := old'];
    assert |After(first)| == 1;
    LegalStep(first, log[1]);
    hide After, Can;
    assert LatestStage(log, old'.id, 2) == LatestStage(log, old'.id, 1) == 0;
    ConfirmableIff(log, old'.id);
  }

  // ----- What is announced as pending -----

  lemma {:induction false} SomeListing(b: Board, todo: set<string>) returns (out: seq<Action>)
    requires WellKept(b) && todo <= b.Keys
    ensures forall i :: 0 <= i < |out| ==> out[i].id in todo && b[out[i].id] == out[i]
    ensures forall i, j :: 0 <= i < j < |out| ==> out[i].id != out[j].id
    ensures forall id :: id in todo ==> b[id] in out
    decreases |todo|
  {
    if todo == {} {
      out := [];
    } else {
      var id :| id in todo;
      out := SomeListing(b, todo - {id});
      out := out + [b[id]];
    }
  }

  /** Every possible answer of the list shows pending actions only. */
  ghost predicate ListsOnlyPending(b: Board) {
    forall out: seq<Action> :: Lists(b, out) ==> forall i :: 0 <= i < |out| ==> out[i].status == Pending
  }

  lemma ListsHeld(b: Board)
    requires WellKept(b)
    ensures ListsOnlyPending(b) <==> forall id :: id in b ==> b[id].status == Pending
  {
    var all := SomeListing(b, b.Keys);
    assert Lists(b, all);
    if ListsOnlyPending(b) {
      forall id | id in b ensures b[id].status == Pending {
        var i :| 0 <= i < |all| && all[i] == b[id];
      }
    }
  }

  /** The list shows pending actions only iff nothing that is held has been confirmed since its last staging. */
  lemma ListsOnlyPendingIff(log: seq<Event>)
    requires Legal(log)
    ensures ListsOnlyPending(After(log)) <==>
        forall id :: id in After(log) ==>
          forall k :: LatestStage(log, id, |log|) < k < |log| ==> !ConfirmsId(log[k], id)
  {
    hide After, Legal, ListsOnlyPending, ConfirmsId;
    AlwaysWellKept(log);
    ListsHeld(After(log));
    assert log[..|log|] == log;
    forall id | id in After(log)
      ensures After(log)[id].status == Pending <==>
        forall k :: LatestStage(log, id, |log|) < k < |log| ==> !ConfirmsId(log[k], id)
    {
      PendingUntilConfirmed(log, id, |log|);
    }
  }

  /** A discard takes off a pending action iff it has not been confirmed since its last staging. */
  lemma DiscardsPendingIff(log: seq<Event>, d: nat)
    requires Legal(log) && d < |log| && log[d].DiscardOk?
    ensures var id := log[d].id;
      id in After(log[..d]) &&
      (After(log[..d])[id].status == Pending <==>
        forall k :: LatestStage(log, id, d) < k < d ==> !ConfirmsId(log[k], id))
  {
    hide After;
    LegalAt(log, d);
    PendingUntilConfirmed(log, log[d].id, d);
  }

  /** Staged and confirmed, an action can be discarded, and every list shows it. */
  lemma ConfirmedIsListedAndDiscardable(act: Action, began: int)
    requires act.status == Pending
    ensures var log := [Staged(act, began), ConfirmOk(act.id, act.(status := Confirmed))];
      && Legal(log) && Can(After(log), DiscardOk(act.id))
      && (exists out :: Lists(After(log), out))
      && (forall out :: Lists(After(log), out) ==> act.(status := Confirmed) in out)
      && !ListsOnlyPending(After(log))
  {
    var confirmed := act.(status := Confirmed);
    var first, log := [Staged(act, began)], [Staged(act, began), ConfirmOk(act.id, confirmed)];
    LegalStep([], log[0]);
    assert [] + [log[0]] == first && first + [log[1]] == log;
    assert After(first) == map[act.id := act];
    LegalStep(first, log[1]);
    var b := After(log);
    assert b == map[act.id := confirmed];
    hide After, Legal, Can, Apply;
    assert Lists(b, [confirmed]);
    assert [confirmed][0].status != Pending;
  }
}
