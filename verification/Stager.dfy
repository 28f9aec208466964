/**
 The Stager as the heap object it is: a map of pointers to actions whose status is written in
 place.  Each method is tied to the event it performs on the board (module `Staging`).
 */
module Stager {
  import opened Staging

  /** A staged action; callers keep pointers to it, and only its status ever changes. */
  class StagedAction {
    const id: string
    const tool: string
    const target: string
    const payload: map<string, Any>
    const preview: string
    const createdAt: int
    var status: Status

    constructor (id: string, tool: string, target: string, payload: map<string, Any>, preview: string, createdAt: int)
      ensures View() == Action(id, tool, target, payload, preview, Pending, createdAt)
    {
      this.id, this.tool, this.target, this.payload, this.preview := id, tool, target, payload, preview;
      this.createdAt := createdAt;
      this.status := Pending;
    }

    function View(): Action
      reads this
    {
      Action(id, tool, target, payload, preview, status, createdAt)
    }
  }

  /** What a map of pointers shows at this moment. */
  ghost function Snapshot(actions: map<string, StagedAction>): (b: Board)
    reads actions.Values
    ensures b.Keys == actions.Keys && |b| == |actions|
  {
    var b := map id | id in actions :: actions[id].View();
    assert b.Keys == actions.Keys && |b| == |b.Keys| && |actions| == |actions.Keys|;
    b
  }

  lemma SnapshotPruned(before: map<string, StagedAction>, after: map<string, StagedAction>, now: int, maxAge: int)
    requires WellKept(Snapshot(before))
    requires forall id :: id in after <==> id in before && !(before[id].createdAt < Cutoff(now, maxAge))
    requires forall id :: id in after ==> after[id] == before[id]
    ensures Snapshot(after) == Pruned(Snapshot(before), Cutoff(now, maxAge)) && WellKept(Snapshot(after))
    ensures Can(Snapshot(before), Prune(now, maxAge, |before| - |after|))
  {
  }

  lemma SnapshotInserted(room: map<string, StagedAction>, id: string, act: StagedAction)
    requires WellKept(Snapshot(room)) && act.id == id && act.status == Pending
    ensures Snapshot(room[id := act]) == Snapshot(room)[id := act.View()] && WellKept(Snapshot(room[id := act]))
  {
  }

  lemma SnapshotDropped(actions: map<string, StagedAction>, id: string, was: Board)
    requires id in actions && was.Keys == actions.Keys && WellKept(was)
    requires forall k :: k in actions && k != id ==> actions[k].View() == was[k]
    ensures Snapshot(actions - {id}) == was - {id} && WellKept(was - {id})
  {
  }

  lemma DiscardEvents(b: Board, id: string)
    ensures Apply(b, DiscardOk(id)) == b - {id} && (Can(b, DiscardErr(id)) <==> id !in b)
  {
  }

  lemma SnapshotShows(actions: map<string, StagedAction>)
    requires WellKept(Snapshot(actions))
    ensures forall k :: k in actions ==> Snapshot(actions)[k] == actions[k].View() && actions[k].id == k
  {
  }

  /** Writing one action in place changes the board at its own ID only. */
  lemma SnapshotWritten(actions: map<string, StagedAction>, id: string, was: Board)
    requires id in actions && was.Keys == actions.Keys
    requires forall k :: k in actions && k != id ==> actions[k].View() == was[k]
    ensures Snapshot(actions) == was[id := actions[id].View()]
  {
  }

  /** A walk that meets every pointer once lists the board. */
  ghost predicate Walked(actions: map<string, StagedAction>, out: seq<StagedAction>) {
    && (forall i :: 0 <= i < |out| ==> out[i].id in actions && actions[out[i].id] == out[i])
    && (forall i, j :: 0 <= i < j < |out| ==> out[i].id != out[j].id)
    && (forall id :: id in actions ==> actions[id] in out)
  }

  lemma SnapshotListed(actions: map<string, StagedAction>, out: seq<StagedAction>)
    requires Walked(actions, out)
    ensures Lists(Snapshot(actions), Views(out))
  {
    hide Views;
    var b := Snapshot(actions);
    forall i | 0 <= i < |out| ensures Views(out)[i].id in b && b[Views(out)[i].id] == Views(out)[i] {
      assert Views(out)[i] == out[i].View();
    }
    forall id | id in b ensures b[id] in Views(out) {
      var i :| 0 <= i < |out| && out[i] == actions[id];
      assert Views(out)[i] == b[id];
    }
  }

  ghost function Views(out: seq<StagedAction>): (views: seq<Action>)
    reads out
    ensures |views| == |out| && forall i :: 0 <= i < |out| ==> views[i] == out[i].View()
  {
    if out == [] then [] else Views(out[..|out| - 1]) + [out[|out| - 1].View()]
  }

  class Stager {
    var actions: map<string, StagedAction>

    ghost function Contents(): (b: Board)
      reads this, actions.Values
    {
      Snapshot(actions)
    }

    ghost predicate Valid()
      reads this, actions.Values
    {
      WellKept(Contents())
    }

    constructor ()
      ensures Valid() && Contents() == map[]
    {
      actions := map[];
    }

    /** The keys of the map and the objects they point to, apart from what `except` lists. */
    twostate predicate SamePointers(except: set<string>)
      reads this
    {
      forall id :: id in actions && id !in except ==> id in old(actions) && actions[id] == old(actions[id])
    }

    /** Removes every action created before the cutoff, in whatever order the map is walked. */
    method PruneLocked(maxAge: int, now: int) returns (pruned: nat)
      requires Valid()
      modifies this
      ensures Valid() && SamePointers({})
      ensures Contents() == Pruned(old(Contents()), Cutoff(now, maxAge))
      ensures Can(old(Contents()), Prune(now, maxAge, pruned))
      ensures forall id :: id in actions <==>
        id in old(actions)
        && now - old(actions)[id].createdAt <= if maxAge <= 0 then 15 * 60 * 1_000_000_000 else maxAge
      ensures pruned == |old(actions)| - |actions|
    {
      hide Snapshot, Pruned, WellKept, Can;
      var age := if maxAge <= 0 then DEFAULT_TTL else maxAge;
      var cutoff := now - age;
      pruned := 0;
      var todo := actions.Keys;
      ghost var before := actions;
      while todo != {}
        invariant todo <= actions.Keys
        invariant forall id :: id in actions <==> id in before && (id in todo || !(before[id].createdAt < cutoff))
        invariant forall id :: id in actions ==> actions[id] == before[id]
        invariant pruned == |before| - |actions|
        decreases |todo|
      {
        var id :| id in todo;
        todo := todo - {id};
        if actions[id].createdAt < cutoff {
          actions := actions - {id};
          pruned := pruned + 1;
        }
      }
      SnapshotPruned(before, actions, now, maxAge);
    }

    /** Prunes if the board is full, then inserts; an action already held under `id` is replaced. */
    method Stage(tool: string, target: string, payload: map<string, Any>, preview: string,
                 id: string, began: int, now: int) returns (act: StagedAction)
      requires Valid()
      modifies this
      ensures Valid() && SamePointers({id})
      ensures fresh(act) && id in actions && actions[id] == act
      ensures act.View() == Action(id, tool, target, payload, preview, Pending, now)
      ensures Contents() == Apply(old(Contents()), Staged(act.View(), began))
      ensures |old(actions)| < 1000 ==> actions == old(actions)[id := act]
      ensures |old(actions)| >= 1000 ==> forall k :: k in actions <==>
        k == id || (k in old(actions) && began - old(actions)[k].createdAt <= 15 * 60 * 1_000_000_000)
    {
      hide Snapshot, Pruned, WellKept, Can;
      if |actions| >= MAX_CAPACITY {
        var _ := PruneLocked(DEFAULT_TTL, began);
      }
      assert Contents() == Roomed(old(Contents()), began);
      act := new StagedAction(id, tool, target, payload, preview, now);
      SnapshotInserted(actions, id, act);
      actions := actions[id := act];
    }

    /** The pointer itself, not a copy. */
    method Get(id: string) returns (act: StagedAction?)
      requires Valid()
      ensures act == if id in actions then actions[id] else null
      ensures Can(Contents(), if act != null then GetOk(id, act.View()) else GetErr(id))
    {
      if id in actions { act := actions[id]; } else { act := null; }
    }

    /** A copy of the list of pointers, in whatever order the map is walked. */
    method List() returns (out: seq<StagedAction>)
      requires Valid()
      ensures forall i :: 0 <= i < |out| ==> out[i] in actions.Values
      ensures Lists(Contents(), Views(out))
    {
      hide Lists, Views;
      out := [];
      var todo := actions.Keys;
      while todo != {}
        invariant todo <= actions.Keys
        invariant forall i :: 0 <= i < |out| ==>
            out[i].id in actions && out[i].id !in todo && actions[out[i].id] == out[i]
        invariant forall i, j :: 0 <= i < j < |out| ==> out[i].id != out[j].id
        invariant forall id :: id in actions ==> id in todo || actions[id] in out
        decreases |todo|
      {
        var id :| id in todo;
        todo := todo - {id};
        assert Contents()[id].id == id;
        out := out + [actions[id]];
      }
      SnapshotListed(actions, out);
    }

    /** Confirms in place: every holder of the pointer sees the new status. */
    method Confirm(id: string) returns (act: StagedAction?)
      requires Valid()
      modifies if id in actions then {actions[id]} else {}
      ensures Valid() && actions == old(actions)
      ensures act != null <==> id in actions && old(actions[id].status) == Pending
      ensures act != null ==> act == actions[id] && Can(old(Contents()), ConfirmOk(id, act.View()))
                              && Contents() == Apply(old(Contents()), ConfirmOk(id, act.View()))
      ensures act != null ==> act.status == Confirmed
      ensures act == null ==> Can(old(Contents()), ConfirmErr(id)) && Contents() == old(Contents())
    {
      if id !in actions { return null; }
      var found := actions[id];
      if found.status != Pending { return null; }
      SnapshotShows(actions);
      ghost var was := Contents();
      found.status := Confirmed;
      SnapshotWritten(actions, id, was);
      return found;
    }

    /** Marks the action discarded and drops it; the pointer others hold shows the new status. */
    method Discard(id: string) returns (ok: bool)
      requires Valid()
      modifies this, if id in actions then {actions[id]} else {}
      ensures Valid() && SamePointers({})
      ensures ok <==> id in old(actions)
      ensures actions == old(actions) - {id}
      ensures ok ==> Contents() == Apply(old(Contents()), DiscardOk(id)) && old(actions[id]).status == Discarded
      ensures !ok ==> Can(old(Contents()), DiscardErr(id)) && Contents() == old(Contents())
    {
      hide Snapshot, WellKept, Can, Apply;
      ghost var was := Contents();
      DiscardEvents(was, id);
      if id !in actions { return false; }
      SnapshotShows(actions);
      var act := actions[id];
      ghost var before := actions;
      act.status := Discarded;
      actions := actions - {id};
      SnapshotDropped(before, id, was);
      return true;
    }
  }
}
