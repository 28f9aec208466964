/**
 The MCP handlers on top of the atomic Stager, any number of requests at once: `trigger_build`
 stages or dispatches, `confirm_action` confirms and later dispatches what it confirmed,
 `discard_staged_action` and `list_staged_actions` do what their names say.
 */
module Guardrail {
  import opened Staging

  type Tid = nat

  const TRIGGER_BUILD := "trigger_build"

  /** `act.Payload[key].(string)` with the zero value when absent or of another type. */
  function TextAt(payload: map<string, Any>, key: string): string {
    if key in payload && payload[key].Str? then payload[key].text else ""
  }

  function FlagAt(payload: map<string, Any>, key: string): bool {
    key in payload && payload[key].Flag? && payload[key].flag
  }

  function BuildPayload(flavor: string, backend: string, dryRun: bool): map<string, Any> {
    map["flavor" := Str(flavor), "backend" := Str(backend), "dry_run" := Flag(dryRun)]
  }

  /** The request `confirm_action` dispatches for a confirmed action. */
  function RequestOf(act: Action): Request {
    Request(TextAt(act.payload, "flavor"), TextAt(act.payload, "backend"), FlagAt(act.payload, "dry_run"))
  }

  /** A `confirm_action` request between its Confirm and its dispatch. */
  datatype Waiting = Waiting(act: Action, at: nat)

  datatype State = State(log: seq<Event>, waiting: map<Tid, Waiting>)

  datatype Step =
    | TriggerBuild(flavor: string, backend: string, dryRun: bool, confirmed: bool,
                   id: string, preview: string, began: int, now: int)
    | ConfirmAction(t: Tid, id: string)
    | Proceed(t: Tid)
    | DiscardAction(id: string)
    | ListActions(out: seq<Action>)
    | PruneActions(now: int, maxAge: int)

  ghost predicate Enabled(s: State, step: Step) {
    match step
    case TriggerBuild(_, _, _, _, _, _, _, _) => true
    case ConfirmAction(t, _) => t !in s.waiting
    case Proceed(t) => t in s.waiting
    case DiscardAction(_) => true
    case ListActions(out) => Lists(After(s.log), out)
    case PruneActions(_, _) => true
  }

  function Logged(s: State, e: Event): State { s.(log := s.log + [e]) }

  ghost function Take(s: State, step: Step): State
    requires Enabled(s, step)
  {
    var b := After(s.log);
    match step
    case TriggerBuild(flavor, backend, dryRun, confirmed, id, preview, began, now) =>
      if !dryRun && !confirmed then
        Logged(s, Staged(Action(id, TRIGGER_BUILD, flavor, BuildPayload(flavor, backend, dryRun), preview, Pending,
          now), began))
      else
        Logged(s, Dispatched(Request(flavor, backend, dryRun), Direct(confirmed)))
    case ConfirmAction(t, id) =>
      if id in b && b[id].status == Pending then
        var act := b[id].(status := Confirmed);
        State(s.log + [ConfirmOk(id, act)], s.waiting[t := Waiting(act, |s.log|)])
      else Logged(s, ConfirmErr(id))
    case Proceed(t) =>
      var w := s.waiting[t];
      var done := s.(waiting := s.waiting - {t});
      if w.act.tool == TRIGGER_BUILD then Logged(done, Dispatched(RequestOf(w.act), ForConfirm(w.at))) else done
    case DiscardAction(id) => Logged(s, if id in b then DiscardOk(id) else DiscardErr(id))
    case ListActions(out) => Logged(s, Listed(out))
    case PruneActions(now, maxAge) => Logged(s, Prune(now, maxAge, |b| - |Pruned(b, Cutoff(now, maxAge))|))
  }

  const START := State([], map[])

  ghost predicate Playable(s: State, steps: seq<Step>)
    decreases |steps|
  {
    steps == [] || (Enabled(s, steps[0]) && Playable(Take(s, steps[0]), steps[1..]))
  }

  ghost function Play(s: State, steps: seq<Step>): State
    requires Playable(s, steps)
    decreases |steps|
  {
    if steps == [] then s else Play(Take(s, steps[0]), steps[1..])
  }

  // ----- What every run keeps -----

  /** Only `trigger_build` without `dry_run` and `confirmed` stages anything. */
  ghost predicate StagingsAreBuilds(log: seq<Event>) {
    forall k :: 0 <= k < |log| && log[k].Staged? ==>
      var act := log[k].act;
      act.tool == TRIGGER_BUILD && exists backend :: act.payload == BuildPayload(act.target, backend, false)
  }

  /** Direct dispatches passed the guard; every other one belongs to a confirmation before it. */
  ghost predicate DispatchesHaveReasons(log: seq<Event>) {
    forall d :: 0 <= d < |log| && log[d].Dispatched? ==>
      match log[d].origin
      case Direct(confirmed) => confirmed || log[d].request.dryRun
      case ForConfirm(c) => c < d && log[c].ConfirmOk? && log[d].request == RequestOf(log[c].act)
  }

  predicate FromConfirm(e: Event) { e.Dispatched? && e.origin.ForConfirm? }

  /** No confirmation is dispatched twice, nor while another request still waits to dispatch it. */
  ghost predicate ConfirmsUsedOnce(s: State) {
    && (forall d, e :: 0 <= d < e < |s.log| && FromConfirm(s.log[d]) && s.log[e].Dispatched? ==>
          s.log[d].origin != s.log[e].origin)
    && (forall t :: t in s.waiting ==>
          var w := s.waiting[t];
          && w.at < |s.log| && s.log[w.at].ConfirmOk? && s.log[w.at].act == w.act
          && forall d :: 0 <= d < |s.log| && s.log[d].Dispatched? ==> s.log[d].origin != ForConfirm(w.at))
    && (forall t, u :: t in s.waiting && u in s.waiting && s.waiting[t].at == s.waiting[u].at ==> t == u)
  }

  ghost predicate Inv(s: State) {
    Legal(s.log) && StagingsAreBuilds(s.log) && DispatchesHaveReasons(s.log) && ConfirmsUsedOnce(s)
  }

  /** An event other than a dispatch or a staging leaves the other clauses alone. */
  lemma QuietEvent(s: State, e: Event)
    requires Inv(s) && Can(After(s.log), e) && !e.Staged? && !e.Dispatched?
    ensures Inv(Logged(s, e))
  {
    hide Can, After, Legal;
    LegalStep(s.log, e);
    var log := s.log + [e];
    assert forall k :: 0 <= k < |s.log| ==> log[k] == s.log[k];
  }

  lemma StagingEvent(s: State, e: Event)
    requires Inv(s) && Can(After(s.log), e) && e.Staged? && e.act.tool == TRIGGER_BUILD
    requires exists backend :: e.act.payload == BuildPayload(e.act.target, backend, false)
    ensures Inv(Logged(s, e))
  {
    hide Can, After, Legal, BuildPayload;
    LegalStep(s.log, e);
    var log := s.log + [e];
    assert forall k :: 0 <= k < |s.log| ==> log[k] == s.log[k];
  }

  lemma DirectDispatch(s: State, request: Request, confirmed: bool)
    requires Inv(s) && (confirmed || request.dryRun)
    ensures Inv(Logged(s, Dispatched(request, Direct(confirmed))))
  {
    hide After, Legal, BuildPayload;
    var e := Dispatched(request, Direct(confirmed));
    LegalStep(s.log, e);
    var log := s.log + [e];
    assert forall k :: 0 <= k < |s.log| ==> log[k] == s.log[k];
  }

  lemma ConfirmEvent(s: State, t: Tid, id: string, act: Action)
    requires Inv(s) && t !in s.waiting && Can(After(s.log), ConfirmOk(id, act))
    ensures Inv(State(s.log + [ConfirmOk(id, act)], s.waiting[t := Waiting(act, |s.log|)]))
  {
    hide Can, After, Legal, BuildPayload;
    var e := ConfirmOk(id, act);
    LegalStep(s.log, e);
    var log := s.log + [e];
    assert forall k :: 0 <= k < |s.log| ==> log[k] == s.log[k];
  }

  lemma ConfirmedDispatch(s: State, t: Tid)
    requires Inv(s) && t in s.waiting
    ensures var w := s.waiting[t];
      Inv(State(s.log + [Dispatched(RequestOf(w.act), ForConfirm(w.at))], s.waiting - {t}))
  {
    hide After, Legal, BuildPayload, RequestOf;
    var w := s.waiting[t];
    var e := Dispatched(RequestOf(w.act), ForConfirm(w.at));
    LegalStep(s.log, e);
    var log := s.log + [e];
    assert forall k :: 0 <= k < |s.log| ==> log[k] == s.log[k];
  }

  lemma TriggerKeeps(s: State, step: Step)
    requires Inv(s) && step.TriggerBuild?
    ensures Inv(Take(s, step))
  {
    hide Inv, After;
    if !step.dryRun && !step.confirmed {
      var payload := BuildPayload(step.flavor, step.backend, false);
      StagingEvent(s, Staged(Action(step.id, TRIGGER_BUILD, step.flavor, payload, step.preview, Pending, step.now),
        step.began));
    } else {
      DirectDispatch(s, Request(step.flavor, step.backend, step.dryRun), step.confirmed);
    }
  }

  lemma ConfirmKeeps(s: State, t: Tid, id: string)
    requires Inv(s) && t !in s.waiting
    ensures Inv(Take(s, ConfirmAction(t, id)))
  {
    hide Inv, After;
    var b := After(s.log);
    if id in b && b[id].status == Pending {
      ConfirmEvent(s, t, id, b[id].(status := Confirmed));
    } else {
      QuietEvent(s, ConfirmErr(id));
    }
  }

  lemma ForgetKeeps(s: State, t: Tid)
    requires Inv(s)
    ensures Inv(s.(waiting := s.waiting - {t}))
  {
    hide Legal, StagingsAreBuilds, DispatchesHaveReasons;
  }

  lemma ProceedKeeps(s: State, t: Tid)
    requires Inv(s) && t in s.waiting
    ensures Inv(Take(s, Proceed(t)))
  {
    hide Inv, After, RequestOf;
    if s.waiting[t].act.tool == TRIGGER_BUILD { ConfirmedDispatch(s, t); } else { ForgetKeeps(s, t); }
  }

  lemma OtherKeeps(s: State, step: Step)
    requires Inv(s) && Enabled(s, step) && (step.DiscardAction? || step.ListActions? || step.PruneActions?)
    ensures Inv(Take(s, step))
  {
    hide Inv, After, Pruned, Lists;
    var b := After(s.log);
    match step
    case DiscardAction(id) => QuietEvent(s, if id in b then DiscardOk(id) else DiscardErr(id));
    case ListActions(out) => QuietEvent(s, Listed(out));
    case PruneActions(now, maxAge) => QuietEvent(s, Prune(now, maxAge, |b| - |Pruned(b, Cutoff(now, maxAge))|));
  }

  lemma StepKeeps(s: State, step: Step)
    requires Inv(s) && Enabled(s, step)
    ensures Inv(Take(s, step))
  {
    hide Inv, Take, After;
    match step
    case TriggerBuild(_, _, _, _, _, _, _, _) => TriggerKeeps(s, step);
    case ConfirmAction(t, id) => ConfirmKeeps(s, t, id);
    case Proceed(t) => ProceedKeeps(s, t);
    case _ => OtherKeeps(s, step);
  }

  lemma {:induction false} PlayKeeps(s: State, steps: seq<Step>)
    requires Inv(s) && Playable(s, steps)
    ensures Inv(Play(s, steps))
    decreases |steps|
  {
    hide Inv, Enabled, Take;
    if steps != [] {
      StepKeeps(s, steps[0]);
      PlayKeeps(Take(s, steps[0]), steps[1..]);
    }
  }

  // ----- The guardrail -----

  /** The staging that justifies the dispatch at position `d`, or -1. */
  function Reason(log: seq<Event>, d: nat): int
    requires d < |log|
  {
    if log[d].Dispatched? && log[d].origin.ForConfirm? && log[d].origin.at < |log| && log[log[d].origin.at].ConfirmOk?
    then LatestStage(log, log[log[d].origin.at].id, log[d].origin.at)
    else -1
  }

  /** The staged build behind a dispatch: same flavor and backend, live, and held pending until it was confirmed. */
  ghost predicate Justified(log: seq<Event>, d: nat)
    requires d < |log| && log[d].Dispatched? && log[d].origin.ForConfirm?
  {
    var c := log[d].origin.at;
    var s := Reason(log, d);
    && 0 <= s < c < d && log[s].Staged? && log[c].ConfirmOk? && log[c].id == log[s].act.id
    && log[s].act.tool == TRIGGER_BUILD && log[s].act.target == log[d].request.flavor && !log[d].request.dryRun
    && log[s].act.payload == BuildPayload(log[d].request.flavor, log[d].request.backend, false)
    && (forall k :: s < k <= c ==> log[c].id in After(log[..k]) && After(log[..k])[log[c].id] == log[s].act)
  }

  lemma ReasonIsStaging(s: State, d: nat)
    requires Inv(s) && d < |s.log| && s.log[d].Dispatched? && s.log[d].origin.ForConfirm?
    ensures Justified(s.log, d)
  {
    hide After, Legal;
    var log := s.log;
    var c := log[d].origin.at;
    ConfirmHasItsStage(log, c);
    var st := LatestStage(log, log[c].id, c);
    var act := log[st].act;
    var backend :| act.payload == BuildPayload(act.target, backend, false);
  }

  lemma ReasonsDiffer(s: State, d: nat, e: nat)
    requires Inv(s) && d < e < |s.log|
    requires s.log[d].Dispatched? && s.log[d].origin.ForConfirm? && s.log[e].Dispatched? && s.log[e].origin.ForConfirm?
    ensures Reason(s.log, d) != Reason(s.log, e)
  {
    hide After, Legal, StagingsAreBuilds;
    var c, f := s.log[d].origin.at, s.log[e].origin.at;
    assert s.log[d].origin != s.log[e].origin;
    if c < f { ConfirmsAreInjective(s.log, c, f); } else { ConfirmsAreInjective(s.log, f, c); }
  }

  /**
   A live dispatch either comes from a `trigger_build` call that carried `confirmed`, or is justified by an
   earlier staging of the same flavor and backend that stayed pending until its confirmation; no staging
   justifies two dispatches, and what is dispatched for a confirmation is always live.
   */
  ghost predicate JustifiedThroughout(log: seq<Event>) {
    && (forall d :: 0 <= d < |log| && log[d].Dispatched? && !log[d].request.dryRun ==>
          log[d].origin == Direct(true) || (log[d].origin.ForConfirm? && Justified(log, d)))
    && (forall d :: 0 <= d < |log| && log[d].Dispatched? && log[d].origin.ForConfirm? ==> Justified(log, d))
    && (forall d, e :: 0 <= d < e < |log| && FromConfirm(log[d]) && FromConfirm(log[e]) ==>
        Reason(log, d) != Reason(log, e))
  }

  /** In every run of concurrent handlers on the atomic Stager every dispatch is justified. */
  lemma EveryDispatchIsJustified(steps: seq<Step>)
    requires Playable(START, steps)
    ensures JustifiedThroughout(Play(START, steps).log)
  {
    hide Playable, Play, Inv, JustifiedThroughout;
    StartIsFine();
    PlayKeeps(START, steps);
    InvJustifies(Play(START, steps));
  }

  lemma InvJustifies(s: State)
    requires Inv(s)
    ensures JustifiedThroughout(s.log)
  {
    hide After, Legal, Justified, Reason, StagingsAreBuilds, ConfirmsUsedOnce;
    forall d: nat | d < |s.log| && s.log[d].Dispatched? && s.log[d].origin.ForConfirm? ensures Justified(s.log, d) {
      ReasonIsStaging(s, d);
    }
    forall d: nat, e: nat | d < e < |s.log| && FromConfirm(s.log[d]) && FromConfirm(s.log[e])
      ensures Reason(s.log, d) != Reason(s.log, e)
    {
      ReasonsDiffer(s, d, e);
    }
  }

  lemma StartIsFine()
    ensures Inv(START)
  {
  }
}
