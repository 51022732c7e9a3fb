/**
 Idempotent submission: claiming a request key, releasing it, its expiry, and the one enqueue
 that an acquired claim may lead to, over all interleavings of any number of `execute` calls.

 A call is identified by the task id it proposes, which is fresh.  `bound` lists every binding a
 key ever had; `live` maps a key to the binding it holds now, until that is released or expires.
 */
module Submissions {
  import opened Common
  import opened IntentTasks
  import opened QueueProtocol

  type RequestKey = string

  datatype Binding = Binding(key: RequestKey, value: TaskId)

  /** A claim's answer, with the binding (its position in `bound`) that was live when it was given. */
  datatype Answer = Answer(caller: TaskId, life: nat, value: TaskId, acquired: bool)

  /** What an `execute` call does next. */
  datatype CallStep = SetNx(round: nat) | Get(round: nat) | TouchSession | BuildTask | EnqueueTask | Release

  datatype Call = Call(key: RequestKey, step: CallStep)

  datatype Removal = Removal(caller: TaskId, life: nat)

  datatype Desk = Desk(
    bound: seq<Binding>,
    live: map<RequestKey, nat>,
    calls: map<TaskId, Call>,
    requests: map<TaskId, IntentInput>,
    begun: set<TaskId>,
    answers: seq<Answer>,
    removals: seq<Removal>,
    enqueued: seq<TaskId>)
  {
    function Holder(key: RequestKey): Option<TaskId> {
      if key in live && live[key] < |bound| then Some(bound[live[key]].value) else None
    }
  }

  const EMPTY_DESK := Desk([], map[], map[], map[], {}, [], [], [])

  /** Claims are tried in two rounds of SET NX and GET. */
  const ROUNDS: nat := 2

  datatype DeskAction =
    | Begin(caller: TaskId, key: RequestKey, raw: IntentInput)
    | Proceed(caller: TaskId, outcome: Outcome)
    | GiveUp(caller: TaskId)
    | Expire(key: RequestKey)

  function MoveTo(desk: Desk, caller: TaskId, step: CallStep): Desk
    requires caller in desk.calls
  {
    desk.(calls := desk.calls[caller := desk.calls[caller].(step := step)])
  }

  function EndCall(desk: Desk, caller: TaskId): Desk {
    desk.(calls := desk.calls - {caller})
  }

  /** SET key value NX: a new binding if the key is free. */
  function Bind(desk: Desk, key: RequestKey, value: TaskId): Desk {
    if key in desk.live then desk
    else desk.(bound := desk.bound + [Binding(key, value)], live := desk.live[key := |desk.bound|])
  }

  /** The compare-and-delete script. */
  function Unbind(desk: Desk, key: RequestKey, value: TaskId): Desk {
    if desk.Holder(key) == Some(value)
    then desk.(live := desk.live - {key}, removals := desk.removals + [Removal(value, desk.live[key])])
    else desk
  }

  function AnswerWith(desk: Desk, caller: TaskId, acquired: bool): Desk
    requires caller in desk.calls && desk.Holder(desk.calls[caller].key).Some?
  {
    var key := desk.calls[caller].key;
    desk.(answers := desk.answers + [Answer(caller, desk.live[key], desk.Holder(key).value, acquired)])
  }

  /** The constructor of the task accepts the call's request. */
  predicate Builds(requests: map<TaskId, IntentInput>, caller: TaskId) {
    caller in requests && TaskFor(caller, requests[caller], "", 0).Ok?
  }

  /** A call begins with an accepted request and a fresh proposal. */
  function BeginCall(desk: Desk, caller: TaskId, key: RequestKey, input: IntentInput): Desk {
    desk.(begun := desk.begun + {caller},
          calls := desk.calls[caller := Call(key, SetNx(0))],
          requests := desk.requests[caller := input])
  }

  /** An id as `execute` proposes it: not used before, and without white space around it. */
  predicate Proposable(desk: Desk, caller: TaskId) {
    caller !in desk.begun && caller != "" && Stripped(caller)
  }

  function ProceedCall(desk: Desk, caller: TaskId, outcome: Outcome): Desk
    requires caller in desk.calls
  {
    var key := desk.calls[caller].key;
    match desk.calls[caller].step
    case SetNx(round) =>
      if !Ran(outcome) then EndCall(desk, caller)
      else if key in desk.live then
        (if outcome.Succeeds? then MoveTo(desk, caller, Get(round)) else EndCall(desk, caller))
      else
        var held := Bind(desk, key, caller);
        (if outcome.Succeeds? then MoveTo(AnswerWith(held, caller, true), caller, TouchSession) else EndCall(held, caller))
    case Get(round) =>
      if outcome.Raises? then EndCall(desk, caller)
      else if desk.Holder(key).Some? then EndCall(AnswerWith(desk, caller, false), caller)
      else if round + 1 < ROUNDS then MoveTo(desk, caller, SetNx(round + 1))
      else EndCall(desk, caller)
    case TouchSession =>
      MoveTo(desk, caller, if outcome.Succeeds? then BuildTask else Release)
    case BuildTask =>
      // the lookup of the conversation's size may fail; then the priority is 0
      if Builds(desk.requests, caller) then MoveTo(desk, caller, EnqueueTask) else EndCall(desk, caller)
    case EnqueueTask =>
      var sent := if Ran(outcome) then desk.(enqueued := desk.enqueued + [caller]) else desk;
      if outcome.Succeeds? then EndCall(sent, caller) else MoveTo(sent, caller, Release)
    case Release =>
      EndCall(if Ran(outcome) then Unbind(desk, key, caller) else desk, caller)
  }

  function ApplyDesk(desk: Desk, a: DeskAction): Desk {
    match a
    case Begin(caller, key, raw) =>
      // the command object refuses a bad request before `execute` is called
      if MakeInput(raw).Err? || !Proposable(desk, caller) then desk
      else BeginCall(desk, caller, key, MakeInput(raw).value)
    case Proceed(caller, outcome) => if caller in desk.calls then ProceedCall(desk, caller, outcome) else desk
    case GiveUp(caller) => EndCall(desk, caller)
    case Expire(key) => desk.(live := desk.live - {key})
  }

  function RunDesk(desk: Desk, trace: seq<DeskAction>): Desk
    decreases |trace|
  {
    if trace == [] then desk else ApplyDesk(RunDesk(desk, trace[..|trace| - 1]), trace[|trace| - 1])
  }

  // ---------------------------------------------------------------- what every step keeps

  /** The ids that ever held a key. */
  function Holders(bound: seq<Binding>): set<TaskId> {
    set b <- bound :: b.value
  }

  /** No id ever held a key twice, and no id is enqueued twice. */
  ghost predicate BoundOnce(bound: seq<Binding>) {
    forall i, j | 0 <= i < j < |bound| :: bound[i].value != bound[j].value
  }

  ghost predicate NoRepeats(ids: seq<TaskId>) {
    forall i, j | 0 <= i < j < |ids| :: ids[i] != ids[j]
  }

  ghost predicate LiveOk(live: map<RequestKey, nat>, bound: seq<Binding>) {
    forall key <- live :: live[key] < |bound| && bound[live[key]].key == key
  }

  /** A call holds its key from its SET NX on, and enqueues only in its last step but one. */
  ghost predicate CallsOk(calls: map<TaskId, Call>, holders: set<TaskId>, enqueued: seq<TaskId>, begun: set<TaskId>) {
    && (forall caller <- calls :: caller in begun)
    && (forall caller <- calls :: caller in enqueued ==> calls[caller].step == Release)
    && (forall caller <- calls :: caller in holders <==> !calls[caller].step.SetNx? && !calls[caller].step.Get?)
  }

  ghost predicate IdsOk(holders: set<TaskId>, enqueued: seq<TaskId>, begun: set<TaskId>) {
    holders <= begun && forall id <- enqueued :: id in holders
  }

  /** Each answer names the binding it saw; an acquired one is the first answer of its binding. */
  ghost predicate AnswersOk(answers: seq<Answer>, bound: seq<Binding>) {
    && (forall i | 0 <= i < |answers| :: answers[i].life < |bound| && answers[i].value == bound[answers[i].life].value)
    && (forall i, j | 0 <= i < j < |answers| && answers[j].acquired :: answers[i].life < answers[j].life)
  }

  ghost predicate RemovalsOk(removals: seq<Removal>, bound: seq<Binding>) {
    forall r <- removals :: r.life < |bound| && bound[r.life].value == r.caller
  }

  /** Every call's request is one from which its task can be built. */
  ghost predicate RequestsOk(calls: map<TaskId, Call>, requests: map<TaskId, IntentInput>) {
    forall caller <- calls :: Stripped(caller) && Builds(requests, caller)
  }

  ghost predicate DeskOk(desk: Desk) {
    && RequestsOk(desk.calls, desk.requests)
    && BoundOnce(desk.bound)
    && NoRepeats(desk.enqueued)
    && LiveOk(desk.live, desk.bound)
    && CallsOk(desk.calls, Holders(desk.bound), desk.enqueued, desk.begun)
    && IdsOk(Holders(desk.bound), desk.enqueued, desk.begun)
    && AnswersOk(desk.answers, desk.bound)
    && RemovalsOk(desk.removals, desk.bound)
  }

  lemma BindingKeepsCalls(desk: Desk, key: RequestKey, value: TaskId)
    ensures Bind(desk, key, value).calls == desk.calls && Unbind(desk, key, value).calls == desk.calls
    ensures key !in desk.live ==> Bind(desk, key, value).Holder(key) == Some(value)
  {
  }

  lemma HoldersAppend(bound: seq<Binding>, b: Binding)
    ensures Holders(bound + [b]) == Holders(bound) + {b.value}
    ensures BoundOnce(bound) && b.value !in Holders(bound) ==> BoundOnce(bound + [b])
  {
    var after := bound + [b];
    assert b in after && forall c <- bound :: c in after;
    forall i | 0 <= i < |bound| ensures bound[i].value in Holders(bound) {
      assert bound[i] in bound;
    }
  }

  /** The binding a call makes when its key is free, whether or not it hears of it. */
  lemma BindIsOk(desk: Desk, caller: TaskId)
    requires DeskOk(desk)
    requires caller in desk.calls && desk.calls[caller].step.SetNx? && desk.calls[caller].key !in desk.live
    ensures var held := Bind(desk, desk.calls[caller].key, caller);
            && DeskOk(EndCall(held, caller))
            && DeskOk(MoveTo(AnswerWith(held, caller, true), caller, TouchSession))
  {
    hide Builds, Stripped, Holders;
    var key := desk.calls[caller].key;
    HoldersAppend(desk.bound, Binding(key, caller));
    var bound := desk.bound + [Binding(key, caller)];
    assert LiveOk(desk.live[key := |desk.bound|], bound);
    assert RemovalsOk(desk.removals, bound);
    var answer := Answer(caller, |desk.bound|, caller, true);
    assert AnswersOk(desk.answers, bound) && AnswersOk(desk.answers + [answer], bound);
    assert CallsOk(desk.calls - {caller}, Holders(bound), desk.enqueued, desk.begun);
    assert CallsOk(desk.calls[caller := Call(key, TouchSession)], Holders(bound), desk.enqueued, desk.begun);
  }

  /** A call that keeps or lacks its binding may move on, or end. */
  lemma MoveIsOk(desk: Desk, caller: TaskId, step: CallStep)
    requires DeskOk(desk) && caller in desk.calls
    requires (step.SetNx? || step.Get?) == (desk.calls[caller].step.SetNx? || desk.calls[caller].step.Get?)
    requires desk.calls[caller].step == Release ==> step == Release
    ensures DeskOk(EndCall(desk, caller))
    ensures caller in desk.enqueued ==> desk.calls[caller].step == Release
    ensures DeskOk(MoveTo(desk, caller, step))
  {
    hide Builds, Stripped, Holders, BoundOnce, RemovalsOk, AnswersOk, NoRepeats, LiveOk;
  }

  lemma AnswerIsOk(desk: Desk, caller: TaskId)
    requires DeskOk(desk) && caller in desk.calls && desk.Holder(desk.calls[caller].key).Some?
    ensures DeskOk(AnswerWith(desk, caller, false))
  {
    hide Builds, Stripped, Holders, BoundOnce, RemovalsOk, NoRepeats, LiveOk, CallsOk, IdsOk;
  }

  lemma EnqueueIsOk(desk: Desk, caller: TaskId)
    requires DeskOk(desk) && caller in desk.calls && desk.calls[caller].step == EnqueueTask
    ensures var sent := desk.(enqueued := desk.enqueued + [caller]);
            DeskOk(EndCall(sent, caller)) && DeskOk(MoveTo(sent, caller, Release))
  {
    hide Builds, Stripped, Holders, BoundOnce, RemovalsOk, AnswersOk, LiveOk;
    assert caller !in desk.enqueued;
    assert NoRepeats(desk.enqueued + [caller]);
  }

  lemma ReleaseIsOk(desk: Desk, caller: TaskId)
    requires DeskOk(desk) && caller in desk.calls && desk.calls[caller].step == Release
    ensures DeskOk(EndCall(desk, caller))
    ensures DeskOk(EndCall(Unbind(desk, desk.calls[caller].key, caller), caller))
  {
    hide Builds, Stripped, Holders, BoundOnce, NoRepeats, AnswersOk;
  }

  lemma ProceedIsOk(desk: Desk, caller: TaskId, outcome: Outcome)
    requires DeskOk(desk) && caller in desk.calls
    ensures DeskOk(ProceedCall(desk, caller, outcome))
  {
    hide DeskOk, Bind, Unbind, TaskFor;
    var key := desk.calls[caller].key;
    MoveIsOk(desk, caller, desk.calls[caller].step);
    match desk.calls[caller].step
    case SetNx(round) =>
      MoveIsOk(desk, caller, Get(round));
      if key !in desk.live { BindIsOk(desk, caller); }
    case Get(round) =>
      MoveIsOk(desk, caller, SetNx(round + 1));
      if desk.Holder(key).Some? {
        AnswerIsOk(desk, caller);
        MoveIsOk(AnswerWith(desk, caller, false), caller, Get(round));
      }
    case TouchSession =>
      MoveIsOk(desk, caller, BuildTask);
      MoveIsOk(desk, caller, Release);
    case BuildTask =>
      MoveIsOk(desk, caller, EnqueueTask);
    case EnqueueTask =>
      MoveIsOk(desk, caller, Release);
      EnqueueIsOk(desk, caller);
    case Release =>
      ReleaseIsOk(desk, caller);
  }

  lemma BeginIsOk(desk: Desk, caller: TaskId, key: RequestKey, raw: IntentInput)
    requires DeskOk(desk)
    ensures DeskOk(ApplyDesk(desk, Begin(caller, key, raw)))
  {
    hide Holders, BoundOnce, RemovalsOk, AnswersOk, NoRepeats, LiveOk, MakeInput, TaskFor, Stripped;
    if MakeInput(raw).Ok? && Proposable(desk, caller) {
      AcceptedInputBuilds(caller, raw, "", 0);
    }
  }

  lemma StepIsOk(desk: Desk, a: DeskAction)
    requires DeskOk(desk)
    ensures DeskOk(ApplyDesk(desk, a))
  {
    match a
    case Begin(caller, key, raw) => BeginIsOk(desk, caller, key, raw);
    case Proceed(caller, outcome) =>
      if caller in desk.calls { ProceedIsOk(desk, caller, outcome); }
    case _ =>
  }

  lemma {:induction false} RunIsOk(trace: seq<DeskAction>)
    ensures DeskOk(RunDesk(EMPTY_DESK, trace))
    decreases |trace|
  {
    if trace != [] {
      RunIsOk(trace[..|trace| - 1]);
      StepIsOk(RunDesk(EMPTY_DESK, trace[..|trace| - 1]), trace[|trace| - 1]);
    }
  }

  /**
   One lifetime, one answer.  Over all interleavings of claims, releases and expiry, any two claims
   answered while the same binding was live got the same task id, and at most one of them was told
   that it acquired the key.
   */
  lemma OneLifetimeOneAnswer(trace: seq<DeskAction>, desk: Desk, i: nat, j: nat)
    requires desk == RunDesk(EMPTY_DESK, trace)
    requires i < |desk.answers| && j < |desk.answers|
    requires desk.answers[i].life == desk.answers[j].life
    ensures desk.answers[i].value == desk.answers[j].value
    ensures desk.answers[i].acquired && desk.answers[j].acquired ==> i == j
  {
    RunIsOk(trace);
  }

  /**
   A stale owner's release never removes a newer binding: whatever binding a release deletes is
   the very one that the same call made, and no other binding ever held that call's id.
   */
  lemma ReleaseRemovesOwnBinding(trace: seq<DeskAction>, desk: Desk, r: Removal, life: nat)
    requires desk == RunDesk(EMPTY_DESK, trace)
    requires r in desk.removals && life < |desk.bound|
    ensures desk.bound[life].value == r.caller <==> life == r.life
  {
    RunIsOk(trace);
  }

  /**
   Each binding leads to at most one enqueued message: no id is enqueued twice, and every enqueued
   id is the value of exactly one binding.
   */
  lemma EnqueuedAtMostOncePerBinding(trace: seq<DeskAction>, desk: Desk, i: nat)
    requires desk == RunDesk(EMPTY_DESK, trace)
    requires i < |desk.enqueued|
    ensures forall j | 0 <= j < |desk.enqueued| && desk.enqueued[j] == desk.enqueued[i] :: j == i
    ensures exists life: nat :: HeldOnlyIn(desk.bound, desk.enqueued[i], life)
  {
    RunIsOk(trace);
    assert desk.enqueued[i] in Holders(desk.bound);
    var life :| 0 <= life < |desk.bound| && desk.bound[life].value == desk.enqueued[i];
    assert HeldOnlyIn(desk.bound, desk.enqueued[i], life);
  }

  /** `life` is the one binding whose value is `id`. */
  ghost predicate HeldOnlyIn(bound: seq<Binding>, id: TaskId, life: nat) {
    life < |bound| && forall other | 0 <= other < |bound| :: bound[other].value == id <==> other == life
  }
}
