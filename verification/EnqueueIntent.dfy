/**
 The idempotency store and the submission use case as they are written: loops and Redis calls in
 sequence, with everybody else acting between any two calls.  Each method is shown to be a run of
 the submission state machine, so what holds for all runs holds for it.
 */
module EnqueueIntent {
  import opened Common
  import opened IntentTasks
  import opened QueueProtocol
  import opened Submissions
  import CallEndings

  datatype IdempotencyClaim = IdempotencyClaim(value: TaskId, acquired: bool)

  datatype ClaimError = RedisFailed | KeyChanged

  datatype Rejection = ClaimFailed(error: ClaimError) | SessionFailed | QueueFailed

  datatype Submission = Created(task: IntentTask) | Duplicate(taskId: TaskId) | Rejected(reason: Rejection)

  predicate ActsFor(a: DeskAction, caller: TaskId) {
    (a.Proceed? || a.GiveUp?) && a.caller == caller
  }

  /** The call never gives up: all its own actions are steps of `execute`. */
  predicate Steady(trace: seq<DeskAction>, caller: TaskId) {
    forall a <- trace :: ActsFor(a, caller) ==> a.Proceed?
  }

  /** Every step of the call returned normally. */
  predicate AllSucceed(trace: seq<DeskAction>, caller: TaskId) {
    forall a <- trace :: ActsFor(a, caller) ==> a == Proceed(caller, Succeeds)
  }

  /** How many steps of the call there are. */
  function OwnSteps(trace: seq<DeskAction>, caller: TaskId): nat {
    if trace == [] then 0
    else OwnSteps(trace[..|trace| - 1], caller) + if ActsFor(trace[|trace| - 1], caller) then 1 else 0
  }

  lemma {:induction false} OwnStepsConcat(first: seq<DeskAction>, second: seq<DeskAction>, caller: TaskId)
    ensures OwnSteps(first + second, caller) == OwnSteps(first, caller) + OwnSteps(second, caller)
    decreases |second|
  {
    if second == [] {
      assert first + second == first;
    } else {
      var n := |second| - 1;
      assert (first + second)[..|first| + n] == first + second[..n];
      OwnStepsConcat(first, second[..n], caller);
    }
  }

  lemma OneOwnStep(trace: seq<DeskAction>, a: DeskAction, caller: TaskId)
    ensures OwnSteps(trace + [a], caller) == OwnSteps(trace, caller) + if ActsFor(a, caller) then 1 else 0
  {
    assert (trace + [a])[..|trace|] == trace;
  }

  lemma OwnAppend(desk: Desk, trace: seq<DeskAction>, caller: TaskId, outcome: Outcome)
    ensures var longer := trace + [Proceed(caller, outcome)];
            && RunDesk(desk, longer) == ApplyDesk(RunDesk(desk, trace), Proceed(caller, outcome))
            && (Steady(longer, caller) <==> Steady(trace, caller))
            && (AllSucceed(longer, caller) <==> AllSucceed(trace, caller) && outcome.Succeeds?)
            && OwnSteps(longer, caller) == OwnSteps(trace, caller) + 1
  {
    hide ApplyDesk, RunDesk, OwnSteps;
    OneOwnStep(trace, Proceed(caller, outcome), caller);
    RunDeskAppend(desk, trace, Proceed(caller, outcome));
    var longer, own := trace + [Proceed(caller, outcome)], Proceed(caller, outcome);
    assert forall a :: a in longer <==> a in trace || a == own;
    assert own in longer && ActsFor(own, caller);
    assert outcome.Succeeds? <==> own == Proceed(caller, Succeeds);
  }

  lemma JoinRuns(desk: Desk, first: seq<DeskAction>, second: seq<DeskAction>, caller: TaskId)
    ensures RunDesk(desk, first + second) == RunDesk(RunDesk(desk, first), second)
    ensures Steady(first + second, caller) <==> Steady(first, caller) && Steady(second, caller)
    ensures AllSucceed(first + second, caller) <==> AllSucceed(first, caller) && AllSucceed(second, caller)
    ensures OwnSteps(first + second, caller) == OwnSteps(first, caller) + OwnSteps(second, caller)
  {
    hide ApplyDesk, RunDesk, OwnSteps;
    OwnStepsConcat(first, second, caller);
    RunDeskConcat(desk, first, second);
    assert forall a :: a in first + second <==> a in first || a in second;
  }

  lemma NoOwnSteps(caller: TaskId)
    ensures OwnSteps([], caller) == 0
  {
  }

  lemma RunDeskEmpty(desk: Desk)
    ensures RunDesk(desk, []) == desk
  {
  }

  lemma RunDeskAppend(desk: Desk, trace: seq<DeskAction>, a: DeskAction)
    ensures RunDesk(desk, trace + [a]) == ApplyDesk(RunDesk(desk, trace), a)
  {
    assert (trace + [a])[..|trace|] == trace;
  }

  lemma {:induction false} RunDeskConcat(desk: Desk, first: seq<DeskAction>, second: seq<DeskAction>)
    ensures RunDesk(desk, first + second) == RunDesk(RunDesk(desk, first), second)
    decreases |second|
  {
    if second == [] {
      assert first + second == first;
    } else {
      var before, a := second[..|second| - 1], second[|second| - 1];
      assert first + second == (first + before) + [a];
      RunDeskAppend(desk, first + before, a);
      RunDeskConcat(desk, first, before);
    }
  }

  lemma CallsStay(desk: Desk, a: DeskAction, caller: TaskId)
    requires caller in desk.begun && caller in desk.calls && !ActsFor(a, caller)
    ensures var desk' := ApplyDesk(desk, a);
            caller in desk'.calls && desk'.calls[caller] == desk.calls[caller]
  {
    match a
    case Proceed(other, outcome) => if other in desk.calls { CallEndings.ProceedKeepsOthers(desk, other, outcome, caller); }
    case _ =>
  }

  /** Nobody else moves a call on. */
  lemma OthersKeepCall(desk: Desk, a: DeskAction, caller: TaskId)
    requires DeskOk(desk) && caller in desk.calls && !ActsFor(a, caller)
    ensures var desk' := ApplyDesk(desk, a);
            caller in desk'.calls && desk'.calls[caller] == desk.calls[caller]
  {
    CallsStay(desk, a, caller);
  }

  lemma NotHoldingMeansNotEnqueued(desk: Desk, id: TaskId)
    requires DeskOk(desk) && id !in Holders(desk.bound)
    ensures id !in desk.enqueued
  {
  }

  /** The Redis server's keys, shared by every submission in progress. */
  class KeyServer {
    var desk: Desk

    constructor ()
      ensures desk == EMPTY_DESK && DeskOk(desk)
    {
      desk := EMPTY_DESK;
    }

    /** Any number of steps of other calls, and of expiry. */
    method Interfere(caller: TaskId) returns (ghost trace: seq<DeskAction>)
      requires DeskOk(desk) && caller in desk.calls
      modifies this
      ensures DeskOk(desk) && desk == RunDesk(old(desk), trace)
      ensures caller in desk.calls && desk.calls[caller] == old(desk.calls[caller])
      ensures Steady(trace, caller) && AllSucceed(trace, caller) && OwnSteps(trace, caller) == 0
    {
      hide OwnSteps;
      trace := [];
      assert OwnSteps([], caller) == 0 by { NoOwnSteps(caller); }
      var steps: nat := *;
      while steps > 0
        invariant DeskOk(desk) && desk == RunDesk(old(desk), trace)
        invariant caller in desk.calls && desk.calls[caller] == old(desk.calls[caller])
        invariant Steady(trace, caller) && AllSucceed(trace, caller) && OwnSteps(trace, caller) == 0
      {
        var a: DeskAction := *;
        if !ActsFor(a, caller) {
          OneOwnStep(trace, a, caller);
          StepIsOk(desk, a);
          OthersKeepCall(desk, a, caller);
          RunDeskAppend(old(desk), trace, a);
          desk := ApplyDesk(desk, a);
          trace := trace + [a];
        }
        steps := steps - 1;
      }
    }

    /** SET key value NX. */
    method SetNx(key: RequestKey, value: TaskId) returns (outcome: Outcome, acquired: bool)
      modifies this
      ensures desk == if Ran(outcome) then Bind(old(desk), key, value) else old(desk)
      ensures acquired <==> outcome.Succeeds? && key !in old(desk).live
    {
      outcome := *;
      acquired := outcome.Succeeds? && key !in desk.live;
      if Ran(outcome) {
        desk := Bind(desk, key, value);
      }
    }

    /** GET key. */
    method Get(key: RequestKey) returns (outcome: Outcome, existing: Option<TaskId>)
      ensures existing == if outcome.Succeeds? then desk.Holder(key) else None
    {
      outcome := *;
      existing := if outcome.Succeeds? then desk.Holder(key) else None;
    }

    /** The script that deletes a key that still has the expected value. */
    method DeleteIfEqual(key: RequestKey, expected: TaskId) returns (outcome: Outcome)
      modifies this
      ensures desk == if Ran(outcome) then Unbind(old(desk), key, expected) else old(desk)
      ensures Ran(outcome) ==> desk.Holder(key) != Some(expected)
      ensures old(desk.Holder(key)) != Some(expected) ==> desk == old(desk)
      ensures forall other | other != key :: desk.Holder(other) == old(desk.Holder(other))
      ensures desk.enqueued == old(desk.enqueued) && desk.answers == old(desk.answers) && desk.calls == old(desk.calls)
    {
      outcome := *;
      if Ran(outcome) {
        desk := Unbind(desk, key, expected);
      }
    }
  }

  class RedisIdempotency {
    const client: KeyServer

    constructor (client: KeyServer)
      ensures this.client == client
    {
      this.client := client;
    }

    /** SET NX, and the call's place in the protocol moves on according to the reply. */
    method TrySet(key: RequestKey, proposed: TaskId, round: nat) returns (outcome: Outcome, acquired: bool)
      requires DeskOk(client.desk)
      requires proposed in client.desk.calls && client.desk.calls[proposed] == Call(key, SetNx(round))
      modifies client
      ensures DeskOk(client.desk) && client.desk == ApplyDesk(old(client.desk), Proceed(proposed, outcome))
      ensures outcome.Raises? ==> !acquired && proposed !in client.desk.calls
      ensures outcome.Succeeds? ==>
                && proposed in client.desk.calls
                && client.desk.calls[proposed] == Call(key, if acquired then TouchSession else CallStep.Get(round))
      ensures acquired ==> client.desk.Holder(key) == Some(proposed)
      ensures outcome.Succeeds? ==> (acquired <==> old(client.desk.Holder(key)).None?)
    {
      hide Holders, BoundOnce, AnswersOk, RemovalsOk, NoRepeats, Builds, Stripped;
      StepIsOk(client.desk, Proceed(proposed, Succeeds));
      StepIsOk(client.desk, Proceed(proposed, Raises(true)));
      outcome, acquired := client.SetNx(key, proposed);
      client.desk :=
        if outcome.Raises? then EndCall(client.desk, proposed)
        else if acquired then MoveTo(AnswerWith(client.desk, proposed, true), proposed, TouchSession)
        else MoveTo(client.desk, proposed, CallStep.Get(round));
    }

    /** GET, and the call ends with the holder's id or goes on to the next round. */
    method TryGet(key: RequestKey, proposed: TaskId, round: nat) returns (outcome: Outcome, existing: Option<TaskId>)
      requires DeskOk(client.desk)
      requires proposed in client.desk.calls && client.desk.calls[proposed] == Call(key, CallStep.Get(round))
      modifies client
      ensures DeskOk(client.desk) && client.desk == ApplyDesk(old(client.desk), Proceed(proposed, outcome))
      ensures client.desk.Holder(key) == old(client.desk.Holder(key)) && proposed !in Holders(client.desk.bound)
      ensures existing == if outcome.Succeeds? then client.desk.Holder(key) else None
      ensures if outcome.Succeeds? && existing.None? && round + 1 < ROUNDS
              then proposed in client.desk.calls && client.desk.calls[proposed] == Call(key, CallStep.SetNx(round + 1))
              else proposed !in client.desk.calls
    {
      hide Holders, BoundOnce, AnswersOk, RemovalsOk, NoRepeats, Builds, Stripped;
      StepIsOk(client.desk, Proceed(proposed, Succeeds));
      outcome, existing := client.Get(key);
      client.desk :=
        if existing.Some? then EndCall(AnswerWith(client.desk, proposed, false), proposed)
        else if outcome.Succeeds? && round + 1 < ROUNDS then MoveTo(client.desk, proposed, CallStep.SetNx(round + 1))
        else EndCall(client.desk, proposed);
    }

    /** SET NX, then GET, at most twice. */
    method Claim(key: RequestKey, proposed: TaskId) returns (r: Result<IdempotencyClaim, ClaimError>, ghost trace: seq<DeskAction>)
      requires DeskOk(client.desk)
      requires proposed in client.desk.calls && client.desk.calls[proposed] == Call(key, SetNx(0))
      modifies client
      ensures DeskOk(client.desk) && client.desk == RunDesk(old(client.desk), trace)
      ensures r.Ok? && r.value.acquired ==>
                && r.value.value == proposed && client.desk.Holder(key) == Some(proposed)
                && proposed in client.desk.calls && client.desk.calls[proposed] == Call(key, TouchSession)
      ensures r.Ok? && !r.value.acquired ==>
                && proposed !in client.desk.calls && client.desk.Holder(key) == Some(r.value.value)
                && proposed !in Holders(client.desk.bound)
      ensures r.Err? ==> proposed !in client.desk.calls
      ensures Steady(trace, proposed) && (AllSucceed(trace, proposed) <==> r != Err(RedisFailed))
      ensures OwnSteps(trace, proposed) <= 4 && (r == Err(KeyChanged) ==> OwnSteps(trace, proposed) == 4)
    {
      hide DeskOk, RunDesk, ApplyDesk, Holders, OwnSteps;
      NoOwnSteps(proposed);
      RunDeskEmpty(client.desk);
      trace := [];
      for round := 0 to ROUNDS
        invariant Steady(trace, proposed) && AllSucceed(trace, proposed) && OwnSteps(trace, proposed) == 2 * round
        invariant DeskOk(client.desk) && client.desk == RunDesk(old(client.desk), trace)
        invariant if round < ROUNDS then proposed in client.desk.calls && client.desk.calls[proposed] == Call(key, CallStep.SetNx(round))
                  else proposed !in client.desk.calls
      {
        var outcome, acquired := TrySet(key, proposed, round);
        OwnAppend(old(client.desk), trace, proposed, outcome);
        trace := trace + [Proceed(proposed, outcome)];
        if outcome.Raises? {
          return Err(RedisFailed), trace;
        }
        if acquired {
          return Ok(IdempotencyClaim(proposed, true)), trace;
        }

        ghost var others := client.Interfere(proposed);
        JoinRuns(old(client.desk), trace, others, proposed);
        trace := trace + others;

        var got, existing := TryGet(key, proposed, round);
        OwnAppend(old(client.desk), trace, proposed, got);
        trace := trace + [Proceed(proposed, got)];
        if got.Raises? {
          return Err(RedisFailed), trace;
        }
        if existing.Some? {
          return Ok(IdempotencyClaim(existing.value, false)), trace;
        }
        if round + 1 < ROUNDS {
          others := client.Interfere(proposed);
          JoinRuns(old(client.desk), trace, others, proposed);
          trace := trace + others;
        }
      }
      return Err(KeyChanged), trace;
    }
  }

  class EnqueueIntentUseCase {
    const client: KeyServer
    const idempotency: RedisIdempotency
    const priorityEnabled: bool
    const largeRequestTurns: nat

    constructor (client: KeyServer, idempotency: RedisIdempotency, priorityEnabled: bool, largeRequestTurns: nat)
      requires idempotency.client == client
      ensures this.client == client && this.idempotency == idempotency
      ensures this.priorityEnabled == priorityEnabled && this.largeRequestTurns == largeRequestTurns
    {
      this.priorityEnabled, this.largeRequestTurns := priorityEnabled, largeRequestTurns;
      this.client := client;
      this.idempotency := idempotency;
    }

    /** A new call with a fresh proposal and an accepted request. */
    method Start(key: RequestKey, proposed: TaskId, raw: IntentInput)
      requires DeskOk(client.desk) && Proposable(client.desk, proposed) && MakeInput(raw).Ok?
      modifies client
      ensures DeskOk(client.desk) && client.desk == RunDesk(old(client.desk), [Begin(proposed, key, raw)])
      ensures proposed in client.desk.calls && client.desk.calls[proposed] == Call(key, SetNx(0))
    {
      hide MakeInput, DeskOk, Stripped;
      StepIsOk(client.desk, Begin(proposed, key, raw));
      RunDeskAppend(client.desk, [], Begin(proposed, key, raw));
      RunDeskEmpty(client.desk);
      client.desk := ApplyDesk(client.desk, Begin(proposed, key, raw));
    }

    /** Touching the session and enqueuing the task, each with its own outcome. */
    method Step(key: RequestKey, proposed: TaskId) returns (outcome: Outcome, ghost trace: seq<DeskAction>)
      requires DeskOk(client.desk) && proposed in client.desk.calls && client.desk.calls[proposed].key == key
      requires client.desk.calls[proposed].step in {TouchSession, EnqueueTask}
      modifies client
      ensures DeskOk(client.desk) && client.desk == RunDesk(old(client.desk), trace)
      ensures old(client.desk.calls[proposed].step) == TouchSession ==>
                proposed in client.desk.calls
                && client.desk.calls[proposed] == Call(key, if outcome.Succeeds? then BuildTask else Release)
      ensures old(client.desk.calls[proposed].step) == EnqueueTask ==>
                if outcome.Succeeds? then proposed !in client.desk.calls && proposed in client.desk.enqueued
                else proposed in client.desk.calls && client.desk.calls[proposed] == Call(key, Release)
      ensures Steady(trace, proposed) && (AllSucceed(trace, proposed) <==> outcome.Succeeds?)
    {
      hide DeskOk, RunDesk, Steady, AllSucceed, MakeInput, Builds;
      trace := client.Interfere(proposed);
      outcome := *;
      StepIsOk(client.desk, Proceed(proposed, outcome));
      OwnAppend(old(client.desk), trace, proposed, outcome);
      trace := trace + [Proceed(proposed, outcome)];
      client.desk := ApplyDesk(client.desk, Proceed(proposed, outcome));
    }

    /** `_priority`: 1 for a session with many turns, 0 when the lookup is switched off or fails. */
    method Priority(storedTurns: nat) returns (priority: nat, looked: Outcome)
      ensures priority == if priorityEnabled && looked.Succeeds? && storedTurns >= largeRequestTurns then 1 else 0
    {
      looked := Succeeds;
      if !priorityEnabled {
        return 0, looked;
      }
      looked := *;
      if looked.Raises? {
        return 0, looked;
      }
      var turns := if storedTurns <= largeRequestTurns then storedTurns else largeRequestTurns;
      priority := if turns >= largeRequestTurns then 1 else 0;
    }

    /** The task is built from the request; its constructor accepts whatever the command object accepted. */
    method Construct(key: RequestKey, proposed: TaskId, raw: IntentInput, now: string, storedTurns: nat)
      returns (task: Result<IntentTask, TaskError>, looked: Outcome, ghost trace: seq<DeskAction>)
      requires DeskOk(client.desk) && proposed in client.desk.calls && client.desk.calls[proposed] == Call(key, BuildTask)
      requires MakeInput(raw).Ok? && Stripped(proposed) && proposed != ""
      modifies client
      ensures DeskOk(client.desk) && client.desk == RunDesk(old(client.desk), trace)
      ensures task.Ok? && task == TaskFor(proposed, MakeInput(raw).value, now, task.value.priority)
      ensures CarriesRequest(task.value, proposed, raw) && task.value.enqueuedAt == Text(now)
      ensures task.value.priority == if priorityEnabled && looked.Succeeds? && storedTurns >= largeRequestTurns then 1 else 0
      ensures proposed in client.desk.calls && client.desk.calls[proposed] == Call(key, EnqueueTask)
      ensures Steady(trace, proposed) && (AllSucceed(trace, proposed) <==> looked.Succeeds?)
    {
      hide RunDesk, Steady, AllSucceed, MakeInput, TaskFor, Stripped, CarriesRequest;
      trace := client.Interfere(proposed);
      var priority;
      priority, looked := Priority(storedTurns);
      AcceptedInputBuilds(proposed, raw, now, priority);
      task := TaskFor(proposed, MakeInput(raw).value, now, priority);
      assert Builds(client.desk.requests, proposed);
      hide DeskOk, Builds;
      StepIsOk(client.desk, Proceed(proposed, looked));
      OwnAppend(old(client.desk), trace, proposed, looked);
      trace := trace + [Proceed(proposed, looked)];
      client.desk := ApplyDesk(client.desk, Proceed(proposed, looked));
    }

    /** `_release_claim`: a failing release is only logged. */
    method ReleaseClaim(key: RequestKey, proposed: TaskId) returns (released: bool, ghost trace: seq<DeskAction>)
      requires DeskOk(client.desk) && proposed in client.desk.calls && client.desk.calls[proposed] == Call(key, Release)
      modifies client
      ensures DeskOk(client.desk) && client.desk == RunDesk(old(client.desk), trace)
      ensures proposed !in client.desk.calls
      ensures released ==> client.desk.Holder(key) != Some(proposed)
      ensures Steady(trace, proposed)
    {
      hide Steady, AllSucceed, Builds, Stripped, Holders, BoundOnce, AnswersOk, RemovalsOk, NoRepeats;
      trace := client.Interfere(proposed);
      ghost var before := client.desk;
      var outcome := client.DeleteIfEqual(key, proposed);
      client.desk := EndCall(client.desk, proposed);
      released := Ran(outcome);
      assert client.desk == ApplyDesk(before, Proceed(proposed, outcome));
      StepIsOk(before, Proceed(proposed, outcome));
      OwnAppend(old(client.desk), trace, proposed, outcome);
      trace := trace + [Proceed(proposed, outcome)];
    }

    /**
     Claim the key, refresh the session, build the task and enqueue it; a failure of the session or
     of the queue gives the key back.  A created submission is in the queue under its own id, and a
     duplicate one never bound or enqueued anything.
     */
    method Execute(key: RequestKey, proposed: TaskId, raw: IntentInput, now: string, storedTurns: nat)
      returns (r: Submission, ghost trace: seq<DeskAction>)
      requires DeskOk(client.desk) && idempotency.client == client
      requires Proposable(client.desk, proposed) && MakeInput(raw).Ok?
      modifies client
      ensures DeskOk(client.desk) && client.desk == RunDesk(old(client.desk), trace)
      ensures proposed !in client.desk.calls
      ensures r.Created? ==>
                && proposed in client.desk.enqueued
                && Ok(r.task) == TaskFor(proposed, MakeInput(raw).value, now, r.task.priority)
      ensures r.Created? ==> CarriesRequest(r.task, proposed, raw) && r.task.enqueuedAt == Text(now)
      ensures r.Created? ==> r.task.priority <= 1 && (r.task.priority == 1 ==> priorityEnabled && storedTurns >= largeRequestTurns)
      ensures r.Duplicate? ==> client.desk.Holder(key) == Some(r.taskId) && proposed !in client.desk.enqueued
      ensures Steady(trace, proposed)
      ensures AllSucceed(trace, proposed) ==> r.Created? || r.Duplicate? || r == Rejected(ClaimFailed(KeyChanged))
    {
      Start(key, proposed, raw);
      trace := [Begin(proposed, key, raw)];
      assert Steady(trace, proposed) && AllSucceed(trace, proposed);
      hide DeskOk, RunDesk, Steady, AllSucceed, MakeInput, TaskFor, Stripped, CarriesRequest;

      var claim, steps := idempotency.Claim(key, proposed);
      JoinRuns(old(client.desk), trace, steps, proposed);
      trace := trace + steps;
      if claim.Err? {
        assert claim.error.RedisFailed? || claim.error.KeyChanged?;
        return Rejected(ClaimFailed(claim.error)), trace;
      }
      if !claim.value.acquired {
        NotHoldingMeansNotEnqueued(client.desk, proposed);
        return Duplicate(claim.value.value), trace;
      }

      var touched, touchSteps := Step(key, proposed);
      JoinRuns(old(client.desk), trace, touchSteps, proposed);
      trace := trace + touchSteps;
      if touched.Raises? {
        var _, releaseSteps := ReleaseClaim(key, proposed);
        JoinRuns(old(client.desk), trace, releaseSteps, proposed);
        return Rejected(SessionFailed), trace + releaseSteps;
      }

      var task, looked, buildSteps := Construct(key, proposed, raw, now, storedTurns);
      JoinRuns(old(client.desk), trace, buildSteps, proposed);
      trace := trace + buildSteps;

      var sent, sendSteps := Step(key, proposed);
      JoinRuns(old(client.desk), trace, sendSteps, proposed);
      trace := trace + sendSteps;
      if sent.Raises? {
        var _, releaseSteps := ReleaseClaim(key, proposed);
        JoinRuns(old(client.desk), trace, releaseSteps, proposed);
        return Rejected(QueueFailed), trace + releaseSteps;
      }
      return Created(task.value), trace;
    }
  }
}
