/**
 When the visible history of a task is final: the exact condition, over all runs, with crashes, lost
 replies and overlapping deliveries.
 */
module FinalHistories {
  import opened Common
  import opened IntentTasks
  import opened RedisStream
  import opened QueueProtocol
  import opened StatusHistory
  import opened OrderlyRuns

  /** The task is not submitted again. */
  predicate NoResubmission(trace: seq<Action>, task: TaskId) {
    forall a <- trace :: a.Enqueue? ==> a.task.taskId != task
  }

  /** Whatever happens from here on, short of a resubmission, the task's history stays as it is. */
  ghost predicate HistoryIsFinal(q: Queue, task: TaskId, maxDeliveries: nat) {
    forall more :: NoResubmission(more, task) ==> History(Run(q, more, maxDeliveries).statuses, task) == History(q.statuses, task)
  }

  /** A job that only has an acknowledgement or a dead letter left to do. */
  predicate Quiet(step: JobStep) {
    step == Acking || step == AddDeadLetter || step == AckDeadLetter
  }

  /** The message is acknowledged, and none of its jobs has a status left to write. */
  predicate Settled(q: Queue, key: Key) {
    key in q.acked && forall d <- q.jobs | d.key == key :: Quiet(q.jobs[d])
  }

  /** The one message of the task. */
  ghost predicate OnlyMessage(q: Queue, key: Key, task: TaskId) {
    q.TaskIn(key).Some? && q.TaskIn(key).value.taskId == task && Submitted(q, task) == 1
  }

  // ---------------------------------------------------------------- settled means final

  lemma OthersCarryOthers(q: Queue, key: Key, other: Key, task: TaskId)
    requires OnlyMessage(q, key, task) && other != key && q.TaskIn(other).Some?
    ensures q.TaskIn(other).value.taskId != task
  {
    hide Copies;
    if q.TaskIn(other).value.taskId == task {
      SameTaskTwice(q.normal.entries, q.large.entries, key, other, task);
    }
  }

  lemma AdvanceKeepsSettled(q: Queue, d: Delivery, outcome: Outcome, maxDeliveries: nat, key: Key)
    requires d in q.jobs && Settled(q, key)
    ensures Settled(AdvanceJob(q, d, outcome, maxDeliveries), key)
    ensures d.key == key ==> AdvanceJob(q, d, outcome, maxDeliveries).statuses == q.statuses
  {
    hide Decode, PayloadBreaks;
    match q.jobs[d]
    case Started =>
    case MarkRunning =>
    case MarkDone =>
    case Acking =>
    case AddDeadLetter =>
    case AckDeadLetter =>
    case _ =>
  }

  /** Hand-outs create jobs for messages that are not acknowledged only. */
  lemma StartKeepsSettled(q: Queue, name: StreamName, ids: seq<nat>, key: Key)
    requires Settled(q, key) && (key.stream == name ==> key.id !in ids)
    ensures Settled(StartJobs(q, name, ids), key)
  {
    hide Quiet;
    var q' := StartJobs(q, name, ids);
    forall d <- q'.jobs | d.key == key ensures Quiet(q'.jobs[d]) {
      assert d in q.jobs && q'.jobs[d] == q.jobs[d];
    }
  }

  lemma AckedIsDelivered(q: Queue, key: Key)
    requires Safe(q) && key in q.acked
    ensures key.id <= q.At(key.stream).last && key.id !in q.At(key.stream).pending && 0 !in q.At(key.stream).pending
  {
    assert Split(q.At(key.stream), key.stream, q.acked) && key == Key(key.stream, key.id);
  }

  lemma ReadKeepsSettled(q: Queue, name: StreamName, count: nat, outcome: Outcome, maxDeliveries: nat, key: Key)
    requires Safe(q) && Settled(q, key)
    ensures Settled(Apply(q, Read(name, count, outcome), maxDeliveries), key)
  {
    hide Safe, Quiet, StartJobs, XReadGroup;
    AckedIsDelivered(q, key);
    var read := if Ran(outcome) then q.With(name, XReadGroup(q.At(name), count)) else q;
    StartKeepsSettled(read, name, ReadIds(q.At(name), count), key);
  }

  lemma ClaimKeepsSettled(q: Queue, name: StreamName, cursor: nat, count: nat, budget: nat, outcome: Outcome, maxDeliveries: nat, key: Key)
    requires Safe(q) && Settled(q, key)
    ensures Settled(Apply(q, Claim(name, cursor, count, budget, outcome), maxDeliveries), key)
  {
    hide Safe, Quiet, StartJobs, ClaimScan, Claimed;
    AckedIsDelivered(q, key);
    var s := q.At(name);
    var ids := ClaimScan(s.pending, cursor, s.last, count, budget).0;
    if name == key.stream {
      ScanClaimsExactlyTheIdlePrefix(s.pending, cursor, s.last, count, budget);
    }
    var claimed := if Ran(outcome) then q.With(name, Claimed(s, ids)) else q;
    StartKeepsSettled(claimed, name, ids, key);
  }

  lemma StepKeepsSettled(q: Queue, a: Action, maxDeliveries: nat, key: Key)
    requires Safe(q) && Settled(q, key)
    ensures Settled(Apply(q, a, maxDeliveries), key)
  {
    hide Safe, AdvanceJob, Quiet, StartJobs, ClaimScan, ReadIds;
    match a
    case Advance(d, outcome) => if d in q.jobs { AdvanceKeepsSettled(q, d, outcome, maxDeliveries, key); }
    case Read(name, count, outcome) => ReadKeepsSettled(q, name, count, outcome, maxDeliveries, key);
    case Claim(name, cursor, count, budget, outcome) => ClaimKeepsSettled(q, name, cursor, count, budget, outcome, maxDeliveries, key);
    case _ =>
  }

  lemma AdvanceKeepsHistory(q: Queue, d: Delivery, outcome: Outcome, maxDeliveries: nat, key: Key, task: TaskId)
    requires d in q.jobs && Settled(q, key) && OnlyMessage(q, key, task)
    ensures History(AdvanceJob(q, d, outcome, maxDeliveries).statuses, task) == History(q.statuses, task)
  {
    hide AdvanceJob, Settled;
    AdvanceKeepsSettled(q, d, outcome, maxDeliveries, key);
    if d.key != key {
      var state := AdvanceWrites(q, d, outcome, maxDeliveries);
      if q.TaskIn(d.key).Some? {
        OthersCarryOthers(q, key, d.key, task);
        HistoryAppend(q.statuses, StatusWrite(q.TaskIn(d.key).value.taskId, state), task);
      }
    }
  }

  lemma SettledStep(q: Queue, a: Action, maxDeliveries: nat, key: Key, task: TaskId)
    requires Safe(q) && Settled(q, key) && OnlyMessage(q, key, task)
    requires a.Enqueue? ==> a.task.taskId != task
    ensures History(Apply(q, a, maxDeliveries).statuses, task) == History(q.statuses, task)
    ensures OnlyMessage(Apply(q, a, maxDeliveries), key, task)
  {
    hide Safe, Settled, AdvanceJob, Copies, StartJobs, Decode;
    match a
    case Advance(d, outcome) =>
      if d in q.jobs {
        AdvanceKeepsHistory(q, d, outcome, maxDeliveries, key, task);
        var _ := AdvanceWrites(q, d, outcome, maxDeliveries);
      }
    case Enqueue(t) =>
      HistoryAppend(q.statuses, StatusWrite(t.taskId, Queued), task);
      CopiesAppend(q.At(StreamFor(t)).entries, Carrying(t), task);
      CarriesItsTask(t);
    case AddUndecodable(name, raw) =>
      CopiesAppend(q.At(name).entries, Undecodable(raw), task);
      CarriesNothing(raw, task);
    case _ => OthersWriteNothing(q, a, maxDeliveries);
  }

  lemma CarriesItsTask(t: IntentTask)
    ensures forall task: TaskId :: Carries(Carrying(t), task) <==> t.taskId == task
  {
  }

  lemma CarriesNothing(raw: RawPayload, task: TaskId)
    ensures !Carries(Undecodable(raw), task)
  {
  }

  lemma {:induction false} SettledRun(q: Queue, more: seq<Action>, maxDeliveries: nat, key: Key, task: TaskId)
    requires Safe(q) && Settled(q, key) && OnlyMessage(q, key, task) && NoResubmission(more, task)
    ensures var after := Run(q, more, maxDeliveries);
            && Safe(after) && Settled(after, key) && OnlyMessage(after, key, task)
            && History(after.statuses, task) == History(q.statuses, task)
    decreases |more|
  {
    hide Safe, Settled, OnlyMessage, Apply, History;
    if more != [] {
      var front, a := more[..|more| - 1], more[|more| - 1];
      assert a in more && forall b <- front :: b in more;
      SettledRun(q, front, maxDeliveries, key, task);
      var before := Run(q, front, maxDeliveries);
      ApplyIsSafe(before, a, maxDeliveries);
      StepKeepsSettled(before, a, maxDeliveries, key);
      SettledStep(before, a, maxDeliveries, key, task);
    }
  }

  // ---------------------------------------------------------------- final means settled

  /** The next step of the job writes a status of its task. */
  predicate Writing(step: JobStep) {
    step == MarkRunning || step == MarkDone || step == MarkRetrying || step == MarkFailed
  }

  /** The history goes on after these further steps, none of which submits the task. */
  ghost predicate GoesOn(q: Queue, more: seq<Action>, maxDeliveries: nat, task: TaskId) {
    && NoResubmission(more, task)
    && History(Run(q, more, maxDeliveries).statuses, task) != History(q.statuses, task)
  }

  ghost predicate Carrier(q: Queue, key: Key, task: TaskId) {
    q.TaskIn(key).Some? && q.TaskIn(key).value.taskId == task
  }

  lemma WritingWrites(q: Queue, d: Delivery, maxDeliveries: nat, task: TaskId)
    requires d in q.jobs && Writing(q.jobs[d]) && Carrier(q, d.key, task)
    ensures |History(AdvanceJob(q, d, Succeeds, maxDeliveries).statuses, task)| == |History(q.statuses, task)| + 1
  {
    hide Decode, History, PayloadBreaks;
    forall state: TaskState ensures History(q.statuses + [StatusWrite(task, state)], task) == History(q.statuses, task) + [state] {
      HistoryAppend(q.statuses, StatusWrite(task, state), task);
    }
  }

  /** The other steps that are not quiet lead to one that writes. */
  lemma LoudLeadsToWriting(q: Queue, d: Delivery, maxDeliveries: nat, task: TaskId)
    requires d in q.jobs && !Quiet(q.jobs[d]) && !Writing(q.jobs[d]) && Carrier(q, d.key, task)
    ensures var q' := AdvanceJob(q, d, Succeeds, maxDeliveries);
            && d in q'.jobs && Writing(q'.jobs[d]) && q'.statuses == q.statuses && Carrier(q', d.key, task)
  {
  }

  lemma LoudJobGoesOn(q: Queue, d: Delivery, maxDeliveries: nat, task: TaskId) returns (more: seq<Action>)
    requires d in q.jobs && !Quiet(q.jobs[d]) && Carrier(q, d.key, task)
    ensures GoesOn(q, more, maxDeliveries, task)
  {
    hide AdvanceJob, Carrier, History, Quiet, Writing;
    var step := Advance(d, Succeeds);
    RunEmpty(q, maxDeliveries);
    RunAppend(q, [], step, maxDeliveries);
    assert [] + [step] == [step];
    if Writing(q.jobs[d]) {
      more := [step];
      WritingWrites(q, d, maxDeliveries, task);
    } else {
      more := [step] + [step];
      LoudLeadsToWriting(q, d, maxDeliveries, task);
      WritingWrites(AdvanceJob(q, d, Succeeds, maxDeliveries), d, maxDeliveries, task);
      RunAppend(q, [step], step, maxDeliveries);
    }
  }

  /** A continuation of a continuation. */
  lemma GoesOnLater(q: Queue, first: seq<Action>, more: seq<Action>, maxDeliveries: nat, task: TaskId)
    requires NoResubmission(first, task)
    requires Run(q, first, maxDeliveries).statuses == q.statuses && GoesOn(Run(q, first, maxDeliveries), more, maxDeliveries, task)
    ensures GoesOn(q, first + more, maxDeliveries, task)
  {
    RunConcat(q, first, more, maxDeliveries);
  }

  /** A pending message becomes idle, is claimed, and its new delivery writes RUNNING. */
  lemma PendingGoesOn(q: Queue, key: Key, maxDeliveries: nat, task: TaskId) returns (more: seq<Action>)
    requires Safe(q) && q.IsPending(key) && Carrier(q, key, task)
    ensures GoesOn(q, more, maxDeliveries, task)
  {
    hide Safe, StartJobs, ClaimScan, Claimed, History, MarkIdle, GoesOn;
    var idle, claim := BecomeIdle(key), Claim(key.stream, key.id, 1, 1, Succeeds);
    var q1 := Apply(q, idle, maxDeliveries);
    var q2 := Apply(q1, claim, maxDeliveries);
    var d := Delivery(key, q.PendingOf(key).deliveries + 1);
    SafePendingCanBeClaimed(q, key, maxDeliveries);
    OthersWriteNothing(q, idle, maxDeliveries);
    OthersWriteNothing(q1, claim, maxDeliveries);
    CarrierStays(q, q2, key, task);
    RunsTwo(q, idle, claim, maxDeliveries);
    var rest := LoudJobGoesOn(q2, d, maxDeliveries, task);
    more := [idle, claim] + rest;
    GoesOnLater(q, [idle, claim], rest, maxDeliveries, task);
  }

  lemma RunsTwo(q: Queue, a: Action, b: Action, maxDeliveries: nat)
    ensures Run(q, [a, b], maxDeliveries) == Apply(Apply(q, a, maxDeliveries), b, maxDeliveries)
  {
    hide Apply;
    RunEmpty(q, maxDeliveries);
    RunAppend(q, [], a, maxDeliveries);
    RunAppend(q, [a], b, maxDeliveries);
    assert [] + [a] == [a] && [a] + [b] == [a, b];
  }

  lemma CarrierStays(q: Queue, q': Queue, key: Key, task: TaskId)
    requires Carrier(q, key, task)
    requires q'.normal.entries == q.normal.entries && q'.large.entries == q.large.entries
    ensures Carrier(q', key, task)
  {
  }

  /** An undelivered message is read, and its first delivery writes RUNNING. */
  lemma UndeliveredGoesOn(q: Queue, key: Key, maxDeliveries: nat, task: TaskId) returns (more: seq<Action>)
    requires Safe(q) && q.Undelivered(key) && Carrier(q, key, task)
    ensures GoesOn(q, more, maxDeliveries, task)
  {
    hide Safe, StartJobs, History, GoesOn, XReadGroup;
    var read := Read(key.stream, key.id, Succeeds);
    var q1 := Apply(q, read, maxDeliveries);
    var d := Delivery(key, 1);
    ReadStarts(q, key, maxDeliveries);
    OthersWriteNothing(q, read, maxDeliveries);
    CarrierStays(q, q1, key, task);
    RunEmpty(q, maxDeliveries);
    RunAppend(q, [], read, maxDeliveries);
    assert [] + [read] == [read];
    var rest := LoudJobGoesOn(q1, d, maxDeliveries, task);
    more := [read] + rest;
    GoesOnLater(q, [read], rest, maxDeliveries, task);
  }

  lemma ReadDelivers(s: Stream<Payload>, id: nat)
    requires s.last < id <= |s.entries|
    ensures id in ReadIds(s, id) && id in XReadGroup(s, id).pending && XReadGroup(s, id).pending[id].deliveries == 1
  {
    ReadIsExact(s, id);
  }

  lemma ReadStarts(q: Queue, key: Key, maxDeliveries: nat)
    requires q.Undelivered(key)
    ensures var q' := Apply(q, Read(key.stream, key.id, Succeeds), maxDeliveries);
            Delivery(key, 1) in q'.jobs && q'.jobs[Delivery(key, 1)] == Started
  {
    hide StartJobs, XReadGroup, ReadIds;
    ReadDelivers(q.At(key.stream), key.id);
    var read := q.With(key.stream, XReadGroup(q.At(key.stream), key.id));
    StartJobsIsExact(read, key.stream, ReadIds(q.At(key.stream), key.id));
  }

  lemma EmptyIsSafe()
    ensures Safe(EMPTY_QUEUE)
  {
  }

  /**
   A task submitted once has its final history if and only if its message is acknowledged and every job of
   that message has nothing left but an acknowledgement or a dead letter.
   */
  lemma HistoryIsFinalExactlyWhenSettled(trace: seq<Action>, maxDeliveries: nat, q: Queue, key: Key, task: TaskId)
    requires q == Run(EMPTY_QUEUE, trace, maxDeliveries)
    requires OnlyMessage(q, key, task)
    ensures HistoryIsFinal(q, task, maxDeliveries) <==> Settled(q, key)
  {
    hide Run, Safe, Quiet, History;
    EmptyIsSafe();
    RunIsSafe(EMPTY_QUEUE, trace, maxDeliveries);
    if Settled(q, key) {
      forall more | NoResubmission(more, task)
        ensures History(Run(q, more, maxDeliveries).statuses, task) == History(q.statuses, task)
      {
        SettledRun(q, more, maxDeliveries, key, task);
      }
    } else {
      var more: seq<Action>;
      if d :| d in q.jobs && d.key == key && !Quiet(q.jobs[d]) {
        more := LoudJobGoesOn(q, d, maxDeliveries, task);
      } else {
        SafeLosesNothing(q, key);
        if q.IsPending(key) {
          more := PendingGoesOn(q, key, maxDeliveries, task);
        } else {
          more := UndeliveredGoesOn(q, key, maxDeliveries, task);
        }
      }
      assert GoesOn(q, more, maxDeliveries, task);
    }
  }
}
