/**
 Orderly runs of the delivery protocol: every Redis call succeeds, no job is lost, each job ends
 before its message becomes idle, task ids are fresh, and no payload breaks `_handle_one`.  Handlers may
 still fail at will.
 In these runs attempts are bounded, status histories have one shape, and the queue drains.
 */
module OrderlyRuns {
  import opened Common
  import opened IntentTasks
  import opened RedisStream
  import opened QueueProtocol
  import opened StatusHistory

  predicate Arrival(a: Action) {
    a.Enqueue? || a.AddUndecodable?
  }

  ghost predicate Orderly(q: Queue, a: Action) {
    match a
    case Enqueue(task) => Submitted(q, task.taskId) == 0
    case AddUndecodable(_, raw) => !BreaksDecoding(raw)
    case Read(_, _, outcome) => outcome.Succeeds?
    case Claim(_, _, _, _, outcome) => outcome.Succeeds?
    case BecomeIdle(key) => forall d <- q.jobs :: d.key != key
    case Advance(d, outcome) => d in q.jobs && (outcome.Succeeds? || q.jobs[d] == Working)
    case Vanish(_) => false
  }

  /** Every step of the run is orderly in the state it starts from. */
  ghost predicate OrderlyRun(q: Queue, trace: seq<Action>, maxDeliveries: nat)
    decreases |trace|
  {
    trace != [] ==>
      var before := trace[..|trace| - 1];
      && OrderlyRun(q, before, maxDeliveries)
      && Orderly(Run(q, before, maxDeliveries), trace[|trace| - 1])
  }

  // ------------------------------------------------------------------ one message's life

  datatype Phase =
    | Waiting
    | InJob(n: nat, step: JobStep)
    | Resting(n: nat, idle: bool)
    | Closed

  function PhaseOf(q: Queue, key: Key): Phase {
    if q.IsPending(key) then
      var p := q.PendingOf(key);
      var d := Delivery(key, p.deliveries);
      if d in q.jobs then InJob(p.deliveries, q.jobs[d]) else Resting(p.deliveries, p.idle)
    else if q.Undelivered(key) then Waiting
    else Closed
  }

  /** How often the message's task was handed to the handler. */
  function Calls(starts: seq<Key>, key: Key): nat {
    if starts == [] then 0
    else Calls(starts[..|starts| - 1], key) + if starts[|starts| - 1] == key then 1 else 0
  }

  /** QUEUED followed by `failures` failed attempts. */
  function Attempts(failures: nat): seq<TaskState> {
    if failures == 0 then [Queued] else Attempts(failures - 1) + [Running, Retrying]
  }

  /** What the history and the number of handler calls are in each phase of a decodable message. */
  ghost predicate Expected(phase: Phase, h: seq<TaskState>, calls: nat, maxDeliveries: nat) {
    match phase
    case Waiting => h == Attempts(0) && calls == 0
    case Resting(n, _) => n < maxDeliveries && h == Attempts(n) && calls == n
    case Closed => exists n | 1 <= n <= maxDeliveries :: Ended(h, n, maxDeliveries) && calls == n
    case InJob(n, step) =>
      && 1 <= n <= maxDeliveries
      && calls == (if step == Started then n - 1 else n)
      && match step
         case Started => h == Attempts(n - 1)
         case MarkRunning => h == Attempts(n - 1)
         case Acking => h == Attempts(n - 1) + [Running, Done]
         case AddDeadLetter => n == maxDeliveries && h == Attempts(n - 1) + [Running, Failed]
         case AckDeadLetter => n == maxDeliveries && h == Attempts(n - 1) + [Running, Failed]
         case MarkFailed => n == maxDeliveries && h == Attempts(n - 1) + [Running]
         case MarkRetrying => n < maxDeliveries && h == Attempts(n - 1) + [Running]
         case _ => h == Attempts(n - 1) + [Running]
  }

  /** The last attempt succeeded, or it was the last one allowed and failed. */
  ghost predicate Ended(h: seq<TaskState>, attempts: nat, maxDeliveries: nat)
    requires attempts >= 1
  {
    || h == Attempts(attempts - 1) + [Running, Done]
    || (attempts == maxDeliveries && h == Attempts(attempts - 1) + [Running, Failed])
  }

  /** A message that does not decode goes straight to the dead-letter stream. */
  ghost predicate ExpectedUndecodable(phase: Phase, calls: nat) {
    && calls == 0
    && match phase
       case InJob(n, step) => n == 1 && step in {Started, AddDeadLetter, AckDeadLetter}
       case Resting(_, _) => false
       case _ => true
  }

  /** Only the latest delivery of a message has a job, and not once the message is idle. */
  ghost predicate OneJob(q: Queue, key: Key) {
    forall d <- q.jobs | d.key == key ::
      q.IsPending(key) && d.n == q.PendingOf(key).deliveries && !q.PendingOf(key).idle
  }

  ghost predicate MessageOk(q: Queue, key: Key, maxDeliveries: nat) {
    && OneJob(q, key)
    && match q.TaskIn(key)
       case None => ExpectedUndecodable(PhaseOf(q, key), Calls(q.starts, key))
       case Some(task) =>
         Expected(PhaseOf(q, key), History(q.statuses, task.taskId), Calls(q.starts, key), maxDeliveries)
  }

  ghost predicate NoneBreaks(q: Queue) {
    forall key: Key :: !Breaks(q, key)
  }

  ghost predicate Ordered(q: Queue, maxDeliveries: nat) {
    && Safe(q) && NoneBreaks(q)
    && (forall task: TaskId :: Announced(q, task) && Submitted(q, task) <= 1)
    && (forall key: Key | !q.HasMessage(key) :: Calls(q.starts, key) == 0)
    && (forall key: Key | q.HasMessage(key) :: MessageOk(q, key, maxDeliveries))
  }

  lemma CallsAppend(starts: seq<Key>, started: Key, key: Key)
    ensures Calls(starts + [started], key) == Calls(starts, key) + if started == key then 1 else 0
  {
    assert (starts + [started])[..|starts|] == starts;
  }

  // ------------------------------------------------------------------ distinct tasks

  lemma {:induction false} CopiesSplit(entries: seq<Payload>, i: nat, j: nat, task: TaskId)
    requires i < j < |entries| && Carries(entries[i], task) && Carries(entries[j], task)
    ensures Copies(entries, task) >= 2
    decreases |entries|
  {
    hide Carries;
    var front := entries[..|entries| - 1];
    if j < |front| {
      CopiesSplit(front, i, j, task);
    } else {
      CarriedIsCounted(front, i, task);
    }
  }

  lemma SameTaskTwice(normal: seq<Payload>, large: seq<Payload>, key: Key, other: Key, task: TaskId)
    requires key != other && key.id >= 1 && other.id >= 1
    requires var e := if key.stream.Normal? then normal else large; key.id <= |e| && Carries(e[key.id - 1], task)
    requires var e := if other.stream.Normal? then normal else large; other.id <= |e| && Carries(e[other.id - 1], task)
    ensures Copies(normal, task) + Copies(large, task) >= 2
  {
    hide Carries, Copies;
    var e := if key.stream.Normal? then normal else large;
    var f := if other.stream.Normal? then normal else large;
    if key.stream != other.stream {
      CarriedIsCounted(e, key.id - 1, task);
      CarriedIsCounted(f, other.id - 1, task);
    } else if key.id < other.id {
      CopiesSplit(e, key.id - 1, other.id - 1, task);
    } else {
      CopiesSplit(e, other.id - 1, key.id - 1, task);
    }
  }

  /** With fresh task ids, two messages never carry the same task. */
  lemma TasksDiffer(q: Queue, key: Key, other: Key)
    requires forall task: TaskId :: Submitted(q, task) <= 1
    requires key != other && q.TaskIn(key).Some? && q.TaskIn(other).Some?
    ensures q.TaskIn(key).value.taskId != q.TaskIn(other).value.taskId
  {
    hide Copies;
    var task := q.TaskIn(key).value.taskId;
    assert Submitted(q, task) <= 1;
    if q.TaskIn(other).value.taskId == task {
      SameTaskTwice(q.normal.entries, q.large.entries, key, other, task);
    }
  }

  // ------------------------------------------------------------------ each step keeps Ordered

  /** A message whose phase, task, history and calls are untouched stays as it should be. */
  lemma UntouchedStaysOk(q: Queue, q': Queue, key: Key, maxDeliveries: nat)
    requires MessageOk(q, key, maxDeliveries)
    requires q'.TaskIn(key) == q.TaskIn(key)
    requires PhaseOf(q', key) == PhaseOf(q, key)
    requires Calls(q'.starts, key) == Calls(q.starts, key)
    requires q.TaskIn(key).Some? ==>
               History(q'.statuses, q.TaskIn(key).value.taskId) == History(q.statuses, q.TaskIn(key).value.taskId)
    requires OneJob(q', key)
    ensures MessageOk(q', key, maxDeliveries)
  {
    hide Decode, OneJob, PhaseOf;
  }

  lemma NoQueuedNoHistory(q: Queue, task: TaskId)
    requires Announced(q, task) && Submitted(q, task) == 0
    ensures History(q.statuses, task) == []
  {
    var h := History(q.statuses, task);
    if h != [] {
      LaterQueued(h);
    }
  }

  /** The jobs of a state all work on delivered messages. */
  lemma NoJobForNewMessage(q: Queue, key: Key)
    requires Safe(q) && !q.HasMessage(key)
    ensures forall d <- q.jobs :: d.key != key
    ensures !q.IsPending(key)
  {
    assert Split(q.At(key.stream), key.stream, q.acked);
    forall d <- q.jobs ensures d.key != key {
      assert Behind(q.At(d.key.stream), d);
    }
  }

  /** An arriving message waits, and nothing else changes. */
  lemma ArrivalKeepsMessages(q: Queue, q': Queue, name: StreamName, payload: Payload, maxDeliveries: nat)
    requires Ordered(q, maxDeliveries)
    requires q'.jobs == q.jobs && q'.starts == q.starts && q'.acked == q.acked
    requires q'.normal == q.With(name, XAdd(q.At(name), payload)).normal
    requires q'.large == q.With(name, XAdd(q.At(name), payload)).large
    requires forall key: Key | q.TaskIn(key).Some? ::
               History(q'.statuses, q.TaskIn(key).value.taskId) == History(q.statuses, q.TaskIn(key).value.taskId)
    requires match Decode(payload)
             case None => true
             case Some(task) => History(q'.statuses, task.taskId) == [Queued]
    ensures forall key: Key | q'.HasMessage(key) :: MessageOk(q', key, maxDeliveries)
    ensures forall key: Key | !q'.HasMessage(key) :: Calls(q'.starts, key) == 0
  {
    hide Decode, Safe, Announced, Submitted, Expected;
    forall key: Key | q'.HasMessage(key) ensures MessageOk(q', key, maxDeliveries) {
      if q.HasMessage(key) {
        assert MessageOk(q, key, maxDeliveries);
        OldMessagePhase(q, q', name, payload, key);
        UntouchedStaysOk(q, q', key, maxDeliveries);
      } else {
        NoJobForNewMessage(q, key);
        NewMessageWaits(q, q', name, payload, key, maxDeliveries);
      }
    }
  }

  lemma OldMessagePhase(q: Queue, q': Queue, name: StreamName, payload: Payload, key: Key)
    requires q'.jobs == q.jobs && q.HasMessage(key) && OneJob(q, key)
    requires q'.normal == q.With(name, XAdd(q.At(name), payload)).normal
    requires q'.large == q.With(name, XAdd(q.At(name), payload)).large
    ensures PhaseOf(q', key) == PhaseOf(q, key) && q'.TaskIn(key) == q.TaskIn(key) && OneJob(q', key)
  {
    hide Decode;
  }

  lemma NewMessageWaits(q: Queue, q': Queue, name: StreamName, payload: Payload, key: Key, maxDeliveries: nat)
    requires Safe(q) && !q.HasMessage(key) && q'.HasMessage(key)
    requires !q.IsPending(key) && (forall d <- q.jobs :: d.key != key) && Calls(q'.starts, key) == 0
    requires q'.jobs == q.jobs
    requires q'.normal == q.With(name, XAdd(q.At(name), payload)).normal
    requires q'.large == q.With(name, XAdd(q.At(name), payload)).large
    requires Decode(payload).Some? ==> History(q'.statuses, Decode(payload).value.taskId) == [Queued]
    ensures MessageOk(q', key, maxDeliveries)
  {
    hide Decode, Justified, JobsBehind;
    assert Split(q.At(name), name, q.acked);
    assert q'.TaskIn(key) == Decode(payload);
    assert PhaseOf(q', key) == Waiting;
    assert Attempts(0) == [Queued];
  }

  lemma HistoryOfOthers(q: Queue, w: StatusWrite, key: Key)
    requires forall task: TaskId :: Submitted(q, task) <= 1
    requires q.TaskIn(key).Some? && q.TaskIn(key).value.taskId != w.task
    ensures History(q.statuses + [w], q.TaskIn(key).value.taskId) == History(q.statuses, q.TaskIn(key).value.taskId)
  {
    HistoryAppend(q.statuses, w, q.TaskIn(key).value.taskId);
  }

  /** A fresh task's first status does not touch the history of any message already there. */
  lemma EnqueueHistories(q: Queue, task: IntentTask, maxDeliveries: nat)
    requires Ordered(q, maxDeliveries) && Submitted(q, task.taskId) == 0
    ensures var statuses := q.statuses + [StatusWrite(task.taskId, Queued)];
            && History(statuses, task.taskId) == [Queued]
            && forall key: Key | q.TaskIn(key).Some? ::
                 History(statuses, q.TaskIn(key).value.taskId) == History(q.statuses, q.TaskIn(key).value.taskId)
  {
    hide Decode, Submitted;
    var statuses := q.statuses + [StatusWrite(task.taskId, Queued)];
    assert Announced(q, task.taskId);
    NoQueuedNoHistory(q, task.taskId);
    HistoryAppend(q.statuses, StatusWrite(task.taskId, Queued), task.taskId);
    forall key: Key | q.TaskIn(key).Some?
      ensures History(statuses, q.TaskIn(key).value.taskId) == History(q.statuses, q.TaskIn(key).value.taskId)
    {
      MessageIsSubmitted(q, key);
      HistoryOfOthers(q, StatusWrite(task.taskId, Queued), key);
    }
  }

  lemma EnqueueKeepsMessages(q: Queue, task: IntentTask, maxDeliveries: nat)
    requires Ordered(q, maxDeliveries) && Submitted(q, task.taskId) == 0
    ensures var q' := Apply(q, Enqueue(task), maxDeliveries);
            && (forall key: Key | q'.HasMessage(key) :: MessageOk(q', key, maxDeliveries))
            && (forall key: Key | !q'.HasMessage(key) :: Calls(q'.starts, key) == 0)
  {
    EnqueueHistories(q, task, maxDeliveries);
    ArrivalKeepsMessages(q, Apply(q, Enqueue(task), maxDeliveries), StreamFor(task), Carrying(task), maxDeliveries);
  }

  lemma MessageIsSubmitted(q: Queue, key: Key)
    requires q.TaskIn(key).Some?
    ensures Submitted(q, q.TaskIn(key).value.taskId) >= 1
  {
    CarriedIsCounted(q.At(key.stream).entries, key.id - 1, q.TaskIn(key).value.taskId);
  }

  lemma EnqueueKeepsFresh(q: Queue, submitted: IntentTask, maxDeliveries: nat, task: TaskId)
    requires Submitted(q, submitted.taskId) == 0 && Submitted(q, task) <= 1
    ensures Submitted(Apply(q, Enqueue(submitted), maxDeliveries), task) <= 1
  {
    CopiesAppend(q.At(StreamFor(submitted)).entries, Carrying(submitted), task);
  }

  lemma UndecodableKeepsFresh(q: Queue, name: StreamName, payload: RawPayload, maxDeliveries: nat, task: TaskId)
    requires Submitted(q, task) <= 1
    ensures Submitted(Apply(q, AddUndecodable(name, payload), maxDeliveries), task) <= 1
  {
    CopiesAppend(q.At(name).entries, Undecodable(payload), task);
  }

  lemma NoJobWhileWaiting(q: Queue, key: Key)
    requires Safe(q) && q.Undelivered(key)
    ensures forall d <- q.jobs :: d.key != key
    ensures !q.IsPending(key)
  {
    assert Split(q.At(key.stream), key.stream, q.acked);
    forall d <- q.jobs ensures d.key != key {
      assert Behind(q.At(d.key.stream), d);
    }
  }

  /** The jobs after a hand-out: the old ones and one for the current delivery of each id. */
  lemma StartJobsIsExact(q: Queue, name: StreamName, ids: seq<nat>)
    ensures var q', s := StartJobs(q, name, ids), q.At(name);
            && q' == q.(jobs := q'.jobs)
            && forall d: Delivery ::
                 var isNew := d.key.stream == name && d.key.id in ids && d.key.id in s.pending
                              && d.n == s.pending[d.key.id].deliveries;
                 && (d in q'.jobs <==> isNew || d in q.jobs)
                 && (isNew ==> q'.jobs[d] == Started)
                 && (!isNew && d in q.jobs ==> q'.jobs[d] == q.jobs[d])
  {
  }

  /** Reading gives exactly the messages it returns their first delivery and a job. */
  lemma ReadPhases(q: Queue, name: StreamName, count: nat, key: Key)
    requires Safe(q) && OneJob(q, key)
    ensures var q' := Apply(q, Read(name, count, Succeeds), 1);
            && OneJob(q', key)
            && if key.stream == name && key.id in ReadIds(q.At(name), count)
               then PhaseOf(q, key) == Waiting && PhaseOf(q', key) == InJob(1, Started)
               else PhaseOf(q', key) == PhaseOf(q, key)
  {
    hide Decode, StartJobs, ReadIds, Safe;
    var s := q.At(name);
    var q', ids := Apply(q, Read(name, count, Succeeds), 1), ReadIds(s, count);
    ReadIsExact(s, count);
    StartJobsIsExact(q.With(name, XReadGroup(s, count)), name, ids);
    if key.stream == name && key.id in ids {
      NoJobWhileWaiting(q, key);
      assert q'.At(name).pending[key.id] == PendingEntry(1, false);
    } else {
      assert q'.IsPending(key) == q.IsPending(key);
    }
  }

  /** A read turns waiting messages into first deliveries with a job each. */
  lemma ReadKeepsMessages(q: Queue, name: StreamName, count: nat, maxDeliveries: nat)
    requires Ordered(q, maxDeliveries) && maxDeliveries >= 1
    ensures var q' := Apply(q, Read(name, count, Succeeds), maxDeliveries);
            forall key: Key | q'.HasMessage(key) :: MessageOk(q', key, maxDeliveries)
  {
    hide Decode, ReadIds, Safe, PhaseOf, Expected, Announced, Submitted, OneJob;
    var q' := Apply(q, Read(name, count, Succeeds), maxDeliveries);
    forall key: Key | q'.HasMessage(key) ensures MessageOk(q', key, maxDeliveries) {
      assert MessageOk(q, key, maxDeliveries);
      ReadPhases(q, name, count, key);
      HandOutKeepsOk(q, q', key, maxDeliveries);
    }
  }

  /** A hand-out starts the next attempt, or leaves the message alone. */
  lemma HandOutKeepsOk(q: Queue, q': Queue, key: Key, maxDeliveries: nat)
    requires MessageOk(q, key, maxDeliveries) && maxDeliveries >= 1
    requires q'.TaskIn(key) == q.TaskIn(key) && q'.statuses == q.statuses && q'.starts == q.starts
    requires OneJob(q', key)
    requires || PhaseOf(q', key) == PhaseOf(q, key)
             || (PhaseOf(q, key) == Waiting && PhaseOf(q', key) == InJob(1, Started))
             || (exists n: nat, idle :: PhaseOf(q, key) == Resting(n, idle) && PhaseOf(q', key) == InJob(n + 1, Started))
    ensures MessageOk(q', key, maxDeliveries)
  {
    hide Decode, OneJob, PhaseOf;
  }

  lemma ReadIsExact(s: Stream<Payload>, count: nat)
    ensures forall id: nat :: id in ReadIds(s, count) <==> s.last < id <= s.last + ReadSize(s, count)
  {
    var ids := ReadIds(s, count);
    forall id: nat | s.last < id <= s.last + ReadSize(s, count) ensures id in ids {
      assert ids[id - s.last - 1] == id;
    }
  }

  /** Claiming gives exactly the messages it returns their next delivery and a job. */
  lemma ClaimPhases(q: Queue, name: StreamName, cursor: nat, count: nat, budget: nat, key: Key)
    requires Safe(q) && OneJob(q, key)
    ensures var s := q.At(name);
            var q' := Apply(q, Claim(name, cursor, count, budget, Succeeds), 1);
            && OneJob(q', key)
            && if key.stream == name && key.id in ClaimScan(s.pending, cursor, s.last, count, budget).0
               then q.IsPending(key)
                 && PhaseOf(q, key) == Resting(q.PendingOf(key).deliveries, true)
                 && PhaseOf(q', key) == InJob(q.PendingOf(key).deliveries + 1, Started)
               else PhaseOf(q', key) == PhaseOf(q, key)
  {
    hide Decode, ClaimScan, StartJobs, Safe, Claimed;
    var s := q.At(name);
    var ids := ClaimScan(s.pending, cursor, s.last, count, budget).0;
    PendingIdsAreRight(q, name);
    ScanClaimsExactlyTheIdlePrefix(s.pending, cursor, s.last, count, budget);
    ClaimHandsOut(q, name, ids, key);
  }

  lemma PendingIdsAreRight(q: Queue, name: StreamName)
    requires Safe(q)
    ensures 0 !in q.At(name).pending
  {
    assert Split(q.At(name), name, q.acked);
  }

  lemma ClaimHandsOut(q: Queue, name: StreamName, ids: seq<nat>, key: Key)
    requires OneJob(q, key)
    requires forall id <- ids :: id in q.At(name).pending && q.At(name).pending[id].idle
    ensures var s := q.At(name);
            var q' := StartJobs(q.With(name, Claimed(s, ids)), name, ids);
            && OneJob(q', key)
            && if key.stream == name && key.id in ids
               then q.IsPending(key)
                 && PhaseOf(q, key) == Resting(q.PendingOf(key).deliveries, true)
                 && PhaseOf(q', key) == InJob(q.PendingOf(key).deliveries + 1, Started)
               else PhaseOf(q', key) == PhaseOf(q, key)
  {
    hide Decode, StartJobs;
    var s := q.At(name);
    var q' := StartJobs(q.With(name, Claimed(s, ids)), name, ids);
    StartJobsIsExact(q.With(name, Claimed(s, ids)), name, ids);
    assert q'.IsPending(key) == q.IsPending(key);
    if key.stream == name && key.id in ids {
      assert forall e <- q.jobs :: e.key != key;
    }
  }

  /** A claim turns idle messages without a job into their next delivery, with a job. */
  lemma ClaimKeepsMessages(q: Queue, name: StreamName, cursor: nat, count: nat, budget: nat, maxDeliveries: nat)
    requires Ordered(q, maxDeliveries) && maxDeliveries >= 1
    ensures var q' := Apply(q, Claim(name, cursor, count, budget, Succeeds), maxDeliveries);
            forall key: Key | q'.HasMessage(key) :: MessageOk(q', key, maxDeliveries)
  {
    hide Decode, ClaimScan, Safe, PhaseOf, Expected, Announced, Submitted, OneJob;
    var q' := Apply(q, Claim(name, cursor, count, budget, Succeeds), maxDeliveries);
    forall key: Key | q'.HasMessage(key) ensures MessageOk(q', key, maxDeliveries) {
      assert MessageOk(q, key, maxDeliveries);
      ClaimPhases(q, name, cursor, count, budget, key);
      HandOutKeepsOk(q, q', key, maxDeliveries);
    }
  }

  /** Time makes a message without a job idle, and touches no other. */
  lemma IdlePhases(q: Queue, idle: Key, key: Key)
    requires Orderly(q, BecomeIdle(idle)) && OneJob(q, key)
    ensures var q' := Apply(q, BecomeIdle(idle), 1);
            && OneJob(q', key)
            && PhaseOf(q', key) == (if key == idle && q.IsPending(key)
                 then Resting(q.PendingOf(key).deliveries, true) else PhaseOf(q, key))
  {
    hide Decode;
    var q' := Apply(q, BecomeIdle(idle), 1);
    assert q'.IsPending(key) == q.IsPending(key);
  }

  lemma IdleKeepsMessages(q: Queue, idle: Key, maxDeliveries: nat)
    requires Ordered(q, maxDeliveries) && Orderly(q, BecomeIdle(idle))
    ensures var q' := Apply(q, BecomeIdle(idle), maxDeliveries);
            forall key: Key | q'.HasMessage(key) :: MessageOk(q', key, maxDeliveries)
  {
    hide Decode, Safe, Announced, Submitted;
    var q' := Apply(q, BecomeIdle(idle), maxDeliveries);
    forall key: Key | q'.HasMessage(key) ensures MessageOk(q', key, maxDeliveries) {
      assert MessageOk(q, key, maxDeliveries);
      IdlePhases(q, idle, key);
      IdleKeepsOk(q, q', key, maxDeliveries);
    }
  }

  lemma IdleKeepsOk(q: Queue, q': Queue, key: Key, maxDeliveries: nat)
    requires MessageOk(q, key, maxDeliveries)
    requires q'.TaskIn(key) == q.TaskIn(key) && q'.statuses == q.statuses && q'.starts == q.starts
    requires OneJob(q', key)
    requires || PhaseOf(q', key) == PhaseOf(q, key)
             || exists n: nat, before, after :: PhaseOf(q, key) == Resting(n, before) && PhaseOf(q', key) == Resting(n, after)
    ensures MessageOk(q', key, maxDeliveries)
  {
    hide Decode, OneJob, PhaseOf;
  }

  /** The phase a job's step leads to when its Redis calls succeed. */
  function NextPhase(n: nat, step: JobStep, decodes: bool, outcome: Outcome, maxDeliveries: nat): Phase {
    match step
    case Started => InJob(n, if decodes then MarkRunning else AddDeadLetter)
    case MarkRunning => InJob(n, Working)
    case Working => InJob(n, if outcome.Succeeds? then MarkDone else Counting)
    case MarkDone => InJob(n, Acking)
    case Acking => Closed
    case Counting => InJob(n, if n >= maxDeliveries then MarkFailed else MarkRetrying)
    case MarkRetrying => Resting(n, false)
    case MarkFailed => InJob(n, AddDeadLetter)
    case AddDeadLetter => InJob(n, AckDeadLetter)
    case AckDeadLetter => Closed
  }

  /** The states a job's step writes when its Redis calls succeed. */
  function Written(step: JobStep): seq<TaskState> {
    match step
    case MarkRunning => [Running]
    case MarkDone => [Done]
    case MarkRetrying => [Retrying]
    case MarkFailed => [Failed]
    case _ => []
  }

  /** A step other than an XACK touches no stream and moves or ends its own job only. */
  lemma AdvanceMovesOneJob(q: Queue, d: Delivery, outcome: Outcome, maxDeliveries: nat)
    requires !Breaks(q, d.key)
    requires d in q.jobs && q.jobs[d] != Acking && q.jobs[d] != AckDeadLetter
    requires outcome.Succeeds? || q.jobs[d] == Working
    requires q.IsPending(d.key) && q.PendingOf(d.key).deliveries == d.n
    ensures var q' := AdvanceJob(q, d, outcome, maxDeliveries);
            var next := NextPhase(d.n, q.jobs[d], q.TaskIn(d.key).Some?, outcome, maxDeliveries);
            && q'.normal == q.normal && q'.large == q.large
            && (if next.InJob? then q'.jobs == q.jobs[d := next.step] && next.n == d.n
                else q'.jobs == q.jobs - {d} && next == Resting(d.n, false))
  {
    hide Decode;
  }

  /** The working job of a message is its current delivery, and its step moves the phase on. */
  lemma AdvancePhases(q: Queue, d: Delivery, outcome: Outcome, maxDeliveries: nat, key: Key)
    requires !Breaks(q, d.key)
    requires Safe(q) && OneJob(q, key) && OneJob(q, d.key) && d in q.jobs
    requires outcome.Succeeds? || q.jobs[d] == Working
    ensures PhaseOf(q, d.key) == InJob(d.n, q.jobs[d])
    ensures var q' := AdvanceJob(q, d, outcome, maxDeliveries);
            && OneJob(q', key)
            && PhaseOf(q', key) == (if key == d.key
                 then NextPhase(d.n, q.jobs[d], q.TaskIn(d.key).Some?, outcome, maxDeliveries)
                 else PhaseOf(q, key))
  {
    hide Decode, Safe;
    assert d == Delivery(d.key, d.n);
    if q.jobs[d] == Acking || q.jobs[d] == AckDeadLetter {
      AckPhases(q, d, key);
    } else {
      hide AdvanceJob, NextPhase;
      AdvanceMovesOneJob(q, d, outcome, maxDeliveries);
      assert AdvanceJob(q, d, outcome, maxDeliveries).IsPending(key) == q.IsPending(key);
    }
  }

  lemma AckPhases(q: Queue, d: Delivery, key: Key)
    requires Safe(q) && OneJob(q, key) && OneJob(q, d.key) && d in q.jobs
    ensures var q' := Finish(Ack(q, d.key), d);
            OneJob(q', key) && PhaseOf(q', key) == if key == d.key then Closed else PhaseOf(q, key)
  {
    hide Decode, JobsBehind, Justified;
    var q' := Finish(Ack(q, d.key), d);
    assert Split(q.At(d.key.stream), d.key.stream, q.acked);
    assert q'.IsPending(key) == (q.IsPending(key) && key != d.key);
  }

  /** What the step adds to the two logs. */
  lemma AdvanceLogs(q: Queue, d: Delivery, outcome: Outcome, maxDeliveries: nat)
    requires !Breaks(q, d.key)
    requires d in q.jobs
    requires outcome.Succeeds? || q.jobs[d] == Working
    ensures var q', task := AdvanceJob(q, d, outcome, maxDeliveries), q.TaskIn(d.key);
            && q'.starts == (if q.jobs[d] == Started && task.Some? then q.starts + [d.key] else q.starts)
            && q'.statuses == (if task.Some? && Written(q.jobs[d]) != []
                 then q.statuses + [StatusWrite(task.value.taskId, Written(q.jobs[d])[0])] else q.statuses)
  {
    hide Decode;
  }

  lemma AdvanceRecords(q: Queue, d: Delivery, outcome: Outcome, maxDeliveries: nat, key: Key, task: TaskId)
    requires !Breaks(q, d.key)
    requires d in q.jobs
    requires outcome.Succeeds? || q.jobs[d] == Working
    ensures var q' := AdvanceJob(q, d, outcome, maxDeliveries);
            && Calls(q'.starts, key) == Calls(q.starts, key) +
                 (if key == d.key && q.jobs[d] == Started && q.TaskIn(d.key).Some? then 1 else 0)
            && History(q'.statuses, task) ==
                 (if q.TaskIn(d.key).Some? && q.TaskIn(d.key).value.taskId == task
                  then History(q.statuses, task) + Written(q.jobs[d]) else History(q.statuses, task))
  {
    hide Decode, AdvanceJob;
    AdvanceLogs(q, d, outcome, maxDeliveries);
    CallsAppend(q.starts, d.key, key);
    var written := Written(q.jobs[d]);
    if q.TaskIn(d.key).Some? && written != [] {
      assert written == [written[0]];
      HistoryAppend(q.statuses, StatusWrite(q.TaskIn(d.key).value.taskId, written[0]), task);
    } else {
      assert History(q.statuses, task) + [] == History(q.statuses, task);
    }
  }

  /** The phases, histories and call counts of a decodable message move on together. */
  lemma StepKeepsExpected(n: nat, step: JobStep, h: seq<TaskState>, calls: nat, outcome: Outcome, maxDeliveries: nat)
    requires Expected(InJob(n, step), h, calls, maxDeliveries)
    requires outcome.Succeeds? || step == Working
    ensures Expected(NextPhase(n, step, true, outcome, maxDeliveries), h + Written(step),
                     calls + if step == Started then 1 else 0, maxDeliveries)
  {
    var after := h + Written(step);
    match step
    case MarkDone => assert after == Attempts(n - 1) + [Running, Done];
    case MarkFailed => assert after == Attempts(n - 1) + [Running, Failed];
    case MarkRetrying => assert after == Attempts(n - 1) + [Running, Retrying] == Attempts(n);
    case Acking => assert after == h && Ended(after, n, maxDeliveries);
    case AckDeadLetter => assert after == h && Ended(after, n, maxDeliveries);
    case _ => assert Written(step) == [] ==> after == h;
  }

  lemma StepKeepsUndecodable(n: nat, step: JobStep, calls: nat, outcome: Outcome, maxDeliveries: nat)
    requires ExpectedUndecodable(InJob(n, step), calls)
    ensures ExpectedUndecodable(NextPhase(n, step, false, outcome, maxDeliveries), calls)
  {
  }

  lemma AdvanceKeepsMessage(q: Queue, d: Delivery, outcome: Outcome, maxDeliveries: nat, key: Key)
    requires Ordered(q, maxDeliveries) && Orderly(q, Advance(d, outcome)) && q.HasMessage(key)
    ensures MessageOk(AdvanceJob(q, d, outcome, maxDeliveries), key, maxDeliveries)
  {
    hide Decode, Safe, AdvanceJob, PhaseOf, Announced, Submitted, Expected, ExpectedUndecodable, History, Calls;
    JobHasMessage(q, d);
    assert MessageOk(q, key, maxDeliveries) && MessageOk(q, d.key, maxDeliveries);
    if key == d.key {
      AdvanceKeepsOwn(q, d, outcome, maxDeliveries);
    } else {
      AdvanceKeepsOther(q, d, outcome, maxDeliveries, key);
    }
  }

  lemma AdvanceKeepsOwn(q: Queue, d: Delivery, outcome: Outcome, maxDeliveries: nat)
    requires !Breaks(q, d.key)
    requires Safe(q) && Orderly(q, Advance(d, outcome))
    requires MessageOk(q, d.key, maxDeliveries)
    ensures MessageOk(AdvanceJob(q, d, outcome, maxDeliveries), d.key, maxDeliveries)
  {
    hide Decode, Safe, AdvanceJob, PhaseOf, Expected, NextPhase, Written, History, Calls;
    AdvancePhases(q, d, outcome, maxDeliveries, d.key);
    AdvanceKeepsTasks(q, d, outcome, maxDeliveries, d.key);
    match q.TaskIn(d.key)
    case None =>
      AdvanceRecords(q, d, outcome, maxDeliveries, d.key, "");
      StepKeepsUndecodable(d.n, q.jobs[d], Calls(q.starts, d.key), outcome, maxDeliveries);
    case Some(task) =>
      AdvanceRecords(q, d, outcome, maxDeliveries, d.key, task.taskId);
      StepKeepsExpected(d.n, q.jobs[d], History(q.statuses, task.taskId), Calls(q.starts, d.key), outcome, maxDeliveries);
  }

  lemma AdvanceKeepsOther(q: Queue, d: Delivery, outcome: Outcome, maxDeliveries: nat, key: Key)
    requires !Breaks(q, d.key)
    requires Safe(q) && Orderly(q, Advance(d, outcome))
    requires forall task: TaskId :: Submitted(q, task) <= 1
    requires MessageOk(q, key, maxDeliveries) && OneJob(q, d.key) && key != d.key
    ensures MessageOk(AdvanceJob(q, d, outcome, maxDeliveries), key, maxDeliveries)
  {
    hide Decode, Safe, AdvanceJob, PhaseOf, Expected, NextPhase, Written, History, Calls, Submitted;
    AdvancePhases(q, d, outcome, maxDeliveries, key);
    AdvanceKeepsTasks(q, d, outcome, maxDeliveries, key);
    AdvanceRecords(q, d, outcome, maxDeliveries, key, if q.TaskIn(key).Some? then q.TaskIn(key).value.taskId else "");
    if q.TaskIn(d.key).Some? && q.TaskIn(key).Some? {
      TasksDiffer(q, key, d.key);
    }
    UntouchedStaysOk(q, AdvanceJob(q, d, outcome, maxDeliveries), key, maxDeliveries);
  }

  lemma AdvanceKeepsTasks(q: Queue, d: Delivery, outcome: Outcome, maxDeliveries: nat, key: Key)
    requires d in q.jobs
    ensures AdvanceJob(q, d, outcome, maxDeliveries).TaskIn(key) == q.TaskIn(key)
    ensures AdvanceJob(q, d, outcome, maxDeliveries).HasMessage(key) == q.HasMessage(key)
  {
    hide Decode;
  }

  lemma AdvanceKeepsOrdered(q: Queue, d: Delivery, outcome: Outcome, maxDeliveries: nat)
    requires Ordered(q, maxDeliveries) && Orderly(q, Advance(d, outcome))
    ensures var q' := AdvanceJob(q, d, outcome, maxDeliveries);
            && (forall key: Key | q'.HasMessage(key) :: MessageOk(q', key, maxDeliveries))
            && (forall key: Key | !q'.HasMessage(key) :: Calls(q'.starts, key) == 0)
  {
    hide Decode, AdvanceJob;
    var q' := AdvanceJob(q, d, outcome, maxDeliveries);
    JobHasMessage(q, d);
    forall key: Key
      ensures q'.HasMessage(key) ==> MessageOk(q', key, maxDeliveries)
      ensures !q'.HasMessage(key) ==> Calls(q'.starts, key) == 0
    {
      AdvanceKeepsTasks(q, d, outcome, maxDeliveries, key);
      if q.HasMessage(key) {
        AdvanceKeepsMessage(q, d, outcome, maxDeliveries, key);
      } else {
        AdvanceRecords(q, d, outcome, maxDeliveries, key, "");
      }
    }
  }

  lemma StepKeepsFresh(q: Queue, a: Action, maxDeliveries: nat, task: TaskId)
    requires Orderly(q, a) && Submitted(q, task) <= 1
    ensures Submitted(Apply(q, a, maxDeliveries), task) <= 1
  {
    hide Decode;
    match a
    case Enqueue(submitted) =>
      EnqueueKeepsFresh(q, submitted, maxDeliveries, task);
    case AddUndecodable(name, payload) =>
      UndecodableKeepsFresh(q, name, payload, maxDeliveries, task);
    case Advance(d, outcome) =>
      if d in q.jobs {
        var _ := AdvanceWrites(q, d, outcome, maxDeliveries);
      }
    case _ =>
      OthersWriteNothing(q, a, maxDeliveries);
  }

  lemma StepKeepsMessageInv(q: Queue, a: Action, maxDeliveries: nat)
    requires Ordered(q, maxDeliveries) && Orderly(q, a) && maxDeliveries >= 1
    ensures var q' := Apply(q, a, maxDeliveries);
            && (forall key: Key | q'.HasMessage(key) :: MessageOk(q', key, maxDeliveries))
            && (forall key: Key | !q'.HasMessage(key) :: Calls(q'.starts, key) == 0)
  {
    hide MessageOk, Calls, Safe, Submitted, Announced, ClaimScan, ReadIds, AdvanceJob, StartJobs;
    match a
    case Enqueue(task) =>
      EnqueueKeepsMessages(q, task, maxDeliveries);
    case AddUndecodable(name, payload) =>
      ArrivalKeepsMessages(q, Apply(q, a, maxDeliveries), name, Undecodable(payload), maxDeliveries);
    case Read(name, count, _) =>
      OthersWriteNothing(q, a, maxDeliveries);
      ReadKeepsMessages(q, name, count, maxDeliveries);
    case Claim(name, cursor, count, budget, _) =>
      OthersWriteNothing(q, a, maxDeliveries);
      ClaimKeepsMessages(q, name, cursor, count, budget, maxDeliveries);
    case BecomeIdle(key) => IdleKeepsMessages(q, key, maxDeliveries);
    case Advance(d, outcome) => AdvanceKeepsOrdered(q, d, outcome, maxDeliveries);
  }

  lemma StepKeepsNoneBreaks(q: Queue, a: Action, maxDeliveries: nat)
    requires NoneBreaks(q) && Orderly(q, a)
    ensures NoneBreaks(Apply(q, a, maxDeliveries))
  {
    hide AdvanceJob, StartJobs, ClaimScan, ReadIds, PayloadBreaks;
    var q' := Apply(q, a, maxDeliveries);
    if a.Advance? && a.delivery in q.jobs {
      var _ := AdvanceWrites(q, a.delivery, a.outcome, maxDeliveries);
    } else if !Arrival(a) && !a.Advance? {
      OthersWriteNothing(q, a, maxDeliveries);
    }
    forall key: Key ensures !Breaks(q', key) {
      assert !Breaks(q, key);
      NewPayloadsAreFine(a);
    }
  }

  lemma NewPayloadsAreFine(a: Action)
    ensures a.AddUndecodable? && !BreaksDecoding(a.raw) ==> !PayloadBreaks(Undecodable(a.raw))
    ensures a.Enqueue? ==> !PayloadBreaks(Carrying(a.task))
  {
  }

  lemma StepKeepsOrdered(q: Queue, a: Action, maxDeliveries: nat)
    requires Ordered(q, maxDeliveries) && Orderly(q, a) && maxDeliveries >= 1
    ensures Ordered(Apply(q, a, maxDeliveries), maxDeliveries)
  {
    hide Apply, Orderly, MessageOk, Calls, Safe, Submitted, Announced;
    ApplyIsSafe(q, a, maxDeliveries);
    forall task: TaskId
      ensures Announced(Apply(q, a, maxDeliveries), task) && Submitted(Apply(q, a, maxDeliveries), task) <= 1
    {
      ApplyKeepsAnnounced(q, a, maxDeliveries, task);
      StepKeepsFresh(q, a, maxDeliveries, task);
    }
    StepKeepsMessageInv(q, a, maxDeliveries);
    StepKeepsNoneBreaks(q, a, maxDeliveries);
  }

  lemma EmptyIsOrdered(maxDeliveries: nat)
    ensures Ordered(EMPTY_QUEUE, maxDeliveries)
  {
  }

  lemma {:induction false} RunKeepsOrdered(q: Queue, trace: seq<Action>, maxDeliveries: nat)
    requires Ordered(q, maxDeliveries) && OrderlyRun(q, trace, maxDeliveries) && maxDeliveries >= 1
    ensures Ordered(Run(q, trace, maxDeliveries), maxDeliveries)
    decreases |trace|
  {
    hide Ordered, Orderly, Apply;
    if trace != [] {
      RunKeepsOrdered(q, trace[..|trace| - 1], maxDeliveries);
      StepKeepsOrdered(Run(q, trace[..|trace| - 1], maxDeliveries), trace[|trace| - 1], maxDeliveries);
    }
  }

  // ------------------------------------------------------------------ attempts and histories

  lemma ExpectedCallsAreBounded(phase: Phase, h: seq<TaskState>, calls: nat, maxDeliveries: nat)
    requires Expected(phase, h, calls, maxDeliveries)
    ensures calls <= maxDeliveries
    ensures phase == Closed ==> h != [] && h[|h| - 1] in {Done, Failed}
  {
    if phase == Closed {
      var n :| 1 <= n <= maxDeliveries && Ended(h, n, maxDeliveries) && calls == n;
    }
  }

  /**
   Bounded attempts.  In every orderly run a task reaches its handler at most `max_deliveries`
   times, and a message that does not decode never does; once a decodable message is acknowledged
   its task is DONE or FAILED.
   */
  lemma AttemptsAreBounded(trace: seq<Action>, maxDeliveries: nat, q: Queue, key: Key)
    requires maxDeliveries >= 1
    requires OrderlyRun(EMPTY_QUEUE, trace, maxDeliveries) && q == Run(EMPTY_QUEUE, trace, maxDeliveries)
    ensures Calls(q.starts, key) <= maxDeliveries
    ensures q.TaskIn(key).None? ==> Calls(q.starts, key) == 0
    ensures key in q.acked && q.TaskIn(key).Some? ==>
              var h := History(q.statuses, q.TaskIn(key).value.taskId); h != [] && h[|h| - 1] in {Done, Failed}
  {
    hide Decode, Safe;
    EmptyIsOrdered(maxDeliveries);
    RunKeepsOrdered(EMPTY_QUEUE, trace, maxDeliveries);
    OrderedIsBounded(q, maxDeliveries, key);
  }

  lemma OrderedIsBounded(q: Queue, maxDeliveries: nat, key: Key)
    requires Ordered(q, maxDeliveries)
    ensures Calls(q.starts, key) <= maxDeliveries
    ensures q.TaskIn(key).None? ==> Calls(q.starts, key) == 0
    ensures key in q.acked && q.TaskIn(key).Some? ==>
              var h := History(q.statuses, q.TaskIn(key).value.taskId); h != [] && h[|h| - 1] in {Done, Failed}
  {
    hide Decode;
    SafeLosesNothing(q, key);
    if q.HasMessage(key) {
      assert MessageOk(q, key, maxDeliveries);
      if q.TaskIn(key).Some? {
        ExpectedCallsAreBounded(PhaseOf(q, key), History(q.statuses, q.TaskIn(key).value.taskId), Calls(q.starts, key), maxDeliveries);
      }
    }
  }

  /** QUEUED (RUNNING RETRYING)^j RUNNING end, with end DONE and j < max_deliveries, or with end FAILED and
      j == max_deliveries - 1. */
  ghost predicate FullHistory(full: seq<TaskState>, maxDeliveries: nat) {
    exists j: nat | j < maxDeliveries ::
      || full == Attempts(j) + [Running, Done]
      || (j == maxDeliveries - 1 && full == Attempts(j) + [Running, Failed])
  }

  lemma {:induction false} AttemptsAreUnfinished(failures: nat)
    ensures forall i | 0 <= i < |Attempts(failures)| :: Attempts(failures)[i] !in {Done, Failed}
  {
    if failures > 0 {
      AttemptsAreUnfinished(failures - 1);
    }
  }

  /** The history has the one shape, and an end state stands last. */
  ghost predicate Shaped(h: seq<TaskState>, maxDeliveries: nat) {
    && (exists full :: FullHistory(full, maxDeliveries) && h <= full)
    && (forall i | 0 <= i < |h| && h[i] in {Done, Failed} :: i == |h| - 1)
  }

  lemma PrefixIsShaped(h: seq<TaskState>, failures: nat, maxDeliveries: nat)
    requires failures < maxDeliveries
    requires || h <= Attempts(failures) + [Running, Done]
             || (failures == maxDeliveries - 1 && h <= Attempts(failures) + [Running, Failed])
    ensures Shaped(h, maxDeliveries)
  {
    AttemptsAreUnfinished(failures);
    assert FullHistory(Attempts(failures) + [Running, Done], maxDeliveries);
    assert failures == maxDeliveries - 1 ==> FullHistory(Attempts(failures) + [Running, Failed], maxDeliveries);
  }

  lemma ExpectedIsShaped(phase: Phase, h: seq<TaskState>, calls: nat, maxDeliveries: nat)
    requires Expected(phase, h, calls, maxDeliveries) && maxDeliveries >= 1
    ensures Shaped(h, maxDeliveries)
  {
    match phase
    case Waiting => PrefixIsShaped(h, 0, maxDeliveries);
    case Resting(n, _) => PrefixIsShaped(h, n, maxDeliveries);
    case InJob(n, _) => PrefixIsShaped(h, n - 1, maxDeliveries);
    case Closed =>
      var n :| 1 <= n <= maxDeliveries && Ended(h, n, maxDeliveries) && calls == n;
      PrefixIsShaped(h, n - 1, maxDeliveries);
  }

  lemma {:induction false} CountedIsCarried(entries: seq<Payload>, task: TaskId) returns (i: nat)
    requires Copies(entries, task) >= 1
    ensures i < |entries| && Carries(entries[i], task)
    decreases |entries|
  {
    hide Carries;
    if Carries(entries[|entries| - 1], task) {
      i := |entries| - 1;
    } else {
      i := CountedIsCarried(entries[..|entries| - 1], task);
    }
  }

  lemma OrderedHistory(q: Queue, maxDeliveries: nat, task: TaskId)
    requires Ordered(q, maxDeliveries) && maxDeliveries >= 1
    ensures Shaped(History(q.statuses, task), maxDeliveries)
  {
    hide Safe, Expected, PhaseOf;
    assert Announced(q, task);
    var h := History(q.statuses, task);
    if Submitted(q, task) == 0 {
      NoQueuedNoHistory(q, task);
      PrefixIsShaped(h, 0, maxDeliveries);
    } else {
      var name := if Copies(q.normal.entries, task) >= 1 then Normal else Large;
      var i := CountedIsCarried(q.At(name).entries, task);
      var key := Key(name, i + 1);
      assert MessageOk(q, key, maxDeliveries);
      ExpectedIsShaped(PhaseOf(q, key), h, Calls(q.starts, key), maxDeliveries);
    }
  }

  /**
   Status histories have one shape.  In every orderly run the history of each task is a prefix of
   QUEUED (RUNNING RETRYING)^j RUNNING DONE for some j < `max_deliveries`, or of
   QUEUED (RUNNING RETRYING)^(max_deliveries - 1) RUNNING FAILED; nothing ever follows DONE or FAILED.
   */
  lemma HistoriesHaveOneShape(trace: seq<Action>, maxDeliveries: nat, q: Queue, task: TaskId)
    requires maxDeliveries >= 1
    requires OrderlyRun(EMPTY_QUEUE, trace, maxDeliveries) && q == Run(EMPTY_QUEUE, trace, maxDeliveries)
    ensures var h := History(q.statuses, task);
            && (exists full :: FullHistory(full, maxDeliveries) && h <= full)
            && (forall i | 0 <= i < |h| && h[i] in {Done, Failed} :: i == |h| - 1)
  {
    hide Decode, Safe;
    EmptyIsOrdered(maxDeliveries);
    RunKeepsOrdered(EMPTY_QUEUE, trace, maxDeliveries);
    OrderedHistory(q, maxDeliveries, task);
  }

  /** What the last state says in each phase. */
  lemma LastStateTells(phase: Phase, h: seq<TaskState>, calls: nat, maxDeliveries: nat)
    requires Expected(phase, h, calls, maxDeliveries)
    ensures h != []
    ensures h[|h| - 1] == Failed ==> calls == maxDeliveries
    ensures h[|h| - 1] == Retrying ==> phase.Resting? || phase.InJob?
    ensures phase == Closed && h[|h| - 1] != Done ==> h[|h| - 1] == Failed && calls == maxDeliveries
  {
    if phase == Closed {
      var n :| 1 <= n <= maxDeliveries && Ended(h, n, maxDeliveries) && calls == n;
    }
  }

  /**
   A task is not given up early.  In every orderly run a task whose last state is FAILED reached its handler
   exactly `max_deliveries` times, one whose last state is RETRYING is still pending, and an acknowledged one
   that is not DONE was tried `max_deliveries` times.
   */
  lemma FailedMeansAllAttempts(trace: seq<Action>, maxDeliveries: nat, q: Queue, key: Key)
    requires maxDeliveries >= 1
    requires OrderlyRun(EMPTY_QUEUE, trace, maxDeliveries) && q == Run(EMPTY_QUEUE, trace, maxDeliveries)
    requires q.TaskIn(key).Some?
    ensures var h := History(q.statuses, q.TaskIn(key).value.taskId);
            && h != []
            && (h[|h| - 1] == Failed ==> Calls(q.starts, key) == maxDeliveries)
            && (h[|h| - 1] == Retrying ==> q.IsPending(key) && key !in q.acked)
            && (key in q.acked && h[|h| - 1] != Done ==> Calls(q.starts, key) == maxDeliveries)
  {
    hide Decode, Safe, Expected, Ordered;
    EmptyIsOrdered(maxDeliveries);
    RunKeepsOrdered(EMPTY_QUEUE, trace, maxDeliveries);
    OrderedTells(q, maxDeliveries, key);
  }

  lemma OrderedTells(q: Queue, maxDeliveries: nat, key: Key)
    requires Ordered(q, maxDeliveries) && q.TaskIn(key).Some?
    ensures var h := History(q.statuses, q.TaskIn(key).value.taskId);
            && h != []
            && (h[|h| - 1] == Failed ==> Calls(q.starts, key) == maxDeliveries)
            && (h[|h| - 1] == Retrying ==> q.IsPending(key) && key !in q.acked)
            && (key in q.acked && h[|h| - 1] != Done ==> Calls(q.starts, key) == maxDeliveries)
  {
    hide Decode, Expected;
    SafeLosesNothing(q, key);
    hide Safe;
    assert MessageOk(q, key, maxDeliveries);
    LastStateTells(PhaseOf(q, key), History(q.statuses, q.TaskIn(key).value.taskId), Calls(q.starts, key), maxDeliveries);
  }
}
