/** The visible status history of one task, over all runs of the delivery protocol. */
module StatusHistory {
  import opened Common
  import opened IntentTasks
  import opened RedisStream
  import opened QueueProtocol

  /** The states written for one task, oldest first. */
  function History(statuses: seq<StatusWrite>, task: TaskId): seq<TaskState> {
    if statuses == [] then []
    else
      var w := statuses[|statuses| - 1];
      var before := History(statuses[..|statuses| - 1], task);
      if w.task == task then before + [w.state] else before
  }

  function QueuedCount(history: seq<TaskState>): nat {
    if history == [] then 0
    else QueuedCount(history[..|history| - 1]) + if history[|history| - 1] == Queued then 1 else 0
  }

  predicate Carries(p: Payload, task: TaskId) {
    Decode(p).Some? && Decode(p).value.taskId == task
  }

  /** How many messages of one stream carry this task. */
  function Copies(entries: seq<Payload>, task: TaskId): nat {
    if entries == [] then 0
    else Copies(entries[..|entries| - 1], task) + if Carries(entries[|entries| - 1], task) then 1 else 0
  }

  /** How often the task was submitted to the queue. */
  function Submitted(q: Queue, task: TaskId): nat {
    Copies(q.normal.entries, task) + Copies(q.large.entries, task)
  }

  lemma HistoryAppend(statuses: seq<StatusWrite>, w: StatusWrite, task: TaskId)
    ensures History(statuses + [w], task) ==
            if w.task == task then History(statuses, task) + [w.state] else History(statuses, task)
  {
    assert (statuses + [w])[..|statuses|] == statuses;
  }

  lemma QueuedCountAppend(history: seq<TaskState>, state: TaskState)
    ensures QueuedCount(history + [state]) == QueuedCount(history) + if state == Queued then 1 else 0
  {
    assert (history + [state])[..|history|] == history;
  }

  lemma CopiesAppend(entries: seq<Payload>, p: Payload, task: TaskId)
    ensures Copies(entries + [p], task) == Copies(entries, task) + if Carries(p, task) then 1 else 0
  {
    assert (entries + [p])[..|entries|] == entries;
  }

  lemma {:induction false} CarriedIsCounted(entries: seq<Payload>, i: nat, task: TaskId)
    requires i < |entries| && Carries(entries[i], task)
    ensures Copies(entries, task) >= 1
    decreases |entries|
  {
    if i < |entries| - 1 {
      CarriedIsCounted(entries[..|entries| - 1], i, task);
    }
  }

  /** The submissions and the QUEUED writes of a task match, and its history starts with QUEUED. */
  ghost predicate Matches(statuses: seq<StatusWrite>, submitted: nat, task: TaskId) {
    var h := History(statuses, task);
    QueuedCount(h) == submitted && (h != [] ==> h[0] == Queued)
  }

  ghost predicate Announced(q: Queue, task: TaskId) {
    Matches(q.statuses, Submitted(q, task), task)
  }

  lemma WriteKeepsAnnounced(q: Queue, key: Key, state: TaskState, task: TaskId)
    requires Announced(q, task)
    requires state != Queued
    ensures Announced(WriteStatus(q, key, state), task)
  {
    if q.TaskIn(key).Some? {
      var w := StatusWrite(q.TaskIn(key).value.taskId, state);
      HistoryAppend(q.statuses, w, task);
      QueuedCountAppend(History(q.statuses, task), state);
      if w.task == task {
        CarriedIsCounted(q.At(key.stream).entries, key.id - 1, task);
      }
    }
  }

  /** A job step writes at most one status, never QUEUED, and no message. */
  lemma AdvanceWrites(q: Queue, d: Delivery, outcome: Outcome, maxDeliveries: nat) returns (state: TaskState)
    requires d in q.jobs
    ensures state != Queued
    ensures var q' := AdvanceJob(q, d, outcome, maxDeliveries);
            && (q'.statuses == q.statuses || q'.statuses == WriteStatus(q, d.key, state).statuses)
            && q'.normal.entries == q.normal.entries && q'.large.entries == q.large.entries
  {
    state := match q.jobs[d]
      case MarkRunning => Running
      case MarkDone => Done
      case MarkRetrying => Retrying
      case _ => Failed;
  }

  lemma SubmitKeepsAnnounced(q: Queue, submitted: IntentTask, task: TaskId)
    requires Announced(q, task)
    ensures Announced(Apply(q, Enqueue(submitted), 1), task)
  {
    hide History, Copies, QueuedCount;
    CopiesAppend(q.At(StreamFor(submitted)).entries, Carrying(submitted), task);
    HistoryAppend(q.statuses, StatusWrite(submitted.taskId, Queued), task);
    QueuedCountAppend(History(q.statuses, task), Queued);
  }

  lemma AdvanceKeepsAnnounced(q: Queue, d: Delivery, outcome: Outcome, maxDeliveries: nat, task: TaskId)
    requires Announced(q, task) && d in q.jobs
    ensures Announced(AdvanceJob(q, d, outcome, maxDeliveries), task)
  {
    var state := AdvanceWrites(q, d, outcome, maxDeliveries);
    WriteKeepsAnnounced(q, d.key, state, task);
    assert Submitted(AdvanceJob(q, d, outcome, maxDeliveries), task) == Submitted(q, task);
  }

  /** Reads, claims, time and crashes write no status and no message. */
  lemma OthersWriteNothing(q: Queue, a: Action, maxDeliveries: nat)
    requires a.Read? || a.Claim? || a.BecomeIdle? || a.Vanish?
    ensures var q' := Apply(q, a, maxDeliveries);
            && q'.statuses == q.statuses && q'.starts == q.starts
            && q'.normal.entries == q.normal.entries && q'.large.entries == q.large.entries
  {
  }

  lemma ApplyKeepsAnnounced(q: Queue, a: Action, maxDeliveries: nat, task: TaskId)
    requires Announced(q, task)
    ensures Announced(Apply(q, a, maxDeliveries), task)
  {
    hide AdvanceJob, StartJobs, Matches, Copies;
    match a
    case Enqueue(submitted) =>
      SubmitKeepsAnnounced(q, submitted, task);
    case AddUndecodable(name, payload) =>
      CopiesAppend(q.At(name).entries, Undecodable(payload), task);
    case Advance(d, outcome) =>
      if d in q.jobs { AdvanceKeepsAnnounced(q, d, outcome, maxDeliveries, task); }
    case _ =>
      OthersWriteNothing(q, a, maxDeliveries);
  }

  lemma {:induction false} RunKeepsAnnounced(q: Queue, trace: seq<Action>, maxDeliveries: nat, task: TaskId)
    requires Announced(q, task)
    ensures Announced(Run(q, trace, maxDeliveries), task)
    decreases |trace|
  {
    if trace != [] {
      RunKeepsAnnounced(q, trace[..|trace| - 1], maxDeliveries, task);
      ApplyKeepsAnnounced(Run(q, trace[..|trace| - 1], maxDeliveries), trace[|trace| - 1], maxDeliveries, task);
    }
  }

  /** With one QUEUED in front, a second one is exactly what a count above one means. */
  lemma {:induction false} LaterQueued(h: seq<TaskState>)
    requires h != [] && h[0] == Queued
    ensures QueuedCount(h) <= 1 <==> forall i | 0 < i < |h| :: h[i] != Queued
    ensures QueuedCount(h) >= 1
    decreases |h|
  {
    var front := h[..|h| - 1];
    if front == [] {
      assert QueuedCount(front) == 0;
    } else {
      LaterQueued(front);
    }
  }

  /**
   QUEUED never returns once left.  In every run, with crashes, lost replies and overlapping
   deliveries, the status history of a task starts with QUEUED, and QUEUED shows up again if and
   only if the same task id was submitted more than once: the message and its QUEUED status are
   written by one transaction, so no worker can write a state before it.
   */
  lemma QueuedNeverReturns(trace: seq<Action>, maxDeliveries: nat, q: Queue, task: TaskId)
    requires q == Run(EMPTY_QUEUE, trace, maxDeliveries)
    ensures var h := History(q.statuses, task);
            && (h != [] ==> h[0] == Queued)
            && ((forall i | 0 < i < |h| :: h[i] != Queued) <==> Submitted(q, task) <= 1)
  {
    RunKeepsAnnounced(EMPTY_QUEUE, trace, maxDeliveries, task);
    var h := History(q.statuses, task);
    if h != [] {
      LaterQueued(h);
    }
  }

  // ---------------------------------------------------------------- the two streams

  predicate InItsStream(p: Payload, name: StreamName) {
    p.Carrying? ==> (name == Large <==> p.task.priority > 0)
  }

  ghost predicate InTheirStreams(q: Queue) {
    (forall p <- q.normal.entries :: InItsStream(p, Normal)) && forall p <- q.large.entries :: InItsStream(p, Large)
  }

  lemma AddKeepsStreams(q: Queue, q': Queue, name: StreamName, p: Payload)
    requires InTheirStreams(q) && InItsStream(p, name)
    requires q'.normal == q.With(name, XAdd(q.At(name), p)).normal && q'.large == q.With(name, XAdd(q.At(name), p)).large
    ensures InTheirStreams(q')
  {
    hide InItsStream;
    assert forall x <- q.At(name).entries + [p] :: x in q.At(name).entries || x == p;
  }

  lemma StepKeepsStreams(q: Queue, a: Action, maxDeliveries: nat)
    requires InTheirStreams(q)
    ensures InTheirStreams(Apply(q, a, maxDeliveries))
  {
    hide AdvanceJob;
    match a
    case Enqueue(task) => AddKeepsStreams(q, Apply(q, a, maxDeliveries), StreamFor(task), Carrying(task));
    case AddUndecodable(name, raw) => AddKeepsStreams(q, Apply(q, a, maxDeliveries), name, Undecodable(raw));
    case Advance(d, outcome) => if d in q.jobs { var _ := AdvanceWrites(q, d, outcome, maxDeliveries); }
    case _ => OthersWriteNothing(q, a, maxDeliveries);
  }

  lemma {:induction false} RunKeepsStreams(trace: seq<Action>, maxDeliveries: nat)
    ensures InTheirStreams(Run(EMPTY_QUEUE, trace, maxDeliveries))
    decreases |trace|
  {
    hide Apply;
    if trace != [] {
      RunKeepsStreams(trace[..|trace| - 1], maxDeliveries);
      StepKeepsStreams(Run(EMPTY_QUEUE, trace[..|trace| - 1], maxDeliveries), trace[|trace| - 1], maxDeliveries);
    }
  }

  /** In every run, a task is in the large stream if and only if it has a positive priority. */
  lemma LargeTasksAreInTheLargeStream(trace: seq<Action>, maxDeliveries: nat, q: Queue, key: Key)
    requires q == Run(EMPTY_QUEUE, trace, maxDeliveries) && q.TaskIn(key).Some?
    ensures key.stream == Large <==> q.TaskIn(key).value.priority > 0
  {
    hide Run;
    RunKeepsStreams(trace, maxDeliveries);
    var p := q.At(key.stream).entries[key.id - 1];
    assert p in q.At(key.stream).entries && InItsStream(p, key.stream);
  }
}
