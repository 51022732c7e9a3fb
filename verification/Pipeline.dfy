/**
 Submission and delivery together: a message enters the queue only by the enqueue step of a call
 that holds its request key, so task ids in the queue are distinct and QUEUED never returns.
 */
module Pipeline {
  import opened Common
  import opened IntentTasks
  import opened QueueProtocol
  import opened StatusHistory
  import opened Submissions

  datatype System = System(desk: Desk, queue: Queue)

  /** One step of submission, with the clock and the priority its task would get, or one step of delivery. */
  datatype SystemAction =
    | Submit(step: DeskAction, now: string, priority: nat)
    | Deliver(delivery: Action)

  /** This step of a submission runs the queue's enqueue transaction. */
  predicate Enqueues(desk: Desk, a: DeskAction) {
    a.Proceed? && a.caller in desk.calls && desk.calls[a.caller].step == EnqueueTask && Ran(a.outcome)
  }

  /** The task that a call enqueues: built from its request. */
  function TaskOf(desk: Desk, caller: TaskId, now: string, priority: nat): Result<IntentTask, TaskError> {
    if caller in desk.requests then TaskFor(caller, desk.requests[caller], now, priority) else Err(MissingKey)
  }

  function ApplySystem(s: System, a: SystemAction, maxDeliveries: nat): System {
    match a
    case Submit(action, now, priority) =>
      System(ApplyDesk(s.desk, action),
             if Enqueues(s.desk, action) && TaskOf(s.desk, action.caller, now, priority).Ok?
             then Apply(s.queue, Enqueue(TaskOf(s.desk, action.caller, now, priority).value), maxDeliveries) else s.queue)
    case Deliver(action) =>
      if action.Enqueue? then s else s.(queue := Apply(s.queue, action, maxDeliveries))
  }

  function RunSystem(trace: seq<SystemAction>, maxDeliveries: nat): System
    decreases |trace|
  {
    if trace == [] then System(EMPTY_DESK, EMPTY_QUEUE)
    else ApplySystem(RunSystem(trace[..|trace| - 1], maxDeliveries), trace[|trace| - 1], maxDeliveries)
  }

  /** How often an id stands in a list. */
  function Count(ids: seq<TaskId>, id: TaskId): nat {
    if ids == [] then 0 else Count(ids[..|ids| - 1], id) + if ids[|ids| - 1] == id then 1 else 0
  }

  lemma {:induction false} DistinctCount(ids: seq<TaskId>, id: TaskId)
    requires NoRepeats(ids)
    ensures Count(ids, id) <= 1
    ensures Count(ids, id) == 1 ==> id in ids
    decreases |ids|
  {
    if ids != [] {
      DistinctCount(ids[..|ids| - 1], id);
    }
  }

  /** The queue holds exactly the submissions that the desk enqueued. */
  ghost predicate InStep(s: System, task: TaskId) {
    DeskOk(s.desk) && Announced(s.queue, task) && Submitted(s.queue, task) == Count(s.desk.enqueued, task)
  }

  lemma DeliveryAddsNoTask(q: Queue, a: Action, maxDeliveries: nat, task: TaskId)
    requires !a.Enqueue?
    ensures Submitted(Apply(q, a, maxDeliveries), task) == Submitted(q, task)
  {
    hide AdvanceJob, Copies, StartJobs;
    match a
    case AddUndecodable(name, raw) =>
      CopiesAppend(q.At(name).entries, Undecodable(raw), task);
    case Advance(d, outcome) =>
      if d in q.jobs {
        var _ := AdvanceWrites(q, d, outcome, maxDeliveries);
      }
    case _ =>
      OthersWriteNothing(q, a, maxDeliveries);
  }

  lemma EnqueueAddsOneTask(q: Queue, t: IntentTask, maxDeliveries: nat, task: TaskId)
    ensures Submitted(Apply(q, Enqueue(t), maxDeliveries), task) == Submitted(q, task) + if t.taskId == task then 1 else 0
  {
    CopiesAppend(q.At(StreamFor(t)).entries, Carrying(t), task);
  }

  lemma CountAppend(ids: seq<TaskId>, added: TaskId, id: TaskId)
    ensures Count(ids + [added], id) == Count(ids, id) + if added == id then 1 else 0
  {
    assert (ids + [added])[..|ids|] == ids;
  }

  /** A call in progress has a task, and the task has its id. */
  lemma CallsHaveTasks(desk: Desk, caller: TaskId, now: string, priority: nat)
    requires DeskOk(desk) && caller in desk.calls
    ensures TaskOf(desk, caller, now, priority).Ok? && TaskOf(desk, caller, now, priority).value.taskId == caller
  {
    hide Strip, IsSpace;
    assert RequestsOk(desk.calls, desk.requests);
    hide DeskOk;
    assert Stripped(caller) && Builds(desk.requests, caller);
    StripIsStripped(caller);
  }

  lemma DeskEnqueues(desk: Desk, a: DeskAction)
    ensures ApplyDesk(desk, a).enqueued == if Enqueues(desk, a) then desk.enqueued + [a.caller] else desk.enqueued
  {
    hide MakeInput, Builds, Stripped;
  }

  lemma StepKeepsInStep(s: System, a: SystemAction, maxDeliveries: nat, task: TaskId)
    requires InStep(s, task)
    ensures InStep(ApplySystem(s, a, maxDeliveries), task)
  {
    hide DeskOk, ApplyDesk, Apply, Announced, Submitted, Count, TaskOf;
    match a
    case Submit(action, now, priority) =>
      StepIsOk(s.desk, action);
      DeskEnqueues(s.desk, action);
      if Enqueues(s.desk, action) {
        CallsHaveTasks(s.desk, action.caller, now, priority);
        var t := TaskOf(s.desk, action.caller, now, priority).value;
        ApplyKeepsAnnounced(s.queue, Enqueue(t), maxDeliveries, task);
        EnqueueAddsOneTask(s.queue, t, maxDeliveries, task);
        CountAppend(s.desk.enqueued, action.caller, task);
      }
    case Deliver(action) =>
      if !action.Enqueue? {
        ApplyKeepsAnnounced(s.queue, action, maxDeliveries, task);
        DeliveryAddsNoTask(s.queue, action, maxDeliveries, task);
      }
  }

  lemma {:induction false} RunKeepsInStep(trace: seq<SystemAction>, maxDeliveries: nat, task: TaskId)
    ensures InStep(RunSystem(trace, maxDeliveries), task)
    decreases |trace|
  {
    hide InStep, ApplySystem;
    if trace == [] {
      EmptyIsInStep(task);
    } else {
      RunKeepsInStep(trace[..|trace| - 1], maxDeliveries, task);
      StepKeepsInStep(RunSystem(trace[..|trace| - 1], maxDeliveries), trace[|trace| - 1], maxDeliveries, task);
    }
  }

  lemma EmptyIsInStep(task: TaskId)
    ensures InStep(System(EMPTY_DESK, EMPTY_QUEUE), task)
  {
  }

  /**
   End to end, a task is in the queue at most once, and only if its call bound its request key; so
   its history starts with QUEUED and shows QUEUED nowhere else, whatever fails.
   */
  lemma TasksAreSubmittedOnce(trace: seq<SystemAction>, maxDeliveries: nat, s: System, task: TaskId)
    requires s == RunSystem(trace, maxDeliveries)
    ensures Submitted(s.queue, task) <= 1
    ensures Submitted(s.queue, task) == 1 ==> task in Holders(s.desk.bound)
    ensures var h := History(s.queue.statuses, task);
            && (h != [] ==> h[0] == Queued)
            && forall i | 0 < i < |h| :: h[i] != Queued
  {
    RunKeepsInStep(trace, maxDeliveries, task);
    InStepMeansOnce(s, task);
  }

  lemma InStepMeansOnce(s: System, task: TaskId)
    requires InStep(s, task)
    ensures Submitted(s.queue, task) <= 1
    ensures Submitted(s.queue, task) == 1 ==> task in Holders(s.desk.bound)
    ensures var h := History(s.queue.statuses, task);
            && (h != [] ==> h[0] == Queued)
            && forall i | 0 < i < |h| :: h[i] != Queued
  {
    DistinctCount(s.desk.enqueued, task);
    var h := History(s.queue.statuses, task);
    if h != [] {
      LaterQueued(h);
    }
  }
}
