/**
 The worker side of the queue as it is written: one message handled by `_handle_one`, stale
 messages claimed with persistent cursors, new ones read, and the consume loop with its
 concurrency limit.  Between any two Redis calls everybody else acts.  Each method is shown to be a run of
 the delivery protocol, so what holds for all runs holds for it.
 */
module Workers {
  import opened Common
  import opened IntentTasks
  import opened RedisStream
  import opened QueueProtocol

  predicate ActsFor(a: Action, d: Delivery) {
    (a.Advance? || a.Vanish?) && a.delivery == d
  }

  /** The job never vanishes: all its own actions are steps of `_handle_one`. */
  predicate Steady(trace: seq<Action>, d: Delivery) {
    forall a <- trace :: ActsFor(a, d) ==> a.Advance?
  }

  /** Every call of the job, and the handling of its intent, returned normally. */
  predicate AllSucceed(trace: seq<Action>, d: Delivery) {
    forall a <- trace :: ActsFor(a, d) ==> a == Advance(d, Succeeds)
  }

  lemma OwnAppend(q: Queue, trace: seq<Action>, d: Delivery, outcome: Outcome, maxDeliveries: nat)
    ensures var longer := trace + [Advance(d, outcome)];
            && Run(q, longer, maxDeliveries) == Apply(Run(q, trace, maxDeliveries), Advance(d, outcome), maxDeliveries)
            && (Steady(longer, d) <==> Steady(trace, d))
            && (AllSucceed(longer, d) <==> AllSucceed(trace, d) && outcome.Succeeds?)
  {
    hide Apply, Run;
    RunAppend(q, trace, Advance(d, outcome), maxDeliveries);
    var longer, own := trace + [Advance(d, outcome)], Advance(d, outcome);
    assert forall a :: a in longer <==> a in trace || a == own;
    assert own in longer && ActsFor(own, d);
    assert outcome.Succeeds? <==> own == Advance(d, Succeeds);
  }

  lemma JoinRuns(q: Queue, first: seq<Action>, second: seq<Action>, d: Delivery, maxDeliveries: nat)
    ensures Run(q, first + second, maxDeliveries) == Run(Run(q, first, maxDeliveries), second, maxDeliveries)
    ensures Steady(first + second, d) <==> Steady(first, d) && Steady(second, d)
    ensures AllSucceed(first + second, d) <==> AllSucceed(first, d) && AllSucceed(second, d)
  {
    hide Apply, Run;
    RunConcat(q, first, second, maxDeliveries);
    assert forall a :: a in first + second <==> a in first || a in second;
  }

  lemma NoActions(d: Delivery)
    ensures Steady([], d) && AllSucceed([], d)
  {
  }

  // ------------------------------------------------------------------ what others cannot do

  /** The delivery was handed out before: its message was delivered at least `n` times. */
  ghost predicate HandedOut(q: Queue, d: Delivery) {
    Behind(q.At(d.key.stream), d)
  }

  /** No hand-out repeats a delivery that was handed out before. */
  lemma StartsAreNew(q: Queue, name: StreamName, ids: seq<nat>, d: Delivery)
    requires d.key.stream == name && d.key.id in ids && d.key.id in q.At(name).pending
             ==> q.At(name).pending[d.key.id].deliveries > d.n
    ensures var q' := StartJobs(q, name, ids);
            (d in q'.jobs <==> d in q.jobs) && (d in q.jobs ==> q'.jobs[d] == q.jobs[d])
  {
  }

  lemma OthersKeepHandOut(q: Queue, a: Action, maxDeliveries: nat, d: Delivery)
    requires Safe(q) && HandedOut(q, d)
    ensures HandedOut(Apply(q, a, maxDeliveries), d)
  {
    hide Justified, JobsBehind, StartJobs, ClaimScan, Split;
    var s := q.At(d.key.stream);
    match a
    case Read(name, count, outcome) =>
      ReadKeepsSplit(q.At(name), name, q.acked, count);
      StartsOnlyJobs(q.With(name, XReadGroup(q.At(name), count)), name, ReadIds(q.At(name), count));
      StartsOnlyJobs(q, name, ReadIds(q.At(name), count));
    case Claim(name, cursor, count, budget, outcome) =>
      var ids := ClaimScan(q.At(name).pending, cursor, q.At(name).last, count, budget).0;
      StartsOnlyJobs(q.With(name, Claimed(q.At(name), ids)), name, ids);
      StartsOnlyJobs(q, name, ids);
    case BecomeIdle(key) =>
      IdleKeepsSplit(q.At(key.stream), key.stream, q.acked, key.id);
    case Advance(e, outcome) =>
      if e in q.jobs { AdvanceOnlyAcks(q, e, outcome, maxDeliveries); }
    case _ =>
  }

  lemma StartsOnlyJobs(q: Queue, name: StreamName, ids: seq<nat>)
    ensures StartJobs(q, name, ids) == q.(jobs := StartJobs(q, name, ids).jobs)
  {
  }

  /** A job's step leaves the streams alone or acknowledges its message. */
  lemma AdvanceOnlyAcks(q: Queue, e: Delivery, outcome: Outcome, maxDeliveries: nat)
    requires e in q.jobs
    ensures var q' := AdvanceJob(q, e, outcome, maxDeliveries);
            || (q'.normal == q.normal && q'.large == q.large && q'.acked == q.acked)
            || (q'.normal == Ack(q, e.key).normal && q'.large == Ack(q, e.key).large && q'.acked == Ack(q, e.key).acked)
  {
    hide Decode, XAck, Ack;
    match q.jobs[e] {
      case Acking =>
      case AckDeadLetter =>
      case _ => assert AdvanceJob(q, e, outcome, maxDeliveries).acked == q.acked;
    }
  }

  lemma AdvanceKeepsRecords(q: Queue, e: Delivery, outcome: Outcome, maxDeliveries: nat)
    requires e in q.jobs
    ensures var q' := AdvanceJob(q, e, outcome, maxDeliveries);
            q.returned <= q'.returned && forall key :: Lettered(q.dead, key) ==> Lettered(q'.dead, key)
  {
    hide Decode, Ack;
    AckKeepsRecords(q, e.key);
    match q.jobs[e] {
      case AddDeadLetter =>
        LetterKept(q.dead, DeadLetter(e.key, Undecodable(Missing)));
        if Ran(outcome) {
          LetterKept(q.dead, AdvanceJob(q, e, outcome, maxDeliveries).dead[|q.dead|]);
        }
      case _ =>
        assert AdvanceJob(q, e, outcome, maxDeliveries).dead == q.dead;
    }
  }

  lemma AckKeepsRecords(q: Queue, key: Key)
    ensures Ack(q, key).returned == q.returned && Ack(q, key).dead == q.dead && Ack(q, key).jobs == q.jobs
  {
  }

  lemma AdvanceMovesOwnJob(q: Queue, e: Delivery, outcome: Outcome, maxDeliveries: nat, d: Delivery)
    requires e in q.jobs && d != e
    ensures var q' := AdvanceJob(q, e, outcome, maxDeliveries);
            (d in q'.jobs <==> d in q.jobs) && (d in q.jobs ==> q'.jobs[d] == q.jobs[d])
  {
    hide Decode, Ack, WriteStatus;
    AckKeepsRecords(q, e.key);
    WriteKeepsJobs(q, e.key);
    match q.jobs[e] {
      case Acking =>
      case MarkRetrying =>
      case MarkFailed =>
      case AddDeadLetter =>
      case AckDeadLetter =>
      case _ =>
    }
  }

  lemma WriteKeepsJobs(q: Queue, key: Key)
    ensures forall state :: WriteStatus(q, key, state).jobs == q.jobs && WriteStatus(q, key, state).returned == q.returned
  {
  }

  /** What others do leaves a job where it is, and a finished delivery without a job. */
  lemma OthersKeepJob(q: Queue, a: Action, maxDeliveries: nat, d: Delivery)
    requires Safe(q) && HandedOut(q, d) && !ActsFor(a, d)
    ensures var q' := Apply(q, a, maxDeliveries);
            (d in q'.jobs <==> d in q.jobs) && (d in q.jobs ==> q'.jobs[d] == q.jobs[d])
  {
    hide Justified, JobsBehind, StartJobs, ClaimScan, Split, AdvanceJob;
    match a
    case Read(name, count, outcome) =>
      ReadIsNew(q, name, count, d);
    case Claim(name, cursor, count, budget, outcome) =>
      ClaimIsNew(q, name, ClaimScan(q.At(name).pending, cursor, q.At(name).last, count, budget).0, d);
    case Advance(e, outcome) =>
      if e in q.jobs { AdvanceMovesOwnJob(q, e, outcome, maxDeliveries, d); }
    case _ =>
  }

  lemma ReadIsNew(q: Queue, name: StreamName, count: nat, d: Delivery)
    requires Safe(q) && HandedOut(q, d)
    ensures var q' := StartJobs(q.With(name, XReadGroup(q.At(name), count)), name, ReadIds(q.At(name), count));
            (d in q'.jobs <==> d in q.jobs) && (d in q.jobs ==> q'.jobs[d] == q.jobs[d])
  {
    var ids := ReadIds(q.At(name), count);
    assert forall i | 0 <= i < |ids| :: ids[i] > q.At(name).last;
    StartsAreNew(q.With(name, XReadGroup(q.At(name), count)), name, ids, d);
  }

  lemma ClaimIsNew(q: Queue, name: StreamName, ids: seq<nat>, d: Delivery)
    requires Safe(q) && HandedOut(q, d)
    ensures var q' := StartJobs(q.With(name, Claimed(q.At(name), ids)), name, ids);
            (d in q'.jobs <==> d in q.jobs) && (d in q.jobs ==> q'.jobs[d] == q.jobs[d])
  {
    StartsAreNew(q.With(name, Claimed(q.At(name), ids)), name, ids, d);
  }

  /** Once recorded, always recorded: handler returns, dead letters and acknowledgements. */
  lemma RecordsStay(q: Queue, a: Action, maxDeliveries: nat)
    ensures var q' := Apply(q, a, maxDeliveries);
            && q.returned <= q'.returned && q.acked <= q'.acked
            && forall key :: Lettered(q.dead, key) ==> Lettered(q'.dead, key)
  {
    hide AdvanceJob, StartJobs, Lettered, ClaimScan, ReadIds;
    match a
    case Read(name, count, _) =>
      StartsOnlyJobs(q.With(name, XReadGroup(q.At(name), count)), name, ReadIds(q.At(name), count));
      StartsOnlyJobs(q, name, ReadIds(q.At(name), count));
    case Claim(name, cursor, count, budget, _) =>
      var ids := ClaimScan(q.At(name).pending, cursor, q.At(name).last, count, budget).0;
      StartsOnlyJobs(q.With(name, Claimed(q.At(name), ids)), name, ids);
      StartsOnlyJobs(q, name, ids);
    case Advance(e, outcome) =>
      if e in q.jobs {
        AdvanceOnlyAcks(q, e, outcome, maxDeliveries);
        AdvanceKeepsRecords(q, e, outcome, maxDeliveries);
      }
    case _ =>
  }

  // ------------------------------------------------------------------ one message

  /** How a `_handle_one` job ended: an exception of its own leaves the message as it is. */
  datatype JobResult = Handled | DeadLettered | LeftForRetry | Broke

  /** The Redis server, shared by all workers; `q` also records where each job stands. */
  class RedisServer {
    var q: Queue
    const maxDeliveries: nat

    constructor (maxDeliveries: nat)
      ensures q == EMPTY_QUEUE && Safe(q) && this.maxDeliveries == maxDeliveries
    {
      q := EMPTY_QUEUE;
      this.maxDeliveries := maxDeliveries;
    }

    /** One step of the protocol, taken by anybody. */
    method Do(a: Action)
      requires Safe(q)
      modifies this
      ensures Safe(q) && q == Apply(old(q), a, maxDeliveries)
    {
      ApplyIsSafe(q, a, maxDeliveries);
      q := Apply(q, a, maxDeliveries);
    }

    /** Any number of steps of everybody but this job. */
    method Interfere(d: Delivery) returns (ghost trace: seq<Action>)
      requires Safe(q) && HandedOut(q, d)
      modifies this
      ensures Safe(q) && HandedOut(q, d) && q == Run(old(q), trace, maxDeliveries)
      ensures (d in q.jobs <==> d in old(q).jobs) && (d in q.jobs ==> q.jobs[d] == old(q).jobs[d])
      ensures old(q).returned <= q.returned && forall key :: Lettered(old(q).dead, key) ==> Lettered(q.dead, key)
      ensures Steady(trace, d) && AllSucceed(trace, d)
    {
      hide Safe, HandedOut, Run, Apply, Lettered;
      trace := [];
      RunEmpty(q, maxDeliveries);
      var steps: nat := *;
      while steps > 0
        invariant Safe(q) && HandedOut(q, d) && q == Run(old(q), trace, maxDeliveries)
        invariant (d in q.jobs <==> d in old(q).jobs) && (d in q.jobs ==> q.jobs[d] == old(q).jobs[d])
        invariant old(q).returned <= q.returned && forall key :: Lettered(old(q).dead, key) ==> Lettered(q.dead, key)
        invariant Steady(trace, d) && AllSucceed(trace, d)
      {
        var a: Action := *;
        if !ActsFor(a, d) {
          OthersKeepHandOut(q, a, maxDeliveries, d);
          OthersKeepJob(q, a, maxDeliveries, d);
          RecordsStay(q, a, maxDeliveries);
          RunAppend(old(q), trace, a, maxDeliveries);
          trace := trace + [a];
          Do(a);
        }
        steps := steps - 1;
      }
    }

    /** SET of a task's status. */
    method SetStatus(key: Key, state: TaskState) returns (outcome: Outcome)
      modifies this
      ensures q == if Ran(outcome) then WriteStatus(old(q), key, state) else old(q)
    {
      outcome := *;
      if Ran(outcome) { q := WriteStatus(q, key, state); }
    }

    method XAckMessage(key: Key) returns (outcome: Outcome)
      modifies this
      ensures q == if Ran(outcome) then Ack(old(q), key) else old(q)
    {
      outcome := *;
      if Ran(outcome) { q := Ack(q, key); }
    }

    /** XADD to the dead-letter stream, naming the message's stream and id. */
    method XAddDeadLetter(key: Key) returns (outcome: Outcome)
      modifies this
      ensures var letter := DeadLetter(key, if q.HasMessage(key) then q.At(key.stream).entries[key.id - 1] else Undecodable(Missing));
              q == if Ran(outcome) then old(q).(dead := old(q).dead + [letter]) else old(q)
    {
      outcome := *;
      if Ran(outcome) {
        var payload := if q.HasMessage(key) then q.At(key.stream).entries[key.id - 1] else Undecodable(Missing);
        q := q.(dead := q.dead + [DeadLetter(key, payload)]);
      }
    }

    /** `_delivery_count`: a failed lookup and a message no longer pending both count as 1. */
    method XPendingCount(key: Key) returns (outcome: Outcome, deliveries: nat)
      ensures deliveries == DeliveryCount(q, key, outcome)
    {
      outcome := *;
      deliveries := 1;
      if outcome.Succeeds? && q.IsPending(key) {
        deliveries := q.PendingOf(key).deliveries;
      }
    }

    /** The job notes where it stands. */
    method StandAt(d: Delivery, next: JobStep)
      modifies this
      ensures q == Goto(old(q), d, next)
    {
      q := Goto(q, d, next);
    }

    method End(d: Delivery)
      modifies this
      ensures q == Finish(old(q), d)
    {
      q := Finish(q, d);
    }
  }

  /** A job's own step is one step of the protocol. */
  lemma OwnStep(q: Queue, d: Delivery, outcome: Outcome, maxDeliveries: nat)
    requires Safe(q) && HandedOut(q, d) && d in q.jobs
    ensures Safe(AdvanceJob(q, d, outcome, maxDeliveries)) && HandedOut(AdvanceJob(q, d, outcome, maxDeliveries), d)
    ensures Apply(q, Advance(d, outcome), maxDeliveries) == AdvanceJob(q, d, outcome, maxDeliveries)
  {
    hide AdvanceJob, Safe, HandedOut;
    ApplyIsSafe(q, Advance(d, outcome), maxDeliveries);
    OthersKeepHandOut(q, Advance(d, outcome), maxDeliveries, d);
  }

  lemma AckedForGood(q: Queue, d: Delivery)
    requires Safe(q) && HandedOut(q, d)
    ensures d.key in Ack(q, d.key).acked
  {
    assert Split(q.At(d.key.stream), d.key.stream, q.acked);
    assert d.key == Key(d.key.stream, d.key.id);
  }

  class MessageHandler {
    const server: RedisServer

    constructor (server: RedisServer)
      ensures this.server == server
    {
      this.server := server;
    }

    /** `_move_to_dead_letter`: record first, acknowledge after. */
    method MoveToDeadLetter(d: Delivery) returns (result: JobResult, ghost trace: seq<Action>)
      requires Safe(server.q) && HandedOut(server.q, d) && d in server.q.jobs && server.q.jobs[d] == AddDeadLetter
      modifies server
      ensures Safe(server.q) && HandedOut(server.q, d) && server.q == Run(old(server.q), trace, server.maxDeliveries)
      ensures d !in server.q.jobs && Steady(trace, d)
      ensures result in {DeadLettered, Broke} && (AllSucceed(trace, d) <==> result == DeadLettered)
      ensures result == DeadLettered ==> server.q.HasDeadLetter(d.key) && d.key in server.q.acked
    {
      hide Steady, AllSucceed, Safe, HandedOut, Run, Apply, Lettered, Ack;
      trace := server.Interfere(d);
      ghost var before := server.q;
      var added := server.XAddDeadLetter(d.key);
      OwnStep(before, d, added, server.maxDeliveries);
      OwnAppend(old(server.q), trace, d, added, server.maxDeliveries);
      trace := trace + [Advance(d, added)];
      if added.Raises? {
        server.End(d);
        return Broke, trace;
      }
      LetterKept(before.dead, server.q.dead[|before.dead|]);
      server.StandAt(d, AckDeadLetter);

      ghost var others := server.Interfere(d);
      JoinRuns(old(server.q), trace, others, d, server.maxDeliveries);
      trace := trace + others;
      before := server.q;
      var acked := server.XAckMessage(d.key);
      server.End(d);
      OwnStep(before, d, acked, server.maxDeliveries);
      OwnAppend(old(server.q), trace, d, acked, server.maxDeliveries);
      trace := trace + [Advance(d, acked)];
      AckedForGood(before, d);
      AckKeepsRecords(before, d.key);
      return if acked.Raises? then Broke else DeadLettered, trace;
    }

    /** The orchestrator's handling of the intent: it returns or raises. */
    method HandleIntent() returns (outcome: Outcome)
    {
      outcome := *;
    }

    /** `process_task`: RUNNING, the intent itself, DONE; any exception is the handler's failure. */
    method ProcessTask(d: Delivery) returns (raised: bool, ghost trace: seq<Action>)
      requires Safe(server.q) && HandedOut(server.q, d) && d in server.q.jobs && server.q.jobs[d] == MarkRunning
      modifies server
      ensures Safe(server.q) && HandedOut(server.q, d) && server.q == Run(old(server.q), trace, server.maxDeliveries)
      ensures d in server.q.jobs && server.q.jobs[d] == if raised then Counting else Acking
      ensures !raised ==> d.key in server.q.returned
      ensures Steady(trace, d) && (AllSucceed(trace, d) <==> !raised)
    {
      hide Steady, AllSucceed, Safe, HandedOut, Run, Apply, Lettered, WriteStatus;
      trace := server.Interfere(d);
      ghost var before := server.q;
      WriteKeepsJobs(before, d.key);
      var running := server.SetStatus(d.key, Running);
      server.StandAt(d, if running.Succeeds? then Working else Counting);
      OwnStep(before, d, running, server.maxDeliveries);
      OwnAppend(old(server.q), trace, d, running, server.maxDeliveries);
      trace := trace + [Advance(d, running)];
      if running.Raises? {
        return true, trace;
      }

      ghost var others := server.Interfere(d);
      JoinRuns(old(server.q), trace, others, d, server.maxDeliveries);
      trace := trace + others;
      before := server.q;
      var intent := HandleIntent();
      server.StandAt(d, if intent.Succeeds? then MarkDone else Counting);
      OwnStep(before, d, intent, server.maxDeliveries);
      OwnAppend(old(server.q), trace, d, intent, server.maxDeliveries);
      trace := trace + [Advance(d, intent)];
      if intent.Raises? {
        return true, trace;
      }

      others := server.Interfere(d);
      JoinRuns(old(server.q), trace, others, d, server.maxDeliveries);
      trace := trace + others;
      before := server.q;
      WriteKeepsJobs(before, d.key);
      var finished := server.SetStatus(d.key, Done);
      OwnStep(before, d, finished, server.maxDeliveries);
      OwnAppend(old(server.q), trace, d, finished, server.maxDeliveries);
      trace := trace + [Advance(d, finished)];
      raised := finished.Raises?;
      if raised {
        server.StandAt(d, Counting);
      } else {
        server.q := server.q.(returned := server.q.returned + {d.key});
        server.StandAt(d, Acking);
      }
    }

    /** `_handle_one`: decode, run the handler, acknowledge; on failure retry or give up. */
    method HandleOne(d: Delivery) returns (result: JobResult, ghost trace: seq<Action>)
      requires Safe(server.q) && HandedOut(server.q, d) && d in server.q.jobs && server.q.jobs[d] == Started
      modifies server
      ensures Safe(server.q) && HandedOut(server.q, d) && server.q == Run(old(server.q), trace, server.maxDeliveries)
      ensures d !in server.q.jobs && Steady(trace, d)
      ensures result == Handled ==> d.key in server.q.returned && d.key in server.q.acked
      ensures result == DeadLettered ==> server.q.HasDeadLetter(d.key) && d.key in server.q.acked
      ensures AllSucceed(trace, d) ==>
                result == if Breaks(old(server.q), d.key) then Broke
                          else if old(server.q.TaskIn(d.key)).None? then DeadLettered else Handled
      ensures Breaks(old(server.q), d.key) ==> server.q == old(server.q).(jobs := old(server.q).jobs - {d})
    {
      hide Steady, AllSucceed, Safe, HandedOut, Run, Apply, Lettered, WriteStatus, Ack, Breaks;
      ghost var before := server.q;
      var task, breaks := server.q.TaskIn(d.key), Breaks(server.q, d.key);
      if breaks {
        server.End(d);
      } else if task.None? {
        server.StandAt(d, AddDeadLetter);
      } else {
        server.q := server.q.(starts := server.q.starts + [d.key]);
        server.StandAt(d, MarkRunning);
      }
      OwnStep(before, d, Succeeds, server.maxDeliveries);
      RunEmpty(before, server.maxDeliveries);
      NoActions(d);
      OwnAppend(before, [], d, Succeeds, server.maxDeliveries);
      trace := [Advance(d, Succeeds)];
      assert [] + trace == trace;
      if breaks {
        return Broke, trace;
      }
      ghost var more: seq<Action>;
      if task.None? {
        result, more := MoveToDeadLetter(d);
        JoinRuns(old(server.q), trace, more, d, server.maxDeliveries);
        return result, trace + more;
      }
      var raised: bool;
      raised, more := ProcessTask(d);
      JoinRuns(old(server.q), trace, more, d, server.maxDeliveries);
      trace := trace + more;
      if raised {
        ghost var looked: nat;
        result, more, looked := AfterFailure(d);
      } else {
        result, more := Acknowledge(d);
      }
      JoinRuns(old(server.q), trace, more, d, server.maxDeliveries);
      trace := trace + more;
    }

    /** The final XACK of a task whose handler returned. */
    method Acknowledge(d: Delivery) returns (result: JobResult, ghost trace: seq<Action>)
      requires Safe(server.q) && HandedOut(server.q, d) && d in server.q.jobs && server.q.jobs[d] == Acking
      requires d.key in server.q.returned
      modifies server
      ensures Safe(server.q) && HandedOut(server.q, d) && server.q == Run(old(server.q), trace, server.maxDeliveries)
      ensures d !in server.q.jobs && Steady(trace, d)
      ensures result in {Handled, Broke} && (AllSucceed(trace, d) <==> result == Handled)
      ensures result == Handled ==> d.key in server.q.returned && d.key in server.q.acked
    {
      hide Steady, AllSucceed, Safe, HandedOut, Run, Apply, Lettered, Ack;
      trace := server.Interfere(d);
      ghost var before := server.q;
      var acked := server.XAckMessage(d.key);
      server.End(d);
      OwnStep(before, d, acked, server.maxDeliveries);
      OwnAppend(old(server.q), trace, d, acked, server.maxDeliveries);
      trace := trace + [Advance(d, acked)];
      AckedForGood(before, d);
      AckKeepsRecords(before, d.key);
      return if acked.Raises? then Broke else Handled, trace;
    }

    /** The handler failed: RETRYING below the delivery limit, FAILED and dead letter at it.  The delivery count
        was looked up in step `looked` of the trace. */
    method AfterFailure(d: Delivery) returns (result: JobResult, ghost trace: seq<Action>, ghost looked: nat)
      requires Safe(server.q) && HandedOut(server.q, d) && d in server.q.jobs && server.q.jobs[d] == Counting
      modifies server
      ensures Safe(server.q) && HandedOut(server.q, d) && server.q == Run(old(server.q), trace, server.maxDeliveries)
      ensures d !in server.q.jobs && Steady(trace, d)
      ensures result in {LeftForRetry, DeadLettered, Broke} && (AllSucceed(trace, d) ==> result != Broke)
      ensures result == DeadLettered ==> server.q.HasDeadLetter(d.key) && d.key in server.q.acked
      ensures looked < |trace| && trace[looked].Advance? && trace[looked].delivery == d
      ensures var count := DeliveryCount(Run(old(server.q), trace[..looked], server.maxDeliveries), d.key, trace[looked].outcome);
              && (result == DeadLettered ==> count >= server.maxDeliveries)
              && (result == LeftForRetry ==> count < server.maxDeliveries)
      ensures result == LeftForRetry ==>
                trace != [] && LeftAsItIs(Run(old(server.q), trace[..|trace| - 1], server.maxDeliveries), server.q, d)
    {
      hide Steady, AllSucceed, Safe, HandedOut, Run, Apply, Lettered, WriteStatus;
      trace := server.Interfere(d);
      ghost var before := server.q;
      looked := |trace|;
      ghost var upTo := trace;
      var counted, deliveries := server.XPendingCount(d.key);
      server.StandAt(d, if deliveries >= server.maxDeliveries then MarkFailed else MarkRetrying);
      OwnStep(before, d, counted, server.maxDeliveries);
      OwnAppend(old(server.q), trace, d, counted, server.maxDeliveries);
      trace := trace + [Advance(d, counted)];

      ghost var others := server.Interfere(d);
      JoinRuns(old(server.q), trace, others, d, server.maxDeliveries);
      trace := trace + others;
      before := server.q;
      WriteKeepsJobs(before, d.key);
      var written := server.SetStatus(d.key, if deliveries >= server.maxDeliveries then Failed else Retrying);
      OwnStep(before, d, written, server.maxDeliveries);
      OwnAppend(old(server.q), trace, d, written, server.maxDeliveries);
      ghost var beforeLast := trace;
      trace := trace + [Advance(d, written)];
      assert trace[..looked] == upTo && trace[looked] == Advance(d, counted);
      if deliveries < server.maxDeliveries || written.Raises? {
        server.End(d);
        assert trace[..|trace| - 1] == beforeLast;
        WriteLeavesTheRest(before, d);
        return if written.Raises? then Broke else LeftForRetry, trace, looked;
      }
      server.StandAt(d, AddDeadLetter);
      ghost var more: seq<Action>;
      result, more := MoveToDeadLetter(d);
      JoinRuns(old(server.q), trace, more, d, server.maxDeliveries);
      trace := trace + more;
      assert trace[..looked] == upTo && trace[looked] == Advance(d, counted);
    }
  }

  /** The job ended with RETRYING as the last status written, and left its message where it was. */
  ghost predicate LeftAsItIs(q: Queue, q': Queue, d: Delivery) {
    && q'.normal == q.normal && q'.large == q.large && q'.acked == q.acked && q'.dead == q.dead
    && q'.jobs == q.jobs - {d}
    && (q.TaskIn(d.key).Some? ==> q'.statuses == q.statuses + [StatusWrite(q.TaskIn(d.key).value.taskId, Retrying)])
  }

  lemma WriteLeavesTheRest(q: Queue, d: Delivery)
    ensures LeftAsItIs(q, Finish(WriteStatus(q, d.key, Retrying), d), d)
  {
  }
}
