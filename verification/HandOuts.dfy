/**
 What XPENDING counts: over all runs, how often a message was handed out; and so when a task whose handler
 failed is tried again and when it is given up.
 */
module HandOuts {
  import opened Common
  import opened IntentTasks
  import opened RedisStream
  import opened QueueProtocol
  import opened OrderlyRuns
  import opened StatusHistory
  import opened BreakingMessages
  import opened Workers

  /** This step hands the message out to some consumer, whether or not its reply arrives. */
  predicate HandsOut(q: Queue, a: Action, key: Key) {
    match a
    case Read(name, count, outcome) => name == key.stream && Ran(outcome) && key.id in ReadIds(q.At(name), count)
    case Claim(name, cursor, count, budget, outcome) =>
      var s := q.At(name);
      name == key.stream && Ran(outcome) && key.id in ClaimScan(s.pending, cursor, s.last, count, budget).0
    case _ => false
  }

  /** How often a run handed the message out. */
  function HandOutCount(trace: seq<Action>, maxDeliveries: nat, key: Key): nat
    decreases |trace|
  {
    if trace == [] then 0
    else
      var front := trace[..|trace| - 1];
      HandOutCount(front, maxDeliveries, key) +
      if HandsOut(Run(EMPTY_QUEUE, front, maxDeliveries), trace[|trace| - 1], key) then 1 else 0
  }

  /** The pending list's count of the message, none before its first delivery. */
  predicate Counted(s: Stream<Payload>, id: nat, n: nat) {
    && (id > s.last ==> n == 0)
    && (1 <= id <= s.last ==> n >= 1)
    && (id in s.pending ==> s.pending[id].deliveries == n)
  }

  lemma ReadIsCounted(s: Stream<Payload>, count: nat, id: nat, n: nat)
    requires WellFormed(s) && Counted(s, id, n)
    ensures Counted(XReadGroup(s, count), id, if id in ReadIds(s, count) then n + 1 else n)
  {
    hide ReadIds;
    ReadIsExact(s, count);
  }

  lemma ClaimIsCounted(s: Stream<Payload>, ids: seq<nat>, id: nat, n: nat)
    requires WellFormed(s) && Counted(s, id, n) && (id in ids ==> id in s.pending)
    ensures Counted(Claimed(s, ids), id, if id in ids then n + 1 else n)
  {
  }

  lemma AdvanceIsCounted(q: Queue, d: Delivery, outcome: Outcome, maxDeliveries: nat, key: Key, n: nat)
    requires d in q.jobs && Counted(q.At(key.stream), key.id, n)
    ensures Counted(AdvanceJob(q, d, outcome, maxDeliveries).At(key.stream), key.id, n)
  {
    hide AdvanceJob;
    AdvanceOnlyAcks(q, d, outcome, maxDeliveries);
  }

  lemma ReadStep(q: Queue, name: StreamName, count: nat, outcome: Outcome, maxDeliveries: nat)
    ensures var q' := Apply(q, Read(name, count, outcome), maxDeliveries);
            q'.normal == ReadBy(q, name, count, outcome, Normal) && q'.large == ReadBy(q, name, count, outcome, Large)
  {
    hide StartJobs, XReadGroup, ReadIds;
    StartsOnlyJobs(q.With(name, XReadGroup(q.At(name), count)), name, ReadIds(q.At(name), count));
    StartsOnlyJobs(q, name, ReadIds(q.At(name), count));
  }

  /** A stream after a read of `name`. */
  function ReadBy(q: Queue, name: StreamName, count: nat, outcome: Outcome, other: StreamName): Stream<Payload> {
    if other == name && Ran(outcome) then XReadGroup(q.At(name), count) else q.At(other)
  }

  lemma ClaimStep(q: Queue, name: StreamName, cursor: nat, count: nat, budget: nat, outcome: Outcome, maxDeliveries: nat)
    ensures var q' := Apply(q, Claim(name, cursor, count, budget, outcome), maxDeliveries);
            var ids := ClaimScan(q.At(name).pending, cursor, q.At(name).last, count, budget).0;
            q'.normal == ClaimedBy(q, name, ids, outcome, Normal) && q'.large == ClaimedBy(q, name, ids, outcome, Large)
  {
    hide StartJobs, Claimed, ClaimScan;
    var ids := ClaimScan(q.At(name).pending, cursor, q.At(name).last, count, budget).0;
    StartsOnlyJobs(q.With(name, Claimed(q.At(name), ids)), name, ids);
    StartsOnlyJobs(q, name, ids);
  }

  /** A stream after a claim of `ids` in `name`. */
  function ClaimedBy(q: Queue, name: StreamName, ids: seq<nat>, outcome: Outcome, other: StreamName): Stream<Payload> {
    if other == name && Ran(outcome) then Claimed(q.At(name), ids) else q.At(other)
  }

  lemma StepIsCounted(q: Queue, a: Action, maxDeliveries: nat, key: Key, n: nat)
    requires Safe(q) && Counted(q.At(key.stream), key.id, n)
    ensures Counted(Apply(q, a, maxDeliveries).At(key.stream), key.id, if HandsOut(q, a, key) then n + 1 else n)
  {
    hide Counted, Apply, AdvanceJob, ClaimScan, ReadIds, XReadGroup, Claimed, Justified, JobsBehind;
    var s := q.At(key.stream);
    assert WellFormed(s) && 0 !in s.pending by { StreamsAreWellFormed(q, key.stream); }
    hide Safe;
    match a
    case Read(name, count, outcome) =>
      ReadStep(q, name, count, outcome, maxDeliveries);
      ReadIsCounted(s, count, key.id, n);
    case Claim(name, cursor, count, budget, outcome) =>
      ClaimStep(q, name, cursor, count, budget, outcome, maxDeliveries);
      if name == key.stream {
        ScanClaimsExactlyTheIdlePrefix(s.pending, cursor, s.last, count, budget);
        ClaimIsCounted(s, ClaimScan(s.pending, cursor, s.last, count, budget).0, key.id, n);
      }
    case _ => QuietStepIsCounted(q, a, maxDeliveries, key, n);
  }

  lemma StreamsAreWellFormed(q: Queue, name: StreamName)
    requires Safe(q)
    ensures WellFormed(q.At(name)) && 0 !in q.At(name).pending
  {
  }

  lemma QuietStepIsCounted(q: Queue, a: Action, maxDeliveries: nat, key: Key, n: nat)
    requires !a.Read? && !a.Claim? && WellFormed(q.At(key.stream)) && Counted(q.At(key.stream), key.id, n)
    ensures Counted(Apply(q, a, maxDeliveries).At(key.stream), key.id, n)
  {
    hide AdvanceJob;
    match a
    case Advance(d, outcome) => if d in q.jobs { AdvanceIsCounted(q, d, outcome, maxDeliveries, key, n); }
    case _ =>
  }

  lemma {:induction false} RunIsCounted(trace: seq<Action>, maxDeliveries: nat, key: Key)
    ensures var q := Run(EMPTY_QUEUE, trace, maxDeliveries);
            Safe(q) && Counted(q.At(key.stream), key.id, HandOutCount(trace, maxDeliveries, key))
    decreases |trace|
  {
    hide Safe, Apply, HandsOut;
    if trace == [] {
      EmptyIsCounted(key);
    } else {
      var front := trace[..|trace| - 1];
      var q := Run(EMPTY_QUEUE, front, maxDeliveries);
      RunIsCounted(front, maxDeliveries, key);
      ApplyIsSafe(q, trace[|trace| - 1], maxDeliveries);
      StepIsCounted(q, trace[|trace| - 1], maxDeliveries, key, HandOutCount(front, maxDeliveries, key));
    }
  }

  lemma EmptyIsCounted(key: Key)
    ensures Safe(EMPTY_QUEUE) && Counted(EMPTY_QUEUE.At(key.stream), key.id, 0)
  {
  }

  /** The delivery count a failed job looks up is the number of times its message was handed out, those whose
      reply was lost included; it is 1 when the lookup fails or when the message is no longer pending.  So the
      limit can be reached with fewer handler calls than deliveries. */
  lemma DeliveryCountIsHandOuts(trace: seq<Action>, maxDeliveries: nat, q: Queue, key: Key, outcome: Outcome)
    requires q == Run(EMPTY_QUEUE, trace, maxDeliveries)
    ensures DeliveryCount(q, key, outcome) ==
            if outcome.Succeeds? && q.IsPending(key) then HandOutCount(trace, maxDeliveries, key) else 1
  {
    hide Run, HandOutCount;
    RunIsCounted(trace, maxDeliveries, key);
  }

  // ------------------------------------------------------------------ giving up

  predicate GivingUp(step: JobStep) {
    step == MarkFailed || step == AddDeadLetter || step == AckDeadLetter
  }

  /** The message has a dead letter, or a job is about to give it one. */
  ghost predicate GaveUp(q: Queue, key: Key) {
    Lettered(q.dead, key) || exists d <- q.jobs :: d.key == key && GivingUp(q.jobs[d])
  }

  /** A message that carries a task, or does not exist yet, is given up only at the limit. */
  ghost predicate OnlyAtLimit(q: Queue, key: Key, n: nat, maxDeliveries: nat) {
    GaveUp(q, key) && (q.TaskIn(key).Some? || !q.HasMessage(key)) ==> q.HasMessage(key) && n >= maxDeliveries
  }

  /** Giving up begins with a delivery count at the limit. */
  lemma AdvanceGivesUp(q: Queue, d: Delivery, outcome: Outcome, maxDeliveries: nat, key: Key)
    requires d in q.jobs && q.HasMessage(d.key) && !GaveUp(q, key)
    ensures GaveUp(AdvanceJob(q, d, outcome, maxDeliveries), key) ==>
              d.key == key && (q.TaskIn(key).Some? ==> DeliveryCount(q, key, outcome) >= maxDeliveries)
  {
    hide Decode, PayloadBreaks, Lettered;
    LetteredAppend(q.dead, DeadLetter(d.key, q.At(d.key.stream).entries[d.key.id - 1]), key);
    match q.jobs[d]
    case Started =>
    case Counting =>
    case AddDeadLetter =>
    case _ =>
  }

  lemma CountIsAtMost(q: Queue, d: Delivery, outcome: Outcome, n: nat)
    requires Safe(q) && d in q.jobs && Counted(q.At(d.key.stream), d.key.id, n)
    ensures DeliveryCount(q, d.key, outcome) <= n
  {
    assert Behind(q.At(d.key.stream), d);
  }

  lemma StepIsOnlyAtLimit(q: Queue, a: Action, maxDeliveries: nat, key: Key, n: nat)
    requires Safe(q) && Counted(q.At(key.stream), key.id, n) && OnlyAtLimit(q, key, n, maxDeliveries)
    ensures OnlyAtLimit(Apply(q, a, maxDeliveries), key, n, maxDeliveries)
  {
    hide Safe, Counted, GaveUp, AdvanceJob, Apply, DeliveryCount, Decode;
    if q.HasMessage(key) {
      TaskStays(q, a, maxDeliveries, key);
    }
    if GaveUp(Apply(q, a, maxDeliveries), key) && !GaveUp(q, key) {
      if a.Advance? && a.delivery in q.jobs {
        ApplyIsAdvance(q, a.delivery, a.outcome, maxDeliveries);
        JobHasMessage(q, a.delivery);
        AdvanceGivesUp(q, a.delivery, a.outcome, maxDeliveries, key);
        CountIsAtMost(q, a.delivery, a.outcome, n);
      } else {
        OthersGiveNothingUp(q, a, maxDeliveries, key);
      }
    }
  }

  lemma ApplyIsAdvance(q: Queue, d: Delivery, outcome: Outcome, maxDeliveries: nat)
    requires d in q.jobs
    ensures Apply(q, Advance(d, outcome), maxDeliveries) == AdvanceJob(q, d, outcome, maxDeliveries)
  {
  }

  lemma TaskStays(q: Queue, a: Action, maxDeliveries: nat, key: Key)
    requires q.HasMessage(key)
    ensures Apply(q, a, maxDeliveries).HasMessage(key) && Apply(q, a, maxDeliveries).TaskIn(key) == q.TaskIn(key)
  {
    hide Apply, Decode;
    StepKeepsMessages(q, a, maxDeliveries, key.stream);
  }

  /** Arrivals, hand-outs, time and crashes give nothing up. */
  lemma OthersGiveNothingUp(q: Queue, a: Action, maxDeliveries: nat, key: Key)
    requires !(a.Advance? && a.delivery in q.jobs) && !GaveUp(q, key)
    ensures !GaveUp(Apply(q, a, maxDeliveries), key)
  {
    hide Lettered, ClaimScan, ReadIds, Claimed, XReadGroup, AdvanceJob;
  }

  lemma {:induction false} RunGivesUpAtLimit(trace: seq<Action>, maxDeliveries: nat, key: Key)
    ensures OnlyAtLimit(Run(EMPTY_QUEUE, trace, maxDeliveries), key, HandOutCount(trace, maxDeliveries, key), maxDeliveries)
    decreases |trace|
  {
    hide Safe, Apply, HandsOut, OnlyAtLimit, Counted;
    if trace == [] {
      NothingGivenUp(key, maxDeliveries);
    } else {
      var front := trace[..|trace| - 1];
      var q, n := Run(EMPTY_QUEUE, front, maxDeliveries), HandOutCount(front, maxDeliveries, key);
      RunIsCounted(front, maxDeliveries, key);
      RunGivesUpAtLimit(front, maxDeliveries, key);
      StepIsOnlyAtLimit(q, trace[|trace| - 1], maxDeliveries, key, n);
      MoreIsAtLimit(Run(EMPTY_QUEUE, trace, maxDeliveries), key, n, HandOutCount(trace, maxDeliveries, key), maxDeliveries);
    }
  }

  lemma NothingGivenUp(key: Key, maxDeliveries: nat)
    ensures OnlyAtLimit(EMPTY_QUEUE, key, 0, maxDeliveries)
  {
  }

  lemma MoreIsAtLimit(q: Queue, key: Key, n: nat, more: nat, maxDeliveries: nat)
    requires OnlyAtLimit(q, key, n, maxDeliveries) && n <= more
    ensures OnlyAtLimit(q, key, more, maxDeliveries)
  {
  }

  /** In every run, with crashes, failed lookups and overlapping deliveries, a message that carries a task has a
      dead letter only if it was handed out at least `max_deliveries` times. */
  lemma DeadLetterMeansLimitReached(trace: seq<Action>, maxDeliveries: nat, q: Queue, key: Key)
    requires q == Run(EMPTY_QUEUE, trace, maxDeliveries)
    requires q.TaskIn(key).Some? && q.HasDeadLetter(key)
    ensures HandOutCount(trace, maxDeliveries, key) >= maxDeliveries
  {
    hide Run, HandOutCount, Decode;
    RunGivesUpAtLimit(trace, maxDeliveries, key);
  }

  // ------------------------------------------------------------------ one failed attempt

  /** One step of the attempt raises: the write of RUNNING, the handling itself, or the write of DONE.  The calls
      that follow succeed. */
  function FailedAttempt(d: Delivery, ran: bool): seq<Action> {
    [Advance(d, Raises(ran)), Advance(d, Succeeds), Advance(d, Succeeds)]
  }

  predicate Attempting(step: JobStep) {
    step == MarkRunning || step == Working || step == MarkDone
  }

  /** What a step that raised may have written all the same. */
  function WrittenAnyway(step: JobStep, ran: bool): seq<TaskState> {
    if ran && step == MarkRunning then [Running] else if ran && step == MarkDone then [Done] else []
  }

  /** The message was handed out this often as far as the lookup can tell. */
  function LookedUp(trace: seq<Action>, maxDeliveries: nat, key: Key): nat {
    if Run(EMPTY_QUEUE, trace, maxDeliveries).IsPending(key) then HandOutCount(trace, maxDeliveries, key) else 1
  }

  lemma RunsThree(q: Queue, a: Action, b: Action, c: Action, maxDeliveries: nat)
    ensures Run(q, [a, b, c], maxDeliveries) == Apply(Apply(Apply(q, a, maxDeliveries), b, maxDeliveries), c, maxDeliveries)
  {
    hide Apply;
    RunEmpty(q, maxDeliveries);
    RunAppend(q, [], a, maxDeliveries);
    RunAppend(q, [a], b, maxDeliveries);
    RunAppend(q, [a, b], c, maxDeliveries);
    assert [] + [a] == [a] && [a] + [b] == [a, b] && [a, b] + [c] == [a, b, c];
  }

  /** The queue once the step has raised. */
  function AfterRaise(q: Queue, d: Delivery, ran: bool): Queue
    requires d in q.jobs
  {
    if ran && q.jobs[d] == MarkRunning then WriteStatus(q, d.key, Running)
    else if ran && q.jobs[d] == MarkDone then WriteStatus(q, d.key, Done)
    else q
  }

  lemma RaisingCounts(q: Queue, d: Delivery, ran: bool, maxDeliveries: nat)
    requires d in q.jobs && Attempting(q.jobs[d])
    ensures Apply(q, Advance(d, Raises(ran)), maxDeliveries) == AfterRaise(q, d, ran).(jobs := q.jobs[d := Counting])
  {
    hide Decode;
  }

  /** Where a failed attempt leads, by the count looked up. */
  lemma FailureSteps(q: Queue, d: Delivery, maxDeliveries: nat)
    requires d in q.jobs && q.jobs[d] == Counting
    ensures var q' := Apply(Apply(q, Advance(d, Succeeds), maxDeliveries), Advance(d, Succeeds), maxDeliveries);
            if DeliveryCount(q, d.key, Succeeds) < maxDeliveries
            then q' == WriteStatus(q, d.key, Retrying).(jobs := q.jobs - {d})
            else q' == WriteStatus(q, d.key, Failed).(jobs := q.jobs[d := AddDeadLetter])
  {
    hide Decode;
    assert q.jobs[d := MarkRetrying] - {d} == q.jobs - {d};
    assert q.jobs[d := MarkFailed][d := AddDeadLetter] == q.jobs[d := AddDeadLetter];
  }

  lemma RaiseWrites(q: Queue, d: Delivery, ran: bool)
    requires d in q.jobs && q.TaskIn(d.key).Some?
    ensures var task := q.TaskIn(d.key).value.taskId;
            History(AfterRaise(q, d, ran).statuses, task) == History(q.statuses, task) + WrittenAnyway(q.jobs[d], ran)
    ensures AfterRaise(q, d, ran) == q.(statuses := AfterRaise(q, d, ran).statuses)
    ensures AfterRaise(q, d, ran).TaskIn(d.key) == q.TaskIn(d.key)
  {
    hide Decode, History;
    var task := q.TaskIn(d.key).value.taskId;
    HistoryAppend(q.statuses, StatusWrite(task, Running), task);
    HistoryAppend(q.statuses, StatusWrite(task, Done), task);
    assert History(q.statuses, task) + [] == History(q.statuses, task);
  }

  /**
   One failed attempt, in any reachable state.  Below the limit the task gets RETRYING and the message is left
   as it is, to be claimed again; at the limit it gets FAILED and goes on to its dead letter.
   */
  lemma FailedAttemptIsRetriedBelowLimit(trace: seq<Action>, maxDeliveries: nat, q: Queue, d: Delivery, ran: bool)
    requires q == Run(EMPTY_QUEUE, trace, maxDeliveries)
    requires d in q.jobs && Attempting(q.jobs[d]) && q.TaskIn(d.key).Some?
    ensures var q' := Run(q, FailedAttempt(d, ran), maxDeliveries);
            var task := q.TaskIn(d.key).value.taskId;
            var before := History(q.statuses, task) + WrittenAnyway(q.jobs[d], ran);
            && q'.normal == q.normal && q'.large == q.large && q'.acked == q.acked && q'.dead == q.dead
            && if LookedUp(trace, maxDeliveries, d.key) < maxDeliveries
               then History(q'.statuses, task) == before + [Retrying] && q'.jobs == q.jobs - {d}
               else History(q'.statuses, task) == before + [Failed] && q'.jobs == q.jobs[d := AddDeadLetter]
  {
    hide Run, Apply, HandOutCount, Decode, History, AfterRaise, Attempting;
    DeliveryCountIsHandOuts(trace, maxDeliveries, q, d.key, Succeeds);
    RaisingCounts(q, d, ran, maxDeliveries);
    RaiseWrites(q, d, ran);
    var raised := AfterRaise(q, d, ran).(jobs := q.jobs[d := Counting]);
    FailureSteps(raised, d, maxDeliveries);
    RunsThree(q, Advance(d, Raises(ran)), Advance(d, Succeeds), Advance(d, Succeeds), maxDeliveries);
    var task := q.TaskIn(d.key).value.taskId;
    HistoryAppend(raised.statuses, StatusWrite(task, Retrying), task);
    HistoryAppend(raised.statuses, StatusWrite(task, Failed), task);
    assert raised.jobs - {d} == q.jobs - {d} && raised.jobs[d := AddDeadLetter] == q.jobs[d := AddDeadLetter];
    assert raised.TaskIn(d.key) == q.TaskIn(d.key);
  }
}
