/** Orderly runs drain both streams: a measure of the work left drops with every effective step. */
module Draining {
  import opened Common
  import opened IntentTasks
  import opened RedisStream
  import opened QueueProtocol
  import opened StatusHistory
  import opened OrderlyRuns

  /** How many calls a job is from its end, at most. */
  function Rank(step: JobStep): nat {
    match step
    case Started => 12
    case MarkRunning => 11
    case Working => 10
    case MarkDone => 9
    case Counting => 8
    case MarkRetrying => 7
    case MarkFailed => 6
    case AddDeadLetter => 5
    case AckDeadLetter => 4
    case Acking => 3
  }

  /** The work left on one message: its remaining deliveries first, then the steps of this one. */
  function Weight(phase: Phase, maxDeliveries: nat): nat {
    match phase
    case Waiting => 20 * (maxDeliveries + 1)
    case InJob(n, step) => 20 * (if n <= maxDeliveries then maxDeliveries - n else 0) + Rank(step)
    case Resting(n, idle) => 20 * (if n <= maxDeliveries then maxDeliveries - n else 0) + if idle then 1 else 2
    case Closed => 0
  }

  function StreamWork(q: Queue, name: StreamName, upTo: nat, maxDeliveries: nat): nat {
    if upTo == 0 then 0
    else StreamWork(q, name, upTo - 1, maxDeliveries) + Weight(PhaseOf(q, Key(name, upTo)), maxDeliveries)
  }

  /** The work left in both streams. */
  function Work(q: Queue, maxDeliveries: nat): nat {
    StreamWork(q, Normal, |q.normal.entries|, maxDeliveries) + StreamWork(q, Large, |q.large.entries|, maxDeliveries)
  }

  /** Every message of both streams is acknowledged. */
  ghost predicate Drained(q: Queue) {
    forall key: Key | q.HasMessage(key) :: key in q.acked
  }

  ghost predicate NoHeavier(q: Queue, q': Queue, maxDeliveries: nat) {
    forall key: Key | q.HasMessage(key) :: Weight(PhaseOf(q', key), maxDeliveries) <= Weight(PhaseOf(q, key), maxDeliveries)
  }

  lemma {:induction false} LighterStream(q: Queue, q': Queue, name: StreamName, upTo: nat, maxDeliveries: nat)
    requires NoHeavier(q, q', maxDeliveries) && upTo <= |q.At(name).entries|
    ensures StreamWork(q', name, upTo, maxDeliveries) <= StreamWork(q, name, upTo, maxDeliveries)
    ensures (exists id | 1 <= id <= upTo :: Weight(PhaseOf(q', Key(name, id)), maxDeliveries) < Weight(PhaseOf(q, Key(name, id)), maxDeliveries))
            ==> StreamWork(q', name, upTo, maxDeliveries) < StreamWork(q, name, upTo, maxDeliveries)
  {
    hide Weight, PhaseOf;
    if upTo > 0 {
      assert q.HasMessage(Key(name, upTo));
      LighterStream(q, q', name, upTo - 1, maxDeliveries);
    }
  }

  lemma LighterWork(q: Queue, q': Queue, key: Key, maxDeliveries: nat)
    requires NoHeavier(q, q', maxDeliveries) && q.HasMessage(key)
    requires q'.normal.entries == q.normal.entries && q'.large.entries == q.large.entries
    requires Weight(PhaseOf(q', key), maxDeliveries) < Weight(PhaseOf(q, key), maxDeliveries)
    ensures Work(q', maxDeliveries) < Work(q, maxDeliveries)
  {
    hide Weight, PhaseOf;
    LighterStream(q, q', Normal, |q.normal.entries|, maxDeliveries);
    LighterStream(q, q', Large, |q.large.entries|, maxDeliveries);
    assert key == Key(key.stream, key.id);
  }

  // ------------------------------------------------------------------ each action's effect

  lemma ReadDrains(q: Queue, name: StreamName, count: nat, maxDeliveries: nat)
    requires Ordered(q, maxDeliveries) && maxDeliveries >= 1
    requires ReadSize(q.At(name), count) > 0
    ensures Work(Apply(q, Read(name, count, Succeeds), maxDeliveries), maxDeliveries) < Work(q, maxDeliveries)
  {
    hide Safe, PhaseOf, Decode, Expected, StartJobs;
    var a := Read(name, count, Succeeds);
    var q' := Apply(q, a, maxDeliveries);
    OthersWriteNothing(q, a, maxDeliveries);
    var first := Key(name, q.At(name).last + 1);
    assert ReadIds(q.At(name), count)[0] == first.id;
    forall key: Key | q.HasMessage(key)
      ensures Weight(PhaseOf(q', key), maxDeliveries) <= Weight(PhaseOf(q, key), maxDeliveries)
    {
      assert MessageOk(q, key, maxDeliveries);
      ReadPhases(q, name, count, key);
    }
    assert MessageOk(q, first, maxDeliveries);
    ReadPhases(q, name, count, first);
    LighterWork(q, q', first, maxDeliveries);
  }

  lemma ClaimDrains(q: Queue, name: StreamName, cursor: nat, count: nat, budget: nat, maxDeliveries: nat, claimed: Key)
    requires Ordered(q, maxDeliveries) && maxDeliveries >= 1
    requires claimed.stream == name
    requires claimed.id in ClaimScan(q.At(name).pending, cursor, q.At(name).last, count, budget).0
    ensures Work(Apply(q, Claim(name, cursor, count, budget, Succeeds), maxDeliveries), maxDeliveries) < Work(q, maxDeliveries)
  {
    hide PhaseOf, Decode, StartJobs, ClaimScan, Justified, JobsBehind, Calls, History;
    var a := Claim(name, cursor, count, budget, Succeeds);
    var q' := Apply(q, a, maxDeliveries);
    OthersWriteNothing(q, a, maxDeliveries);
    forall key: Key | q.HasMessage(key)
      ensures Weight(PhaseOf(q', key), maxDeliveries) <= Weight(PhaseOf(q, key), maxDeliveries)
      ensures key == claimed ==> Weight(PhaseOf(q', key), maxDeliveries) < Weight(PhaseOf(q, key), maxDeliveries)
    {
      assert MessageOk(q, key, maxDeliveries);
      ClaimPhases(q, name, cursor, count, budget, key);
    }
    ScanClaimsExactlyTheIdlePrefix(q.At(name).pending, cursor, q.At(name).last, count, budget);
    LighterWork(q, q', claimed, maxDeliveries);
  }

  lemma IdleDrains(q: Queue, idle: Key, maxDeliveries: nat)
    requires Ordered(q, maxDeliveries) && Orderly(q, BecomeIdle(idle))
    requires q.IsPending(idle) && !q.PendingOf(idle).idle
    ensures Work(Apply(q, BecomeIdle(idle), maxDeliveries), maxDeliveries) < Work(q, maxDeliveries)
  {
    hide Decode, Expected, Safe, Announced, Submitted, Weight;
    var q' := Apply(q, BecomeIdle(idle), maxDeliveries);
    PendingIsDelivered(q, idle, maxDeliveries);
    assert MessageOk(q, idle, maxDeliveries);
    assert PhaseOf(q, idle) == Resting(q.PendingOf(idle).deliveries, false);
    forall key: Key | q.HasMessage(key)
      ensures Weight(PhaseOf(q', key), maxDeliveries) <= Weight(PhaseOf(q, key), maxDeliveries)
      ensures key == idle ==> Weight(PhaseOf(q', key), maxDeliveries) < Weight(PhaseOf(q, key), maxDeliveries)
    {
      assert MessageOk(q, key, maxDeliveries);
      IdlePhases(q, idle, key);
      IdleIsLighter(q.PendingOf(idle).deliveries, maxDeliveries);
    }
    LighterWork(q, q', idle, maxDeliveries);
  }

  lemma IdleIsLighter(n: nat, maxDeliveries: nat)
    ensures Weight(Resting(n, true), maxDeliveries) < Weight(Resting(n, false), maxDeliveries)
  {
  }

  lemma NextPhaseIsLighter(n: nat, step: JobStep, decodes: bool, outcome: Outcome, maxDeliveries: nat)
    ensures Weight(NextPhase(n, step, decodes, outcome, maxDeliveries), maxDeliveries) < Weight(InJob(n, step), maxDeliveries)
  {
  }

  lemma AdvanceDrains(q: Queue, d: Delivery, outcome: Outcome, maxDeliveries: nat)
    requires Ordered(q, maxDeliveries) && Orderly(q, Advance(d, outcome))
    ensures Work(Apply(q, Advance(d, outcome), maxDeliveries), maxDeliveries) < Work(q, maxDeliveries)
  {
    hide PhaseOf, Decode, Safe, Expected, AdvanceJob, Weight;
    var q' := AdvanceJob(q, d, outcome, maxDeliveries);
    JobHasMessage(q, d);
    assert MessageOk(q, d.key, maxDeliveries);
    NextPhaseIsLighter(d.n, q.jobs[d], q.TaskIn(d.key).Some?, outcome, maxDeliveries);
    forall key: Key | q.HasMessage(key)
      ensures Weight(PhaseOf(q', key), maxDeliveries) <= Weight(PhaseOf(q, key), maxDeliveries)
      ensures key == d.key ==> Weight(PhaseOf(q', key), maxDeliveries) < Weight(PhaseOf(q, key), maxDeliveries)
    {
      assert MessageOk(q, key, maxDeliveries);
      AdvancePhases(q, d, outcome, maxDeliveries, key);
    }
    var _ := AdvanceWrites(q, d, outcome, maxDeliveries);
    LighterWork(q, q', d.key, maxDeliveries);
  }

  // ------------------------------------------------------------------ the theorem

  /** A read of nothing and a claim of nothing change nothing. */
  lemma EmptyHandOut(q: Queue, name: StreamName, count: nat)
    ensures StartJobs(q, name, []) == q
    ensures ReadSize(q.At(name), count) == 0 ==> Apply(q, Read(name, count, Succeeds), 1) == q
    ensures q.With(name, Claimed(q.At(name), [])) == q
  {
    hide Decode;
    var s := q.At(name);
    assert StartJobs(q, name, []).jobs == q.jobs;
    assert ReadSize(s, count) == 0 ==> ReadIds(s, count) == [] && XReadGroup(s, count).pending == s.pending;
    assert Claimed(s, []).pending == s.pending;
  }

  /** Every orderly step other than an arrival that changes anything leaves less work. */
  lemma EffectiveStepDrains(q: Queue, a: Action, maxDeliveries: nat)
    requires Ordered(q, maxDeliveries) && Orderly(q, a) && maxDeliveries >= 1
    requires !Arrival(a) && Apply(q, a, maxDeliveries) != q
    ensures Work(Apply(q, a, maxDeliveries), maxDeliveries) < Work(q, maxDeliveries)
  {
    hide Ordered, Work, AdvanceJob, ClaimScan, Decode, ReadSize, StartJobs, XReadGroup, Claimed, ReadIds;
    match a
    case Read(name, count, _) =>
      EmptyHandOut(q, name, count);
      ReadDrains(q, name, count, maxDeliveries);
    case Claim(name, cursor, count, budget, _) =>
      EmptyHandOut(q, name, count);
      var ids := ClaimScan(q.At(name).pending, cursor, q.At(name).last, count, budget).0;
      ClaimDrains(q, name, cursor, count, budget, maxDeliveries, Key(name, ids[0]));
    case BecomeIdle(key) =>
      IdleDrains(q, key, maxDeliveries);
    case Advance(d, outcome) =>
      AdvanceDrains(q, d, outcome, maxDeliveries);
  }

  lemma {:induction false} WorkOnStream(q: Queue, name: StreamName, upTo: nat, maxDeliveries: nat) returns (key: Key)
    ensures StreamWork(q, name, upTo, maxDeliveries) == 0 ==>
              forall id | 1 <= id <= upTo :: PhaseOf(q, Key(name, id)) == Closed
    ensures StreamWork(q, name, upTo, maxDeliveries) > 0 ==>
              key.stream == name && 1 <= key.id <= upTo && PhaseOf(q, key) != Closed
  {
    hide PhaseOf;
    key := Key(name, upTo);
    if upTo > 0 && Weight(PhaseOf(q, key), maxDeliveries) == 0 {
      key := WorkOnStream(q, name, upTo - 1, maxDeliveries);
    } else if upTo > 0 {
      var _ := WorkOnStream(q, name, upTo - 1, maxDeliveries);
    }
  }

  /** No work is left exactly when both streams are fully acknowledged. */
  lemma NoWorkMeansDrained(q: Queue, maxDeliveries: nat)
    requires Safe(q)
    ensures Work(q, maxDeliveries) == 0 <==> Drained(q)
  {
    hide Safe;
    var a := WorkOnStream(q, Normal, |q.normal.entries|, maxDeliveries);
    var b := WorkOnStream(q, Large, |q.large.entries|, maxDeliveries);
    forall key: Key | q.HasMessage(key) ensures PhaseOf(q, key) == Closed <==> key in q.acked {
      SafeLosesNothing(q, key);
    }
    if Work(q, maxDeliveries) == 0 {
      forall key: Key | q.HasMessage(key) ensures key in q.acked {
        assert key == Key(key.stream, key.id);
      }
    }
  }

  /** As long as a message is not acknowledged, some orderly step changes the state. */
  lemma WorkCanProceed(q: Queue, maxDeliveries: nat) returns (a: Action)
    requires Ordered(q, maxDeliveries) && maxDeliveries >= 1
    requires !Drained(q)
    ensures Orderly(q, a) && !Arrival(a) && Apply(q, a, maxDeliveries) != q
  {
    var key: Key :| q.HasMessage(key) && key !in q.acked;
    SafeLosesNothing(q, key);
    assert MessageOk(q, key, maxDeliveries);
    a := StepFor(q, key, maxDeliveries);
  }

  /** The step that moves an unacknowledged message on. */
  lemma StepFor(q: Queue, key: Key, maxDeliveries: nat) returns (a: Action)
    requires Ordered(q, maxDeliveries) && maxDeliveries >= 1
    requires q.HasMessage(key) && (q.Undelivered(key) || q.IsPending(key)) && OneJob(q, key)
    ensures Orderly(q, a) && !Arrival(a) && Apply(q, a, maxDeliveries) != q
  {
    hide Ordered, AdvanceJob, Decode;
    if !q.IsPending(key) {
      a := Read(key.stream, 1, Succeeds);
      ReadDrains(q, key.stream, 1, maxDeliveries);
    } else {
      var p := q.PendingOf(key);
      var d := Delivery(key, p.deliveries);
      if d in q.jobs {
        a := Advance(d, Succeeds);
        AdvanceDrains(q, d, Succeeds, maxDeliveries);
      } else if p.idle {
        a := Claim(key.stream, key.id, 1, 1, Succeeds);
        var s := q.At(key.stream);
        PendingIsDelivered(q, key, maxDeliveries);
        assert ClaimScan(s.pending, key.id, s.last, 1, 1).0 == [key.id] + ClaimScan(s.pending, key.id + 1, s.last, 0, 0).0;
        ClaimDrains(q, key.stream, key.id, 1, 1, maxDeliveries, key);
      } else {
        a := BecomeIdle(key);
        IdleDrains(q, key, maxDeliveries);
      }
    }
  }

  lemma PendingIsDelivered(q: Queue, key: Key, maxDeliveries: nat)
    requires Ordered(q, maxDeliveries) && q.IsPending(key)
    ensures key.id <= q.At(key.stream).last && q.HasMessage(key)
  {
    assert Split(q.At(key.stream), key.stream, q.acked);
  }

  /** An orderly run without arrivals in which every step changes the state. */
  ghost predicate EffectiveRun(q: Queue, trace: seq<Action>, maxDeliveries: nat)
    decreases |trace|
  {
    trace != [] ==>
      var before, a := trace[..|trace| - 1], trace[|trace| - 1];
      var last := Run(q, before, maxDeliveries);
      && EffectiveRun(q, before, maxDeliveries)
      && Orderly(last, a) && !Arrival(a) && Apply(last, a, maxDeliveries) != last
  }

  lemma {:induction false} EffectiveRunsAreShort(q: Queue, trace: seq<Action>, maxDeliveries: nat)
    requires Ordered(q, maxDeliveries) && EffectiveRun(q, trace, maxDeliveries) && maxDeliveries >= 1
    ensures Ordered(Run(q, trace, maxDeliveries), maxDeliveries)
    ensures |trace| + Work(Run(q, trace, maxDeliveries), maxDeliveries) <= Work(q, maxDeliveries)
    decreases |trace|
  {
    hide Ordered, Orderly, Apply, Work;
    if trace != [] {
      var before, a := trace[..|trace| - 1], trace[|trace| - 1];
      EffectiveRunsAreShort(q, before, maxDeliveries);
      StepKeepsOrdered(Run(q, before, maxDeliveries), a, maxDeliveries);
      EffectiveStepDrains(Run(q, before, maxDeliveries), a, maxDeliveries);
    }
  }

  /**
   The queue drains.  From any state of an orderly run, once submissions stop, no effective run is
   longer than the work left; and a run can only stop changing the state when every message of
   both streams is acknowledged.
   */
  lemma OrderlyRunsDrain(past: seq<Action>, q: Queue, trace: seq<Action>, end: Queue, maxDeliveries: nat)
    requires maxDeliveries >= 1
    requires OrderlyRun(EMPTY_QUEUE, past, maxDeliveries) && q == Run(EMPTY_QUEUE, past, maxDeliveries)
    requires EffectiveRun(q, trace, maxDeliveries) && end == Run(q, trace, maxDeliveries)
    ensures |trace| <= Work(q, maxDeliveries)
    ensures (forall a | Orderly(end, a) && !Arrival(a) :: Apply(end, a, maxDeliveries) == end) <==> Drained(end)
  {
    hide Ordered, Orderly, Apply, Drained, Work;
    EmptyIsOrdered(maxDeliveries);
    RunKeepsOrdered(EMPTY_QUEUE, past, maxDeliveries);
    EffectiveRunsAreShort(q, trace, maxDeliveries);
    OrderedIsSafe(end, maxDeliveries);
    NoWorkMeansDrained(end, maxDeliveries);
    if Drained(end) {
      forall a | Orderly(end, a) && !Arrival(a) ensures Apply(end, a, maxDeliveries) == end {
        if Apply(end, a, maxDeliveries) != end {
          EffectiveStepDrains(end, a, maxDeliveries);
        }
      }
    } else {
      var a := WorkCanProceed(end, maxDeliveries);
    }
  }

  lemma OrderedIsSafe(q: Queue, maxDeliveries: nat)
    requires Ordered(q, maxDeliveries)
    ensures Safe(q)
  {
  }
}
