/**
 The consume loop: claim stale messages of both streams with persistent cursors, read new ones when
 there are none, start one job per message returned, never more than `concurrency` at a time,
 and finish them all before returning.
 */
module Consume {
  import opened Common
  import opened RedisStream
  import opened QueueProtocol
  import opened Workers
  import opened Draining

  /** The messages of one stream that one claim or read returned, as deliveries. */
  datatype Batch = Batch(stream: StreamName, deliveries: seq<Delivery>)

  datatype ConsumeError = BadMaxDeliveries | BadConcurrency

  function Flatten(batches: seq<Batch>): seq<Delivery> {
    if batches == [] then [] else Flatten(batches[..|batches| - 1]) + batches[|batches| - 1].deliveries
  }

  ghost predicate Distinct(ds: seq<Delivery>) {
    forall i, j | 0 <= i < j < |ds| :: ds[i] != ds[j]
  }

  /** Hand-outs are never forgotten and finished deliveries stay finished. */
  ghost predicate Later(q: Queue, q': Queue) {
    && (forall d :: HandedOut(q, d) ==> HandedOut(q', d))
    && (forall d | HandedOut(q, d) && d !in q.jobs :: d !in q'.jobs)
  }

  lemma StepIsLater(q: Queue, a: Action, maxDeliveries: nat)
    requires Safe(q)
    ensures Later(q, Apply(q, a, maxDeliveries))
  {
    hide Safe, HandedOut, Apply;
    forall d | HandedOut(q, d)
      ensures HandedOut(Apply(q, a, maxDeliveries), d)
      ensures d !in q.jobs ==> d !in Apply(q, a, maxDeliveries).jobs
    {
      OthersKeepHandOut(q, a, maxDeliveries, d);
      if ActsFor(a, d) {
        OwnActionOnFinished(q, a, maxDeliveries, d);
      } else {
        OthersKeepJob(q, a, maxDeliveries, d);
      }
    }
  }

  lemma OwnActionOnFinished(q: Queue, a: Action, maxDeliveries: nat, d: Delivery)
    requires ActsFor(a, d)
    ensures d !in q.jobs ==> d !in Apply(q, a, maxDeliveries).jobs
  {
  }

  /** New deliveries of some messages: not handed out before, handed out now. */
  ghost predicate NewlyHandedOut(q: Queue, q': Queue, ds: seq<Delivery>) {
    Distinct(ds) && forall d <- ds :: !HandedOut(q, d) && HandedOut(q', d)
  }

  /** Hand-outs add up: those of a later step are different from all earlier ones. */
  lemma HandOutsAddUp(q0: Queue, q1: Queue, q2: Queue, first: seq<Delivery>, second: seq<Delivery>)
    requires Later(q0, q1) && Later(q1, q2)
    requires NewlyHandedOut(q0, q1, first) && NewlyHandedOut(q1, q2, second)
    ensures NewlyHandedOut(q0, q2, first + second) && Later(q0, q2)
  {
    hide HandedOut;
    var both := first + second;
    forall i, j | 0 <= i < j < |both| ensures both[i] != both[j] {
      if i < |first| && j >= |first| {
        assert both[i] in first && both[j] in second;
      }
    }
  }

  /** The deliveries behind the ids that a successful claim or read of one stream returned. */
  function DeliveriesOf(q: Queue, name: StreamName, ids: seq<nat>): seq<Delivery> {
    seq(|ids|, i requires 0 <= i < |ids| =>
      Delivery(Key(name, ids[i]), if ids[i] in q.At(name).pending then q.At(name).pending[ids[i]].deliveries else 0))
  }

  lemma ReadHandsOut(q: Queue, name: StreamName, count: nat, maxDeliveries: nat)
    requires Safe(q)
    ensures var q', ids := Apply(q, Read(name, count, Succeeds), maxDeliveries), ReadIds(q.At(name), count);
            && |ids| <= count
            && NewlyHandedOut(q, q', DeliveriesOf(q', name, ids))
            && forall d <- DeliveriesOf(q', name, ids) :: d in q'.jobs && q'.jobs[d] == Started
  {
    hide Justified, JobsBehind, StartJobs, ReadSize;
    var a := Read(name, count, Succeeds);
    var s, q', ids := q.At(name), Apply(q, a, maxDeliveries), ReadIds(q.At(name), count);
    ReadSizeIsBounded(s, count);
    StartsOnlyJobs(q.With(name, XReadGroup(s, count)), name, ids);
    StartsEach(q.With(name, XReadGroup(s, count)), name, ids);
    forall i | 0 <= i < |ids|
      ensures var d := DeliveriesOf(q', name, ids)[i];
              !HandedOut(q, d) && HandedOut(q', d) && d in q'.jobs && q'.jobs[d] == Started
    {
      assert ids[i] in ids && ids[i] == s.last + 1 + i;
    }
  }

  lemma ReadSizeIsBounded<P>(s: Stream<P>, count: nat)
    ensures ReadSize(s, count) <= count
  {
  }

  lemma StartsEach(q: Queue, name: StreamName, ids: seq<nat>)
    ensures var q' := StartJobs(q, name, ids);
            forall id <- ids | id in q.At(name).pending ::
              var d := Delivery(Key(name, id), q.At(name).pending[id].deliveries); d in q'.jobs && q'.jobs[d] == Started
  {
  }

  lemma ClaimHandsOutAnew(q: Queue, name: StreamName, cursor: nat, count: nat, budget: nat, maxDeliveries: nat)
    requires Safe(q)
    ensures var q' := Apply(q, Claim(name, cursor, count, budget, Succeeds), maxDeliveries);
            var ids := ClaimScan(q.At(name).pending, cursor, q.At(name).last, count, budget).0;
            && |ids| <= count
            && NewlyHandedOut(q, q', DeliveriesOf(q', name, ids))
            && forall d <- DeliveriesOf(q', name, ids) :: d in q'.jobs && q'.jobs[d] == Started
  {
    hide Justified, JobsBehind, StartJobs, ClaimScan;
    var a := Claim(name, cursor, count, budget, Succeeds);
    var s, q' := q.At(name), Apply(q, a, maxDeliveries);
    assert Split(s, name, q.acked);
    ScanClaimsExactlyTheIdlePrefix(s.pending, cursor, s.last, count, budget);
    var ids := ClaimScan(s.pending, cursor, s.last, count, budget).0;
    StartsOnlyJobs(q.With(name, Claimed(s, ids)), name, ids);
    StartsEach(q.With(name, Claimed(s, ids)), name, ids);
    forall i | 0 <= i < |ids|
      ensures var d := DeliveriesOf(q', name, ids)[i];
              !HandedOut(q, d) && HandedOut(q', d) && d in q'.jobs && q'.jobs[d] == Started
    {
      assert ids[i] in ids;
    }
  }

  lemma RankDrops(q: Queue, d: Delivery, outcome: Outcome, maxDeliveries: nat)
    requires d in q.jobs
    ensures var q' := AdvanceJob(q, d, outcome, maxDeliveries);
            d in q'.jobs ==> Rank(q'.jobs[d]) < Rank(q.jobs[d])
  {
    hide WriteStatus, Ack, Decode;
    WriteKeepsJobs(q, d.key);
    AckKeepsRecords(q, d.key);
  }

  function StillRunning(q: Queue, inFlight: set<Delivery>): set<Delivery> {
    set d <- inFlight | d in q.jobs
  }

  /** The normal stream was asked for new messages. */
  ghost predicate ReadTried(trace: seq<Action>, count: nat) {
    exists outcome :: Read(Normal, count, outcome) in trace
  }

  lemma ReadTriedLater(first: seq<Action>, second: seq<Action>, count: nat)
    ensures ReadTried(first, count) || ReadTried(second, count) ==> ReadTried(first + second, count)
  {
    if ReadTried(first, count) || ReadTried(second, count) {
      var outcome :| Read(Normal, count, outcome) in first || Read(Normal, count, outcome) in second;
      assert Read(Normal, count, outcome) in first + second;
    }
  }

  lemma SomethingFlattens(batches: seq<Batch>)
    requires batches != [] && forall batch <- batches :: batch.deliveries != []
    ensures Flatten(batches) != []
  {
    assert batches[|batches| - 1] in batches;
  }

  /** One delivery for each of these messages of the stream, in their order. */
  predicate HandsExactly(ds: seq<Delivery>, name: StreamName, ids: seq<nat>) {
    |ds| == |ids| && forall j | 0 <= j < |ids| :: ds[j].key == Key(name, ids[j])
  }

  /** A log of claim calls, beside what each of them handed over, and the cursor it leaves. */
  ghost predicate Recorded(name: StreamName, cursor: nat, calls: seq<SweepCall>, batches: seq<seq<Delivery>>, handed: seq<Delivery>) {
    && cursor == CursorAfter(calls, 0) && |batches| == |calls|
    && (forall i | 0 <= i < |calls| && calls[i].ClaimCall? :: 0 !in calls[i].pending)
    && (forall i | 0 <= i < |calls| :: HandsExactly(batches[i], name, CallClaims(calls[i], CursorAfter(calls[..i], 0))))
    && forall batch <- batches :: forall d <- batch :: d in handed
  }

  lemma RecordedLater(
    name: StreamName, cursor: nat, calls: seq<SweepCall>, batches: seq<seq<Delivery>>, handed: seq<Delivery>, more: seq<Delivery>)
    requires Recorded(name, cursor, calls, batches, handed)
    ensures Recorded(name, cursor, calls, batches, handed + more)
  {
  }

  lemma RecordedAppend(
    name: StreamName, cursor: nat, calls: seq<SweepCall>, batches: seq<seq<Delivery>>, handed: seq<Delivery>,
    call: SweepCall, batch: seq<Delivery>)
    requires Recorded(name, cursor, calls, batches, handed)
    requires call.ClaimCall? ==> 0 !in call.pending
    requires HandsExactly(batch, name, CallClaims(call, cursor))
    ensures Recorded(name, CallCursor(call, cursor), calls + [call], batches + [batch], handed + batch)
  {
    hide CallClaims, CallCursor, HandsExactly;
    CursorAfterConcat(calls, [call], 0);
    CursorAfterOne(call, cursor);
    forall i | 0 <= i < |calls + [call]|
      ensures HandsExactly((batches + [batch])[i], name, CallClaims((calls + [call])[i], CursorAfter((calls + [call])[..i], 0)))
    {
      assert (calls + [call])[..i] == calls[..i] && calls[..|calls|] == calls;
    }
    assert forall b <- batches + [batch] :: b in batches || b == batch;
  }

  /** How a claim is logged: the pending list that its scan saw, or a failure. */
  function CallOf(q: Queue, a: Action): SweepCall
    requires a.Claim?
  {
    if a.outcome.Succeeds? then ClaimCall(q.At(a.stream).pending, q.At(a.stream).last, a.count, a.budget) else FailedCall
  }

  class RedisStreamTaskQueue {
    const server: RedisServer
    var claimCursors: map<StreamName, nat>
    ghost var claimCalls: map<StreamName, seq<SweepCall>>  // every claim call made, per stream
    ghost var claimHanded: map<StreamName, seq<seq<Delivery>>>  // what each of these calls handed to this worker
    ghost var handed: seq<Delivery>                        // every delivery a reply handed to this worker

    /** Each cursor is where the claim calls so far left it, starting from 0-0, and each call handed over the
        messages that its scan claimed. */
    ghost predicate Valid()
      reads this
    {
      && claimCursors.Keys == {Normal, Large} && claimCalls.Keys == {Normal, Large} && claimHanded.Keys == {Normal, Large}
      && forall name <- claimCalls :: Recorded(name, claimCursors[name], claimCalls[name], claimHanded[name], handed)
    }

    /** The claim calls made on one stream so far. */
    ghost function ClaimLog(name: StreamName): seq<SweepCall>
      reads this
    {
      if name in claimCalls then claimCalls[name] else []
    }

    constructor (server: RedisServer)
      ensures Valid() && this.server == server && handed == []
    {
      this.server := server;
      claimCursors := map[Normal := 0, Large := 0];
      claimCalls := map[Normal := [], Large := []];
      claimHanded := map[Normal := [], Large := []];
      handed := [];
    }

    /** Any number of steps of everybody, this worker's own jobs included. */
    method Interfere() returns (ghost trace: seq<Action>)
      requires Safe(server.q)
      modifies server
      ensures Safe(server.q) && server.q == Run(old(server.q), trace, server.maxDeliveries)
      ensures Later(old(server.q), server.q)
    {
      hide Safe, Run, Apply, HandedOut;
      trace := [];
      RunEmpty(server.q, server.maxDeliveries);
      var steps: nat := *;
      while steps > 0
        invariant Safe(server.q) && server.q == Run(old(server.q), trace, server.maxDeliveries)
        invariant Later(old(server.q), server.q)
      {
        var a: Action := *;
        StepIsLater(server.q, a, server.maxDeliveries);
        RunAppend(old(server.q), trace, a, server.maxDeliveries);
        trace := trace + [a];
        server.Do(a);
        steps := steps - 1;
      }
    }

    /** One XAUTOCLAIM of one stream; the cursor moves only when its reply arrives. */
    method XAutoClaim(name: StreamName, count: nat) returns (outcome: Outcome, batch: Batch, ghost trace: seq<Action>)
      requires Safe(server.q) && Valid()
      modifies this, server
      ensures Safe(server.q) && Valid() && server.q == Run(old(server.q), trace, server.maxDeliveries)
      ensures Later(old(server.q), server.q) && NewlyHandedOut(old(server.q), server.q, batch.deliveries)
      ensures |batch.deliveries| <= count && batch.stream == name
      ensures handed == old(handed) + batch.deliveries
      ensures forall other | other != name :: ClaimLog(other) == old(ClaimLog(other))
      ensures trace != []
      ensures var before, a := Run(old(server.q), trace[..|trace| - 1], server.maxDeliveries), trace[|trace| - 1];
              && a.Claim? && a.stream == name && a.cursor == old(claimCursors)[name] && a.count == count && a.outcome == outcome
              && ClaimLog(name) == old(ClaimLog(name)) + [CallOf(before, a)]
              && HandsExactly(batch.deliveries, name, CallClaims(CallOf(before, a), a.cursor))
    {
      hide Safe, Run, Apply, HandedOut, ClaimScan, DeliveriesOf, CursorAfter, Recorded;
      trace := Interfere();
      ghost var start := server.q;
      var s, cursor := server.q.At(name), claimCursors[name];
      var budget: nat := *;
      outcome := *;
      var a := Claim(name, cursor, count, budget, outcome);
      RunAppend(old(server.q), trace, a, server.maxDeliveries);
      assert (trace + [a])[..|trace|] == trace;
      trace := trace + [a];
      StepIsLater(start, a, server.maxDeliveries);
      server.Do(a);

      batch := Batch(name, []);
      ghost var call := CallOf(start, a);
      NothingHandedOut(start, server.q);
      if outcome == Succeeds {
        var (ids, next) := ClaimScan(s.pending, cursor, s.last, count, budget);
        claimCursors := claimCursors[name := next];
        batch := Batch(name, DeliveriesOf(server.q, name, ids));
        ClaimHandsOutAnew(start, name, cursor, count, budget, server.maxDeliveries);
        DeliveriesOfLength(server.q, name, ids);
        PendingHasNoZero(start, name);
      }
      HandOutsAddUp(old(server.q), start, server.q, [], batch.deliveries);
      assert [] + batch.deliveries == batch.deliveries;
      RecordCall(name, cursor, call, batch.deliveries);
    }

    /** The log of claim calls grows by this one; the cursor must be where it left it. */
    ghost method RecordCall(name: StreamName, cursor: nat, call: SweepCall, batch: seq<Delivery>)
      requires claimCursors.Keys == {Normal, Large} && claimCalls.Keys == {Normal, Large} && claimHanded.Keys == {Normal, Large}
      requires forall other <- claimCalls ::
                 Recorded(other, if other == name then cursor else claimCursors[other], claimCalls[other], claimHanded[other], handed)
      requires claimCursors[name] == CallCursor(call, cursor)
      requires call.ClaimCall? ==> 0 !in call.pending
      requires HandsExactly(batch, name, CallClaims(call, cursor))
      modifies this`claimCalls, this`claimHanded, this`handed
      ensures Valid() && handed == old(handed) + batch
      ensures forall other | other != name :: ClaimLog(other) == old(ClaimLog(other))
      ensures ClaimLog(name) == old(ClaimLog(name)) + [call]
    {
      hide Recorded, CallCursor, CallClaims, HandsExactly;
      RecordedAppend(name, cursor, claimCalls[name], claimHanded[name], handed, call, batch);
      var other := if name == Normal then Large else Normal;
      RecordedLater(other, claimCursors[other], claimCalls[other], claimHanded[other], handed, batch);
      claimCalls := claimCalls[name := claimCalls[name] + [call]];
      claimHanded := claimHanded[name := claimHanded[name] + [batch]];
      handed := handed + batch;
    }

    /** XREADGROUP of one stream. */
    method XReadGroupOf(name: StreamName, count: nat) returns (outcome: Outcome, batch: Batch, ghost trace: seq<Action>)
      requires Safe(server.q) && Valid()
      modifies this, server
      ensures Safe(server.q) && Valid() && server.q == Run(old(server.q), trace, server.maxDeliveries)
      ensures Later(old(server.q), server.q) && NewlyHandedOut(old(server.q), server.q, batch.deliveries)
      ensures |batch.deliveries| <= count && batch.stream == name
      ensures outcome.Raises? ==> batch.deliveries == []
      ensures handed == old(handed) + batch.deliveries
      ensures Read(name, count, outcome) in trace && forall other :: ClaimLog(other) == old(ClaimLog(other))
    {
      hide Safe, Run, Apply, HandedOut, DeliveriesOf, CursorAfter, Recorded;
      trace := Interfere();
      ghost var start := server.q;
      var s := server.q.At(name);
      outcome := *;
      var a := Read(name, count, outcome);
      RunAppend(old(server.q), trace, a, server.maxDeliveries);
      trace := trace + [a];
      StepIsLater(start, a, server.maxDeliveries);
      server.Do(a);

      batch := Batch(name, []);
      NothingHandedOut(start, server.q);
      if outcome == Succeeds {
        var ids := ReadIds(s, count);
        batch := Batch(name, DeliveriesOf(server.q, name, ids));
        ReadHandsOut(start, name, count, server.maxDeliveries);
        DeliveriesOfLength(server.q, name, ids);
      }
      HandOutsAddUp(old(server.q), start, server.q, [], batch.deliveries);
      assert [] + batch.deliveries == batch.deliveries;
      RecordedLater(Normal, claimCursors[Normal], claimCalls[Normal], claimHanded[Normal], handed, batch.deliveries);
      RecordedLater(Large, claimCursors[Large], claimCalls[Large], claimHanded[Large], handed, batch.deliveries);
      handed := handed + batch.deliveries;
    }

    /** `_claim_stale_tasks`: both streams in order, together no more than `count` messages. */
    method ClaimStaleTasks(count: nat) returns (batches: seq<Batch>, ghost trace: seq<Action>)
      requires Safe(server.q) && Valid()
      modifies this, server
      ensures Safe(server.q) && Valid() && server.q == Run(old(server.q), trace, server.maxDeliveries)
      ensures Later(old(server.q), server.q) && NewlyHandedOut(old(server.q), server.q, Flatten(batches))
      ensures |Flatten(batches)| <= count
      ensures handed == old(handed) + Flatten(batches)
      ensures forall name :: old(ClaimLog(name)) <= ClaimLog(name)
      ensures |ClaimLog(Normal)| == |old(ClaimLog(Normal))| + if count > 0 then 1 else 0
      ensures |ClaimLog(Large)| == |old(ClaimLog(Large))| || |ClaimLog(Large)| == |old(ClaimLog(Large))| + 1
      ensures |Flatten(batches)| < count ==> |ClaimLog(Large)| == |old(ClaimLog(Large))| + 1
      ensures forall batch <- batches :: batch.deliveries != []
    {
      hide Safe, Run, HandedOut, CursorAfter, Later, NewlyHandedOut, Valid, ClaimLog, Flatten;
      batches, trace := [], [];
      FlattenNothing();
      LaterThanItself(server.q);
      RunEmpty(server.q, server.maxDeliveries);
      NothingHandedOut(server.q, server.q);
      var remaining := count;
      var streams := [Normal, Large];
      for i := 0 to |streams|
        invariant Safe(server.q) && Valid() && server.q == Run(old(server.q), trace, server.maxDeliveries)
        invariant Later(old(server.q), server.q) && NewlyHandedOut(old(server.q), server.q, Flatten(batches))
        invariant |Flatten(batches)| + remaining == count && remaining >= 0
        invariant handed == old(handed) + Flatten(batches)
        invariant forall name :: old(ClaimLog(name)) <= ClaimLog(name)
        invariant |ClaimLog(Normal)| == |old(ClaimLog(Normal))| + if i > 0 && count > 0 then 1 else 0
        invariant i == 0 ==> |Flatten(batches)| == 0
        invariant i < 2 ==> |ClaimLog(Large)| == |old(ClaimLog(Large))|
        invariant |ClaimLog(Large)| == |old(ClaimLog(Large))| || |ClaimLog(Large)| == |old(ClaimLog(Large))| + 1
        invariant i == 2 ==> remaining == 0 || |ClaimLog(Large)| == |old(ClaimLog(Large))| + 1
        invariant forall batch <- batches :: batch.deliveries != []
      {
        if remaining <= 0 {
          break;
        }
        ghost var before := server.q;
        var outcome, batch, steps := XAutoClaim(streams[i], remaining);
        RunConcat(old(server.q), trace, steps, server.maxDeliveries);
        trace := trace + steps;
        HandOutsAddUp(old(server.q), before, server.q, Flatten(batches), batch.deliveries);
        FlattenAppend(batches, batch);
        if batch.deliveries != [] {
          batches := batches + [batch];
        } else {
          assert Flatten(batches) + batch.deliveries == Flatten(batches);
        }
        remaining := remaining - |batch.deliveries|;
      }
    }

    /** `_read_new_tasks`: the normal stream, or the large one when it has nothing. */
    method ReadNewTasks(count: nat) returns (r: Result<seq<Batch>, ()>, ghost trace: seq<Action>)
      requires Safe(server.q) && Valid()
      modifies this, server
      ensures Safe(server.q) && Valid() && server.q == Run(old(server.q), trace, server.maxDeliveries)
      ensures Later(old(server.q), server.q)
      ensures r.Err? ==> handed == old(handed)
      ensures ReadTried(trace, count) && forall name :: ClaimLog(name) == old(ClaimLog(name))
      ensures r.Ok? ==>
                && NewlyHandedOut(old(server.q), server.q, Flatten(r.value))
                && |Flatten(r.value)| <= count && handed == old(handed) + Flatten(r.value)
                && Read(Normal, count, Succeeds) in trace
                && |r.value| == 1 && (r.value[0].stream == Large ==> Read(Large, count, Succeeds) in trace)
                && (r.value[0].stream == Normal ==> r.value[0].deliveries != [])
    {
      hide Safe, Run, HandedOut, CursorAfter, Later, NewlyHandedOut, Valid, Flatten, Recorded;
      var outcome, batch, first := XReadGroupOf(Normal, count);
      trace := first;
      FlattenOne(batch);
      if outcome.Raises? {
        return Err(()), trace;
      }
      if batch.deliveries != [] {
        return Ok([batch]), trace;
      }
      ghost var before := server.q;
      var largeOutcome, largeBatch, second := XReadGroupOf(Large, count);
      RunConcat(old(server.q), first, second, server.maxDeliveries);
      trace := first + second;
      HandOutsAddUp(old(server.q), before, server.q, [], largeBatch.deliveries);
      FlattenOne(largeBatch);
      assert [] + largeBatch.deliveries == largeBatch.deliveries;
      assert handed == old(handed) + largeBatch.deliveries;
      if largeOutcome.Raises? {
        return Err(()), trace;
      }
      return Ok([largeBatch]), trace;
    }

    /** Wait for one job: it takes its remaining steps while others act in between. */
    method AwaitJob(d: Delivery) returns (ghost trace: seq<Action>)
      requires Safe(server.q) && HandedOut(server.q, d)
      modifies server
      ensures Safe(server.q) && server.q == Run(old(server.q), trace, server.maxDeliveries)
      ensures Later(old(server.q), server.q) && d !in server.q.jobs
    {
      hide Safe, Run, HandedOut, Apply;
      trace := [];
      RunEmpty(server.q, server.maxDeliveries);
      while d in server.q.jobs
        invariant Safe(server.q) && HandedOut(server.q, d)
        invariant server.q == Run(old(server.q), trace, server.maxDeliveries) && Later(old(server.q), server.q)
        decreases if d in server.q.jobs then 1 + Rank(server.q.jobs[d]) else 0
      {
        ghost var before := server.q;
        var outcome: Outcome := *;
        OwnStep(before, d, outcome, server.maxDeliveries);
        RankDrops(before, d, outcome, server.maxDeliveries);
        StepIsLater(before, Advance(d, outcome), server.maxDeliveries);
        RunAppend(old(server.q), trace, Advance(d, outcome), server.maxDeliveries);
        trace := trace + [Advance(d, outcome)];
        server.Do(Advance(d, outcome));
      }
    }

    /** asyncio.gather over jobs: returns when all of them are done. */
    method AwaitAll(jobs: set<Delivery>) returns (ghost trace: seq<Action>)
      requires Safe(server.q) && forall d <- jobs :: HandedOut(server.q, d)
      modifies server
      ensures Safe(server.q) && server.q == Run(old(server.q), trace, server.maxDeliveries)
      ensures Later(old(server.q), server.q) && forall d <- jobs :: d !in server.q.jobs
    {
      hide Safe, Run, HandedOut;
      trace := [];
      RunEmpty(server.q, server.maxDeliveries);
      var left := jobs;
      while left != {}
        invariant left <= jobs
        invariant Safe(server.q) && server.q == Run(old(server.q), trace, server.maxDeliveries)
        invariant Later(old(server.q), server.q)
        invariant forall d <- jobs :: HandedOut(server.q, d) && (d !in left ==> d !in server.q.jobs)
        decreases |left|
      {
        ghost var steps := Interfere();
        RunConcat(old(server.q), trace, steps, server.maxDeliveries);
        trace := trace + steps;
        var d :| d in left;
        steps := AwaitJob(d);
        RunConcat(old(server.q), trace, steps, server.maxDeliveries);
        trace := trace + steps;
        left := left - {d};
      }
    }

    /** One turn's messages: stale ones, or else new ones; none when the read fails. */
    method FetchBatches(count: nat) returns (batches: seq<Batch>, ghost trace: seq<Action>)
      requires Safe(server.q) && Valid()
      modifies this, server
      ensures Safe(server.q) && Valid() && server.q == Run(old(server.q), trace, server.maxDeliveries)
      ensures Later(old(server.q), server.q) && NewlyHandedOut(old(server.q), server.q, Flatten(batches))
      ensures |Flatten(batches)| <= count
      ensures handed == old(handed) + Flatten(batches)
      ensures count > 0 ==> |ClaimLog(Normal)| == |old(ClaimLog(Normal))| + 1
      ensures Flatten(batches) == [] && count > 0 ==>
                |ClaimLog(Large)| == |old(ClaimLog(Large))| + 1 && ReadTried(trace, count)
    {
      hide Safe, Run, HandedOut, CursorAfter, Later, NewlyHandedOut, ReadTried, ClaimLog, Valid, Flatten, Recorded;
      batches, trace := ClaimStaleTasks(count);
      if batches != [] {
        SomethingFlattens(batches);
      } else {
        ghost var before := server.q;
        var read, steps := ReadNewTasks(count);
        RunConcat(old(server.q), trace, steps, server.maxDeliveries);
        ReadTriedLater(trace, steps, count);
        trace := trace + steps;
        if read.Ok? {
          batches := read.value;
        }
        NothingHandedOut(before, server.q);
        FlattenNothing();
        HandOutsAddUp(old(server.q), before, server.q, [], Flatten(batches));
        assert [] + Flatten(batches) == Flatten(batches);
        assert handed == old(handed) + Flatten(batches);
      }
    }

    /**
     `consume`, with `polls` further turns before the stop predicate answers true.  `started` lists
     the jobs created, in order, and `peak` is the largest number ever in flight: every delivery a
     reply handed over gets exactly one job, never more than `concurrency` run at once, and all
     of them are finished when it returns.
     */
    method Consume(polls: nat, concurrency: nat)
      returns (error: Option<ConsumeError>, started: seq<Delivery>, peak: nat, ghost trace: seq<Action>)
      requires Safe(server.q) && Valid()
      modifies this, server
      ensures Safe(server.q) && Valid() && server.q == Run(old(server.q), trace, server.maxDeliveries)
      ensures error == if server.maxDeliveries < 1 then Some(BadMaxDeliveries)
                       else if concurrency < 1 then Some(BadConcurrency) else None
      ensures error.Some? ==> started == [] && trace == [] && handed == old(handed)
      ensures handed == old(handed) + started
      ensures Distinct(started)
      ensures peak <= concurrency
      ensures forall d <- started :: d !in server.q.jobs
    {
      hide Safe, Run, HandedOut, CursorAfter, Later, Flatten, Valid, BetweenTurns;
      error, started, peak, trace := None, [], 0, [];
      RunEmpty(server.q, server.maxDeliveries);
      if server.maxDeliveries < 1 {
        error := Some(BadMaxDeliveries);
        return;
      }
      if concurrency < 1 {
        error := Some(BadConcurrency);
        return;
      }
      var inFlight: set<Delivery> := {};
      StartOfTurns(server.q, concurrency);
      for turn := 0 to polls
        invariant Safe(server.q) && Valid() && server.q == Run(old(server.q), trace, server.maxDeliveries)
        invariant handed == old(handed) + started
        invariant BetweenTurns(old(server.q), server.q, inFlight, started, concurrency)
        invariant peak <= concurrency
      {
        ghost var steps;
        ghost var before := started;
        inFlight, started, steps := TakeTurn(old(server.q), inFlight, started, concurrency);
        RunConcat(old(server.q), trace, steps, server.maxDeliveries);
        trace := trace + steps;
        InFlightIsBounded(old(server.q), server.q, inFlight, started, concurrency);
        peak := if |inFlight| > peak then |inFlight| else peak;
      }
      InFlightIsBounded(old(server.q), server.q, inFlight, started, concurrency);
      ghost var before := server.q;
      ghost var steps := AwaitAll(inFlight);
      LeftFinished(old(server.q), before, server.q, inFlight, started, concurrency);
      RunConcat(old(server.q), trace, steps, server.maxDeliveries);
      trace := trace + steps;
    }

    /** One turn: collect finished jobs; wait for one if there is no free slot; or start new ones. */
    method TakeTurn(ghost start: Queue, inFlight: set<Delivery>, started: seq<Delivery>, concurrency: nat)
      returns (nowInFlight: set<Delivery>, nowStarted: seq<Delivery>, ghost trace: seq<Action>)
      requires Safe(server.q) && Valid()
      requires BetweenTurns(start, server.q, inFlight, started, concurrency) && concurrency >= 1
      modifies this, server
      ensures Safe(server.q) && Valid() && server.q == Run(old(server.q), trace, server.maxDeliveries)
      ensures BetweenTurns(start, server.q, nowInFlight, nowStarted, concurrency)
      ensures started <= nowStarted && handed == old(handed) + nowStarted[|started|..]
      ensures if |StillRunning(old(server.q), inFlight)| < concurrency
              then |ClaimLog(Normal)| == |old(ClaimLog(Normal))| + 1 else nowStarted == started
    {
      hide Safe, Run, HandedOut, CursorAfter, Later, NewlyHandedOut, Flatten, Valid, ClaimLog;
      nowInFlight, nowStarted := StillRunning(server.q, inFlight), started;
      SubsetSize(nowInFlight, inFlight);
      var freeSlots := concurrency - |nowInFlight|;
      ghost var before := server.q;
      if freeSlots <= 0 {
        var d :| d in nowInFlight;
        KnownIsHandedOut(start, server.q, started, d);
        trace := AwaitJob(d);
        StillHandedOut(start, before, server.q, started);
        FinishedStayFinished(start, before, server.q, started);
        SubsetSize(nowInFlight - {d}, nowInFlight);
        nowInFlight := nowInFlight - {d};
      } else {
        var batches: seq<Batch>;
        batches, trace := FetchBatches(freeSlots);
        HandOutsAddUp(start, before, server.q, started, Flatten(batches));
        FinishedStayFinished(start, before, server.q, started);
        nowInFlight, nowStarted := CreateJobs(batches, nowInFlight, started);
      }
    }

    /** One task per message of every batch. */
    static method CreateJobs(batches: seq<Batch>, inFlight: set<Delivery>, started: seq<Delivery>)
      returns (nowInFlight: set<Delivery>, nowStarted: seq<Delivery>)
      ensures nowStarted == started + Flatten(batches)
      ensures nowInFlight == inFlight + set d <- Flatten(batches)
      ensures |nowInFlight| <= |inFlight| + |Flatten(batches)|
    {
      nowInFlight, nowStarted := inFlight, started;
      for i := 0 to |batches|
        invariant nowStarted == started + Flatten(batches[..i])
        invariant nowInFlight == inFlight + set d <- Flatten(batches[..i])
        invariant |nowInFlight| <= |inFlight| + |Flatten(batches[..i])|
      {
        assert batches[..i + 1] == batches[..i] + [batches[i]];
        FlattenAppend(batches[..i], batches[i]);
        nowInFlight, nowStarted := CreateBatchJobs(batches[i].deliveries, nowInFlight, nowStarted);
      }
      assert batches[..|batches|] == batches;
    }

    static method CreateBatchJobs(entries: seq<Delivery>, inFlight: set<Delivery>, started: seq<Delivery>)
      returns (nowInFlight: set<Delivery>, nowStarted: seq<Delivery>)
      ensures nowStarted == started + entries
      ensures nowInFlight == inFlight + set d <- entries
      ensures |nowInFlight| <= |inFlight| + |entries|
    {
      nowInFlight, nowStarted := inFlight, started;
      for j := 0 to |entries|
        invariant nowStarted == started + entries[..j]
        invariant nowInFlight == inFlight + set d <- entries[..j]
        invariant |nowInFlight| <= |inFlight| + j
      {
        assert entries[..j + 1] == entries[..j] + [entries[j]];
        nowInFlight := nowInFlight + {entries[j]};
        nowStarted := nowStarted + [entries[j]];
      }
      assert entries[..|entries|] == entries;
    }
  }

  lemma NothingHandedOut(q: Queue, q': Queue)
    ensures NewlyHandedOut(q, q', []) && NewlyHandedOut(q', q, [])
  {
  }

  lemma DeliveriesOfLength(q: Queue, name: StreamName, ids: seq<nat>)
    ensures |DeliveriesOf(q, name, ids)| == |ids| && HandsExactly(DeliveriesOf(q, name, ids), name, ids)
  {
  }

  lemma PendingHasNoZero(q: Queue, name: StreamName)
    requires Safe(q)
    ensures 0 !in q.At(name).pending
  {
    assert Split(q.At(name), name, q.acked);
  }

  lemma CursorAfterOne(call: SweepCall, cursor: nat)
    ensures CursorAfter([call], cursor) == CallCursor(call, cursor)
  {
  }

  lemma FlattenAppend(batches: seq<Batch>, batch: Batch)
    ensures Flatten(batches + [batch]) == Flatten(batches) + batch.deliveries
  {
    assert (batches + [batch])[..|batches|] == batches;
  }

  lemma StillHandedOut(q0: Queue, q1: Queue, q2: Queue, ds: seq<Delivery>)
    requires Later(q0, q1) && Later(q1, q2) && NewlyHandedOut(q0, q1, ds)
    ensures Later(q0, q2) && NewlyHandedOut(q0, q2, ds)
  {
    hide HandedOut;
    NothingHandedOut(q2, q1);
    HandOutsAddUp(q0, q1, q2, ds, []);
    assert ds + [] == ds;
  }

  lemma FlattenNothing()
    ensures Flatten([]) == []
  {
  }

  lemma FlattenOne(batch: Batch)
    ensures Flatten([batch]) == batch.deliveries
  {
    FlattenAppend([], batch);
    assert [] + [batch] == [batch] && [] + batch.deliveries == batch.deliveries;
  }

  lemma KnownIsHandedOut(q0: Queue, q: Queue, ds: seq<Delivery>, d: Delivery)
    requires NewlyHandedOut(q0, q, ds) && d in ds
    ensures HandedOut(q, d)
  {
  }

  lemma FinishedStayFinished(q0: Queue, q: Queue, q': Queue, ds: seq<Delivery>)
    requires NewlyHandedOut(q0, q, ds) && Later(q, q')
    ensures forall d <- ds | d !in q.jobs :: d !in q'.jobs
  {
    hide HandedOut;
  }

  lemma LaterThanItself(q: Queue)
    ensures Later(q, q)
  {
  }

  /** If some call of the stretch claims the message, the deliveries that call handed over include it. */
  lemma {:induction false} ClaimedIsHanded(
    name: StreamName, calls: seq<SweepCall>, batches: seq<seq<Delivery>>, cursor: nat, id: nat) returns (k: nat, d: Delivery)
    requires SweepClaims(calls, cursor, id) && |batches| == |calls|
    requires forall i | 0 <= i < |calls| :: HandsExactly(batches[i], name, CallClaims(calls[i], CursorAfter(calls[..i], cursor)))
    ensures k < |calls| && d in batches[k] && d.key == Key(name, id)
    decreases |calls|
  {
    hide CallClaims, CallCursor;
    assert calls[..0] == [] && CursorAfter([], cursor) == cursor;
    var claims := CallClaims(calls[0], cursor);
    assert HandsExactly(batches[0], name, claims);
    if id in claims {
      var j :| 0 <= j < |claims| && claims[j] == id;
      k, d := 0, batches[0][j];
    } else {
      var rest, next := calls[1..], CallCursor(calls[0], cursor);
      forall i | 0 <= i < |rest| ensures HandsExactly(batches[1..][i], name, CallClaims(rest[i], CursorAfter(rest[..i], next))) {
        assert HandsExactly(batches[i + 1], name, CallClaims(calls[i + 1], CursorAfter(calls[..i + 1], cursor)));
        assert calls[..i + 1][1..] == rest[..i];
      }
      k, d := ClaimedIsHanded(name, rest, batches[1..], next, id);
      k := k + 1;
    }
  }

  /** What the calls of a stretch of a worker's log handed over, when its cursor stood at 0-0 before it. */
  lemma StretchIsRecorded(
    name: StreamName, cursor: nat, calls: seq<SweepCall>, batches: seq<seq<Delivery>>, handed: seq<Delivery>, from: nat, to: nat)
    requires Recorded(name, cursor, calls, batches, handed) && from < to <= |calls|
    requires CursorAfter(calls[..from], 0) == 0
    ensures var stretch := calls[from..to];
            && (forall i | 0 <= i < |stretch| && stretch[i].ClaimCall? :: 0 !in stretch[i].pending)
            && (forall i | 0 <= i < |stretch| :: HandsExactly(batches[from..to][i], name, CallClaims(stretch[i], CursorAfter(stretch[..i], 0))))
            && CursorAfter(stretch, 0) == CursorAfter(calls[..to], 0)
  {
    hide CallClaims, CallCursor, HandsExactly;
    var stretch := calls[from..to];
    forall i | 0 <= i <= |stretch| ensures CursorAfter(stretch[..i], 0) == CursorAfter(calls[..from + i], 0) {
      assert calls[..from + i] == calls[..from] + stretch[..i];
      CursorAfterConcat(calls[..from], stretch[..i], 0);
    }
    assert stretch[..|stretch|] == stretch;
    forall i | 0 <= i < |stretch| ensures HandsExactly(batches[from..to][i], name, CallClaims(stretch[i], CursorAfter(stretch[..i], 0))) {
      assert HandsExactly(batches[from + i], name, CallClaims(calls[from + i], CursorAfter(calls[..from + i], 0)));
    }
  }

  /**
   A worker's claim calls cover everything.  Take any stretch of its log of calls on one stream, from a call
   made with the cursor at 0-0 to a reply that returned it to 0-0: each message that these calls find
   pending and idle until one of them claims it was handed to this worker by one of them.
   */
  lemma WorkerClaimsCoverEveryIdleMessage(worker: RedisStreamTaskQueue, name: StreamName, from: nat, to: nat, id: nat)
    requires worker.Valid() && from < to <= |worker.ClaimLog(name)|
    requires CursorAfter(worker.ClaimLog(name)[..from], 0) == 0 && CursorAfter(worker.ClaimLog(name)[..to], 0) == 0
    requires worker.ClaimLog(name)[to - 1].ClaimCall?
    requires IdleUntilClaimed(worker.ClaimLog(name)[from..to], 0, id)
    ensures exists k: nat, d | from <= k < to && k < |worker.claimHanded[name]| && d in worker.claimHanded[name][k] ::
              d.key == Key(name, id) && d in worker.handed
  {
    hide CallClaims, CursorAfter, IdleUntilClaimed, Sweep, SweepClaims, HandsExactly;
    var calls, batches := worker.claimCalls[name], worker.claimHanded[name];
    var stretch := calls[from..to];
    StretchIsRecorded(name, worker.claimCursors[name], calls, batches, worker.handed, from, to);
    StretchIsSweep(stretch, 0);
    SweepCoversEveryIdleMessage(stretch, id);
    var k, d := ClaimedIsHanded(name, stretch, batches[from..to], 0, id);
    assert batches[from + k] == batches[from..to][k] && batches[from + k] in batches;
  }

  /** What holds between two turns of the loop. */
  ghost predicate BetweenTurns(start: Queue, q: Queue, inFlight: set<Delivery>, started: seq<Delivery>, concurrency: nat) {
    && Later(start, q) && NewlyHandedOut(start, q, started)
    && |inFlight| <= concurrency
    && (forall d <- inFlight :: d in started)
    && (forall d <- started | d !in inFlight :: d !in q.jobs)
  }

  lemma StartOfTurns(q: Queue, concurrency: nat)
    ensures BetweenTurns(q, q, {}, [], concurrency)
  {
  }

  lemma InFlightIsBounded(start: Queue, q: Queue, inFlight: set<Delivery>, started: seq<Delivery>, concurrency: nat)
    requires BetweenTurns(start, q, inFlight, started, concurrency)
    ensures |inFlight| <= concurrency && Distinct(started)
    ensures forall d <- inFlight :: HandedOut(q, d)
  {
  }

  lemma LeftFinished(start: Queue, q: Queue, q': Queue, inFlight: set<Delivery>, started: seq<Delivery>, concurrency: nat)
    requires BetweenTurns(start, q, inFlight, started, concurrency)
    requires Later(q, q') && forall d <- inFlight :: d !in q'.jobs
    ensures forall d <- started :: d !in q'.jobs
  {
    FinishedStayFinished(start, q, q', started);
  }
}
