/** What may happen when deliveries or submissions overlap: two runs that show why the conditions are needed. */
module Overlaps {
  import opened Common
  import opened IntentTasks
  import opened RedisStream
  import opened QueueProtocol
  import opened StatusHistory
  import Submissions

  const KEY := Key(Normal, 1)
  const FIRST := Delivery(KEY, 1)
  const SECOND := Delivery(KEY, 2)

  /** One message, delivered `n` times, with these jobs and statuses. */
  function With(task: IntentTask, n: nat, idle: bool, jobs: map<Delivery, JobStep>, starts: seq<Key>, statuses: seq<TaskState>, returned: set<Key>): Queue {
    Queue(
      Stream([Carrying(task)], if n == 0 then 0 else 1, if n == 0 then map[] else map[1 := PendingEntry(n, idle)]),
      EMPTY_STREAM,
      seq(|statuses|, i requires 0 <= i < |statuses| => StatusWrite(task.taskId, statuses[i])),
      [], jobs, starts, returned, {})
  }

  lemma SubmitAndRead(task: IntentTask, maxDeliveries: nat)
    requires task.priority == 0
    ensures Apply(EMPTY_QUEUE, Enqueue(task), maxDeliveries) == With(task, 0, false, map[], [], [Queued], {})
    ensures Apply(With(task, 0, false, map[], [], [Queued], {}), Read(Normal, 1, Succeeds), maxDeliveries) ==
            With(task, 1, false, map[FIRST := Started], [], [Queued], {})
  {
    var q := With(task, 0, false, map[], [], [Queued], {});
    assert ReadIds(q.normal, 1) == [1];
    var read := q.With(Normal, XReadGroup(q.normal, 1));
    assert read == With(task, 1, false, map[], [], [Queued], {});
    assert StartJobs(read, Normal, [1]).jobs == map[FIRST := Started];
  }

  lemma HandlerGoesIdle(task: IntentTask, maxDeliveries: nat)
    ensures Apply(With(task, 1, false, map[FIRST := Working], [KEY], [Queued, Running], {}), BecomeIdle(KEY), maxDeliveries) ==
            With(task, 1, true, map[FIRST := Working], [KEY], [Queued, Running], {})
  {
  }

  lemma ScanFindsIt()
    ensures ClaimScan(map[1 := PendingEntry(1, true)], 0, 1, 1, 1) == ([1], 0)
  {
    var pending: map<nat, PendingEntry>, none: seq<nat> := map[1 := PendingEntry(1, true)], [];
    assert ClaimScan(pending, 2, 1, 0, 0) == (none, 0);
    assert [1] + none == [1];
    assert ClaimScan(pending, 1, 1, 1, 1) == ([1], 0);
  }

  lemma ClaimAgain(task: IntentTask, maxDeliveries: nat)
    ensures Apply(With(task, 1, true, map[FIRST := Working], [KEY], [Queued, Running], {}), Claim(Normal, 0, 1, 1, Succeeds), maxDeliveries) ==
            With(task, 2, false, map[FIRST := Working, SECOND := Started], [KEY], [Queued, Running], {})
  {
    hide ClaimScan;
    var idle := With(task, 1, true, map[FIRST := Working], [KEY], [Queued, Running], {});
    ScanFindsIt();
    var claimed := idle.With(Normal, Claimed(idle.normal, [1]));
    assert claimed == With(task, 2, false, map[FIRST := Working], [KEY], [Queued, Running], {});
    assert StartJobs(claimed, Normal, [1]).jobs == map[FIRST := Working, SECOND := Started];
  }

  lemma JobStepsOn(task: IntentTask, maxDeliveries: nat)
    ensures Apply(With(task, 1, false, map[FIRST := Started], [], [Queued], {}), Advance(FIRST, Succeeds), maxDeliveries) ==
            With(task, 1, false, map[FIRST := MarkRunning], [KEY], [Queued], {})
    ensures Apply(With(task, 1, false, map[FIRST := MarkRunning], [KEY], [Queued], {}), Advance(FIRST, Succeeds), maxDeliveries) ==
            With(task, 1, false, map[FIRST := Working], [KEY], [Queued, Running], {})
  {
  }

  lemma BothJobsStepOn(task: IntentTask, maxDeliveries: nat)
    ensures var q := With(task, 2, false, map[FIRST := Working, SECOND := Started], [KEY], [Queued, Running], {});
            var a := With(task, 2, false, map[FIRST := Working, SECOND := MarkRunning], [KEY, KEY], [Queued, Running], {});
            var b := With(task, 2, false, map[FIRST := MarkDone, SECOND := MarkRunning], [KEY, KEY], [Queued, Running], {});
            var c := With(task, 2, false, map[FIRST := Acking, SECOND := MarkRunning], [KEY, KEY], [Queued, Running, Done], {KEY});
            var d := With(task, 2, false, map[FIRST := Acking, SECOND := Working], [KEY, KEY], [Queued, Running, Done, Running], {KEY});
            && Apply(q, Advance(SECOND, Succeeds), maxDeliveries) == a
            && Apply(a, Advance(FIRST, Succeeds), maxDeliveries) == b
            && Apply(b, Advance(FIRST, Succeeds), maxDeliveries) == c
            && Apply(c, Advance(SECOND, Succeeds), maxDeliveries) == d
  {
  }

  /** A message's handler outlives the idle window: the message is claimed and run again, and DONE is
      followed by RUNNING. */
  function OutlivedHandler(task: IntentTask): seq<Action> {
    [Enqueue(task), Read(Normal, 1, Succeeds), Advance(FIRST, Succeeds), Advance(FIRST, Succeeds),
     BecomeIdle(KEY), Claim(Normal, 0, 1, 1, Succeeds),
     Advance(SECOND, Succeeds), Advance(FIRST, Succeeds), Advance(FIRST, Succeeds), Advance(SECOND, Succeeds)]
  }

  /** DONE is final only in orderly runs: here every call succeeds and nobody crashes. */
  lemma DoneIsNotFinal(task: IntentTask, maxDeliveries: nat)
    requires task.priority == 0
    ensures History(Run(EMPTY_QUEUE, OutlivedHandler(task), maxDeliveries).statuses, task.taskId) == [Queued, Running, Done, Running]
  {
    hide Apply, Run, With;
    SubmitAndRead(task, maxDeliveries);
    JobStepsOn(task, maxDeliveries);
    HandlerGoesIdle(task, maxDeliveries);
    ClaimAgain(task, maxDeliveries);
    BothJobsStepOn(task, maxDeliveries);
    var t := OutlivedHandler(task);
    var end := With(task, 2, false, map[FIRST := Acking, SECOND := Working], [KEY, KEY], [Queued, Running, Done, Running], {KEY});
    var queues := [
      EMPTY_QUEUE,
      With(task, 0, false, map[], [], [Queued], {}),
      With(task, 1, false, map[FIRST := Started], [], [Queued], {}),
      With(task, 1, false, map[FIRST := MarkRunning], [KEY], [Queued], {}),
      With(task, 1, false, map[FIRST := Working], [KEY], [Queued, Running], {}),
      With(task, 1, true, map[FIRST := Working], [KEY], [Queued, Running], {}),
      With(task, 2, false, map[FIRST := Working, SECOND := Started], [KEY], [Queued, Running], {}),
      With(task, 2, false, map[FIRST := Working, SECOND := MarkRunning], [KEY, KEY], [Queued, Running], {}),
      With(task, 2, false, map[FIRST := MarkDone, SECOND := MarkRunning], [KEY, KEY], [Queued, Running], {}),
      With(task, 2, false, map[FIRST := Acking, SECOND := MarkRunning], [KEY, KEY], [Queued, Running, Done], {KEY}),
      end];
    QueueRuns(t, queues, 10, maxDeliveries);
    assert t[..10] == t;
    HistoryOfWith(task, end);
  }

  lemma {:induction false} QueueRuns(t: seq<Action>, queues: seq<Queue>, n: nat, maxDeliveries: nat)
    requires |queues| == |t| + 1 && n <= |t| && queues[0] == EMPTY_QUEUE
    requires forall i | 0 <= i < |t| :: queues[i + 1] == Apply(queues[i], t[i], maxDeliveries)
    ensures Run(EMPTY_QUEUE, t[..n], maxDeliveries) == queues[n]
  {
    hide Apply;
    if n > 0 {
      QueueRuns(t, queues, n - 1, maxDeliveries);
      assert t[..n][..n - 1] == t[..n - 1];
    }
  }

  lemma HistoryOfWith(task: IntentTask, end: Queue)
    requires end == With(task, 2, false, map[FIRST := Acking, SECOND := Working], [KEY, KEY], [Queued, Running, Done, Running], {KEY})
    ensures History(end.statuses, task.taskId) == [Queued, Running, Done, Running]
  {
    var id := task.taskId;
    var a, b, c, d := StatusWrite(id, Queued), StatusWrite(id, Running), StatusWrite(id, Done), StatusWrite(id, Running);
    assert end.statuses == [a, b, c, d];
    HistoryAppend([], a, id);
    HistoryAppend([a], b, id);
    HistoryAppend([a, b], c, id);
    HistoryAppend([a, b, c], d, id);
    assert [] + [a] == [a] && [a] + [b] == [a, b] && [a, b] + [c] == [a, b, c] && [a, b, c] + [d] == [a, b, c, d];
  }

  /** The first call binds the key and then fails to refresh its session; the second one is answered in between. */
  function AnsweredBeforeRelease(key: Submissions.RequestKey, first: TaskId, second: TaskId, raw: IntentInput): seq<Submissions.DeskAction> {
    [Submissions.Begin(first, key, raw), Submissions.Proceed(first, Succeeds),
     Submissions.Begin(second, key, raw), Submissions.Proceed(second, Succeeds), Submissions.Proceed(second, Succeeds),
     Submissions.Proceed(first, Raises(false)), Submissions.Proceed(first, Succeeds)]
  }

  /** The key bound by the first call, whose next step is to refresh its session. */
  function Bound(key: Submissions.RequestKey, first: TaskId, requests: map<TaskId, IntentInput>, answers: seq<Submissions.Answer>): Submissions.Desk {
    Submissions.Desk(
      [Submissions.Binding(key, first)], map[key := 0], map[first := Submissions.Call(key, Submissions.TouchSession)],
      requests, requests.Keys, [Submissions.Answer(first, 0, first, true)] + answers, [], [])
  }

  lemma FirstBinds(key: Submissions.RequestKey, first: TaskId, raw: IntentInput)
    requires first != "" && Stripped(first) && MakeInput(raw).Ok?
    ensures var desk := Submissions.ApplyDesk(Submissions.EMPTY_DESK, Submissions.Begin(first, key, raw));
            Submissions.ApplyDesk(desk, Submissions.Proceed(first, Succeeds)) == Bound(key, first, map[first := MakeInput(raw).value], [])
  {
    hide MakeInput, Stripped;
    var desk := Submissions.ApplyDesk(Submissions.ApplyDesk(Submissions.EMPTY_DESK, Submissions.Begin(first, key, raw)), Submissions.Proceed(first, Succeeds));
    assert desk.calls == map[first := Submissions.Call(key, Submissions.TouchSession)];
    assert desk.begun == desk.requests.Keys && desk.answers == [Submissions.Answer(first, 0, first, true)] + [];
  }

  lemma SecondIsAnswered(key: Submissions.RequestKey, first: TaskId, second: TaskId, raw: IntentInput)
    requires first != second && second != "" && Stripped(second) && MakeInput(raw).Ok?
    ensures var input := MakeInput(raw).value;
            var begun := Submissions.ApplyDesk(Bound(key, first, map[first := input], []), Submissions.Begin(second, key, raw));
            var refused := Submissions.ApplyDesk(begun, Submissions.Proceed(second, Succeeds));
            Submissions.ApplyDesk(refused, Submissions.Proceed(second, Succeeds)) ==
            Bound(key, first, map[first := input, second := input], [Submissions.Answer(second, 0, first, false)])
  {
    hide MakeInput, Stripped;
    var input := MakeInput(raw).value;
    var begun := Submissions.ApplyDesk(Bound(key, first, map[first := input], []), Submissions.Begin(second, key, raw));
    var refused := Submissions.ApplyDesk(begun, Submissions.Proceed(second, Succeeds));
    var answered := Submissions.ApplyDesk(refused, Submissions.Proceed(second, Succeeds));
    assert answered.calls == map[first := Submissions.Call(key, Submissions.TouchSession)];
    assert answered.requests == map[first := input, second := input] && answered.begun == answered.requests.Keys;
    assert answered.answers == [Submissions.Answer(first, 0, first, true)] + [Submissions.Answer(second, 0, first, false)];
  }

  lemma FirstReleases(key: Submissions.RequestKey, first: TaskId, requests: map<TaskId, IntentInput>, answer: Submissions.Answer)
    ensures var failed := Submissions.ApplyDesk(Bound(key, first, requests, [answer]), Submissions.Proceed(first, Raises(false)));
            var desk := Submissions.ApplyDesk(failed, Submissions.Proceed(first, Succeeds));
            && answer in desk.answers && desk.enqueued == [] && desk.calls == map[] && key !in desk.live
  {
    var failed := Submissions.ApplyDesk(Bound(key, first, requests, [answer]), Submissions.Proceed(first, Raises(false)));
    var desk := Submissions.ApplyDesk(failed, Submissions.Proceed(first, Succeeds));
    assert desk.answers[1] == answer;
    assert desk.calls == map[];
  }

  /** A duplicate submission may be answered with an id that is never enqueued: both calls have ended, the key is
      free again, and the queue has nothing. */
  lemma DuplicateMayNameNothing(key: Submissions.RequestKey, first: TaskId, second: TaskId, raw: IntentInput)
    requires first != second && first != "" && second != "" && Stripped(first) && Stripped(second) && MakeInput(raw).Ok?
    ensures var desk := Submissions.RunDesk(Submissions.EMPTY_DESK, AnsweredBeforeRelease(key, first, second, raw));
            && Submissions.Answer(second, 0, first, false) in desk.answers
            && desk.enqueued == [] && desk.calls == map[] && key !in desk.live
  {
    hide Submissions.ApplyDesk, Submissions.RunDesk, Bound, MakeInput, Stripped;
    var t := AnsweredBeforeRelease(key, first, second, raw);
    var answer := Submissions.Answer(second, 0, first, false);
    var input := MakeInput(raw).value;
    FirstBinds(key, first, raw);
    SecondIsAnswered(key, first, second, raw);
    FirstReleases(key, first, map[first := input, second := input], answer);
    var d1 := Submissions.ApplyDesk(Submissions.EMPTY_DESK, t[0]);
    var d2 := Bound(key, first, map[first := input], []);
    var d3 := Submissions.ApplyDesk(d2, t[2]);
    var d4 := Submissions.ApplyDesk(d3, t[3]);
    var d5 := Bound(key, first, map[first := input, second := input], [answer]);
    var d6 := Submissions.ApplyDesk(d5, t[5]);
    var d7 := Submissions.ApplyDesk(d6, t[6]);
    DeskRuns(t, [Submissions.EMPTY_DESK, d1, d2, d3, d4, d5, d6, d7], 7);
    assert t[..7] == t;
  }

  lemma {:induction false} DeskRuns(t: seq<Submissions.DeskAction>, desks: seq<Submissions.Desk>, n: nat)
    requires |desks| == |t| + 1 && n <= |t| && desks[0] == Submissions.EMPTY_DESK
    requires forall i | 0 <= i < |t| :: desks[i + 1] == Submissions.ApplyDesk(desks[i], t[i])
    ensures Submissions.RunDesk(Submissions.EMPTY_DESK, t[..n]) == desks[n]
  {
    hide Submissions.ApplyDesk;
    if n > 0 {
      DeskRuns(t, desks, n - 1);
      assert t[..n][..n - 1] == t[..n - 1];
    }
  }
}
