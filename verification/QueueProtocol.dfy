/**
 The at-least-once delivery protocol of the task queue, one Redis call per step.

 Any number of workers run `_handle_one` jobs.  Steps of different jobs, new submissions, reads,
 claims and the passing of time interleave freely, and a job can stop for good between any two
 Redis calls.  `starts`, `returned` and `acked` are history: what was handed to a handler, whose
 handler returned normally, and what XACK removed from a pending list.
 */
module QueueProtocol {
  import opened Common
  import opened IntentTasks
  import opened RedisStream

  datatype StreamName = Normal | Large

  /** A stream message's payload field as written: absent, bytes that are no UTF-8, nested too deeply for
      the JSON decoder, not a JSON object, or an object. */
  datatype RawPayload = Missing | NotUtf8 | TooDeep | NotAnObject(raw: string) | Object(record: Record)

  /** Decoding raises an exception that `_handle_one` does not catch: outside its try statement for bytes, a
      RecursionError for nesting, and an OverflowError for an infinite priority, which is converted after the
      four required keys were looked up. */
  predicate BreaksDecoding(raw: RawPayload) {
    match raw
    case NotUtf8 => true
    case TooDeep => true
    case Object(record) =>
      && {"task_id", "shopping_session_id", "buyer_id", "raw_query"} <= record.Keys
      && "priority" in record && record["priority"] == Infinity
    case _ => false
  }

  /** A message as `_handle_one` sees it: it carries a task, or it does not decode. */
  datatype Payload = Undecodable(raw: RawPayload) | Carrying(task: IntentTask)

  /** The payload decoder of `_handle_one`; the clock only fills in a missing enqueue time. */
  function DecodePayload(raw: RawPayload, now: string): Payload {
    match raw
    case Object(record) =>
      (match FromDict(record, now) case Ok(task) => Carrying(task) case Err(_) => Undecodable(raw))
    case _ => Undecodable(raw)
  }

  /** What `enqueue` writes for a task is read back as that very task (its enqueue time is set). */
  lemma EnqueuedTaskIsCarried(task: IntentTask, now: string)
    requires Constructed(task) && Truthy(task.enqueuedAt)
    ensures DecodePayload(Object(ToDict(task)), now) == Carrying(task)
  {
    DictRoundTrip(task, now);
  }

  /** A message: its stream and its id. */
  datatype Key = Key(stream: StreamName, id: nat)

  /** One hand-out of a message; `n` is its delivery count right after that hand-out. */
  datatype Delivery = Delivery(key: Key, n: nat)

  /** Where a `_handle_one` job stands: the Redis call (or handler body) it does next. */
  datatype JobStep =
    | Started | MarkRunning | Working | MarkDone | Acking
    | Counting | MarkRetrying | MarkFailed | AddDeadLetter | AckDeadLetter

  datatype StatusWrite = StatusWrite(task: TaskId, state: TaskState)

  datatype DeadLetter = DeadLetter(source: Key, payload: Payload)

  datatype Queue = Queue(
    normal: Stream<Payload>,
    large: Stream<Payload>,
    statuses: seq<StatusWrite>,
    dead: seq<DeadLetter>,
    jobs: map<Delivery, JobStep>,
    starts: seq<Key>,
    returned: set<Key>,
    acked: set<Key>)
  {
    function At(name: StreamName): Stream<Payload> {
      match name case Normal => normal case Large => large
    }

    function With(name: StreamName, s: Stream<Payload>): Queue {
      match name case Normal => this.(normal := s) case Large => this.(large := s)
    }

    predicate HasMessage(key: Key) {
      1 <= key.id <= |At(key.stream).entries|
    }

    predicate Undelivered(key: Key) {
      At(key.stream).last < key.id <= |At(key.stream).entries|
    }

    predicate IsPending(key: Key) {
      key.id in At(key.stream).pending
    }

    function PendingOf(key: Key): PendingEntry
      requires IsPending(key)
    {
      At(key.stream).pending[key.id]
    }

    /** The task a message decodes to, if it does. */
    function TaskIn(key: Key): Option<IntentTask> {
      if HasMessage(key) then Decode(At(key.stream).entries[key.id - 1]) else None
    }

    /** Some dead-letter record names this message's stream and id. */
    ghost predicate HasDeadLetter(key: Key) {
      Lettered(dead, key)
    }
  }

  const EMPTY_STREAM: Stream<Payload> := Stream([], 0, map[])

  const EMPTY_QUEUE := Queue(EMPTY_STREAM, EMPTY_STREAM, [], [], map[], [], {}, {})

  /** A Redis call (or the handler body) as the job sees it: a reply, or an exception, which
      may hide that the command did run. */
  datatype Outcome = Succeeds | Raises(ran: bool)

  predicate Ran(o: Outcome) {
    o.Succeeds? || o.ran
  }

  datatype Action =
    | Enqueue(task: IntentTask)
    | AddUndecodable(stream: StreamName, raw: RawPayload)
    | Read(stream: StreamName, count: nat, outcome: Outcome)
    | Claim(stream: StreamName, cursor: nat, count: nat, budget: nat, outcome: Outcome)
    | BecomeIdle(key: Key)
    | Advance(delivery: Delivery, outcome: Outcome)
    | Vanish(delivery: Delivery)

  function Decode(p: Payload): Option<IntentTask> {
    match p case Carrying(task) => Some(task) case Undecodable(_) => None
  }

  function StreamFor(task: IntentTask): StreamName {
    if task.priority > 0 then Large else Normal
  }

  function WriteStatus(q: Queue, key: Key, state: TaskState): Queue {
    match q.TaskIn(key)
    case None => q
    case Some(task) => q.(statuses := q.statuses + [StatusWrite(task.taskId, state)])
  }

  function Goto(q: Queue, d: Delivery, next: JobStep): Queue {
    q.(jobs := q.jobs[d := next])
  }

  function Finish(q: Queue, d: Delivery): Queue {
    q.(jobs := q.jobs - {d})
  }

  function Ack(q: Queue, key: Key): Queue {
    var acked := if q.IsPending(key) then q.acked + {key} else q.acked;
    q.With(key.stream, XAck(q.At(key.stream), key.id)).(acked := acked)
  }

  /** The jobs created for the ids a read or a claim returned, one per id. */
  function StartJobs(q: Queue, name: StreamName, ids: seq<nat>): Queue {
    q.(jobs := q.jobs + map id <- ids | id in q.At(name).pending ::
         Delivery(Key(name, id), q.At(name).pending[id].deliveries) := Started)
  }

  /** XPENDING for one message; a failed lookup and a message no longer pending both count as 1. */
  function DeliveryCount(q: Queue, key: Key, outcome: Outcome): nat {
    if outcome.Succeeds? && q.IsPending(key) then q.PendingOf(key).deliveries else 1
  }

  /** The message's payload makes `_handle_one` raise before it could do anything with the message. */
  predicate Breaks(q: Queue, key: Key) {
    q.HasMessage(key) && PayloadBreaks(q.At(key.stream).entries[key.id - 1])
  }

  predicate PayloadBreaks(p: Payload) {
    p.Undecodable? && BreaksDecoding(p.raw)
  }

  /** The next step of one job. */
  function AdvanceJob(q: Queue, d: Delivery, outcome: Outcome, maxDeliveries: nat): Queue
    requires d in q.jobs
  {
    var key := d.key;
    match q.jobs[d]
    case Started =>
      if Breaks(q, key) then Finish(q, d)
      else if q.TaskIn(key).None? then Goto(q, d, AddDeadLetter)
      else Goto(q.(starts := q.starts + [key]), d, MarkRunning)
    case MarkRunning =>
      var written := if Ran(outcome) then WriteStatus(q, key, Running) else q;
      Goto(written, d, if outcome.Succeeds? then Working else Counting)
    case Working =>
      Goto(q, d, if outcome.Succeeds? then MarkDone else Counting)
    case MarkDone =>
      var written := if Ran(outcome) then WriteStatus(q, key, Done) else q;
      if outcome.Succeeds? then Goto(written.(returned := q.returned + {key}), d, Acking)
      else Goto(written, d, Counting)
    case Acking =>
      Finish(if Ran(outcome) then Ack(q, key) else q, d)
    case Counting =>
      Goto(q, d, if DeliveryCount(q, key, outcome) >= maxDeliveries then MarkFailed else MarkRetrying)
    case MarkRetrying =>
      Finish(if Ran(outcome) then WriteStatus(q, key, Retrying) else q, d)
    case MarkFailed =>
      var written := if Ran(outcome) then WriteStatus(q, key, Failed) else q;
      if outcome.Succeeds? then Goto(written, d, AddDeadLetter) else Finish(written, d)
    case AddDeadLetter =>
      var payload := if q.HasMessage(key) then q.At(key.stream).entries[key.id - 1] else Undecodable(Missing);
      var written := if Ran(outcome) then q.(dead := q.dead + [DeadLetter(key, payload)]) else q;
      if outcome.Succeeds? then Goto(written, d, AckDeadLetter) else Finish(written, d)
    case AckDeadLetter =>
      Finish(if Ran(outcome) then Ack(q, key) else q, d)
  }

  /** One step of the whole system; an action that is not possible leaves it unchanged. */
  function Apply(q: Queue, a: Action, maxDeliveries: nat): Queue {
    match a
    case Enqueue(task) =>
      var name := StreamFor(task);
      q.With(name, XAdd(q.At(name), Carrying(task)))
       .(statuses := q.statuses + [StatusWrite(task.taskId, Queued)])
    case AddUndecodable(name, raw) =>
      q.With(name, XAdd(q.At(name), Undecodable(raw)))
    case Read(name, count, outcome) =>
      var read := if Ran(outcome) then q.With(name, XReadGroup(q.At(name), count)) else q;
      if outcome.Succeeds? then StartJobs(read, name, ReadIds(q.At(name), count)) else read
    case Claim(name, cursor, count, budget, outcome) =>
      var s := q.At(name);
      var ids := ClaimScan(s.pending, cursor, s.last, count, budget).0;
      var claimed := if Ran(outcome) then q.With(name, Claimed(s, ids)) else q;
      if outcome.Succeeds? then StartJobs(claimed, name, ids) else claimed
    case BecomeIdle(key) => q.With(key.stream, MarkIdle(q.At(key.stream), key.id))
    case Advance(d, outcome) => if d in q.jobs then AdvanceJob(q, d, outcome, maxDeliveries) else q
    case Vanish(d) => Finish(q, d)
  }

  /** A whole run: any sequence of steps. */
  function Run(q: Queue, trace: seq<Action>, maxDeliveries: nat): Queue
    decreases |trace|
  {
    if trace == [] then q
    else Apply(Run(q, trace[..|trace| - 1], maxDeliveries), trace[|trace| - 1], maxDeliveries)
  }

  lemma RunEmpty(q: Queue, maxDeliveries: nat)
    ensures Run(q, [], maxDeliveries) == q
  {
  }

  lemma RunAppend(q: Queue, trace: seq<Action>, a: Action, maxDeliveries: nat)
    ensures Run(q, trace + [a], maxDeliveries) == Apply(Run(q, trace, maxDeliveries), a, maxDeliveries)
  {
    assert (trace + [a])[..|trace|] == trace;
  }

  lemma {:induction false} RunConcat(q: Queue, first: seq<Action>, second: seq<Action>, maxDeliveries: nat)
    ensures Run(q, first + second, maxDeliveries) == Run(Run(q, first, maxDeliveries), second, maxDeliveries)
    decreases |second|
  {
    hide Apply;
    if second == [] {
      assert first + second == first;
    } else {
      var before, a := second[..|second| - 1], second[|second| - 1];
      assert first + second == (first + before) + [a];
      RunAppend(q, first + before, a, maxDeliveries);
      RunConcat(q, first, before, maxDeliveries);
    }
  }

  // ---------------------------------------------------------------- what every step keeps

  ghost predicate Lettered(dead: seq<DeadLetter>, key: Key) {
    exists letter <- dead :: letter.source == key
  }

  /** The delivered ids of one stream are split into pending and acknowledged ones. */
  ghost predicate Split(s: Stream<Payload>, name: StreamName, acked: set<Key>) {
    && WellFormed(s)
    && (forall id: nat :: Key(name, id) in acked ==> 1 <= id <= s.last && id !in s.pending)
    && (forall id: nat | 1 <= id <= s.last :: id in s.pending || Key(name, id) in acked)
  }

  /** An acknowledged message was handled or has its dead letter, and so has one about to be. */
  ghost predicate Justified(acked: set<Key>, returned: set<Key>, dead: seq<DeadLetter>, jobs: map<Delivery, JobStep>) {
    && (forall key <- acked :: key in returned || Lettered(dead, key))
    && (forall d <- jobs | jobs[d] == Acking :: d.key in returned)
    && (forall d <- jobs | jobs[d] == AckDeadLetter :: Lettered(dead, d.key))
  }

  /** A job works on a delivered message and is not ahead of its message's delivery count. */
  ghost predicate Behind(s: Stream<Payload>, d: Delivery) {
    && 1 <= d.key.id <= s.last
    && d.n >= 1
    && (d.key.id in s.pending ==> d.n <= s.pending[d.key.id].deliveries)
  }

  ghost predicate JobsBehind(normal: Stream<Payload>, large: Stream<Payload>, jobs: map<Delivery, JobStep>) {
    forall d <- jobs :: Behind(if d.key.stream.Normal? then normal else large, d)
  }

  ghost predicate Safe(q: Queue) {
    && Split(q.normal, Normal, q.acked)
    && Split(q.large, Large, q.acked)
    && Justified(q.acked, q.returned, q.dead, q.jobs)
    && JobsBehind(q.normal, q.large, q.jobs)
  }

  lemma JobHasMessage(q: Queue, d: Delivery)
    requires Safe(q) && d in q.jobs
    ensures q.HasMessage(d.key)
  {
    assert Behind(q.At(d.key.stream), d);
    assert Split(q.At(d.key.stream), d.key.stream, q.acked);
  }

  lemma LetterKept(dead: seq<DeadLetter>, letter: DeadLetter)
    ensures Lettered(dead + [letter], letter.source)
    ensures forall key :: Lettered(dead, key) ==> Lettered(dead + [letter], key)
  {
    assert letter in dead + [letter];
    assert forall l <- dead :: l in dead + [letter];
  }

  /** Acknowledging moves one id of one stream from pending to acknowledged. */
  lemma AckKeepsSplit(s: Stream<Payload>, name: StreamName, acked: set<Key>, key: Key)
    requires Split(s, name, acked)
    ensures key.stream == name && key.id in s.pending ==> Split(XAck(s, key.id), name, acked + {key})
    ensures key.stream != name ==> Split(s, name, acked + {key})
  {
    assert forall id: nat :: Key(name, id) == key ==> id == key.id && name == key.stream;
  }

  lemma AckIsSafe(q: Queue, d: Delivery)
    requires Safe(q) && d in q.jobs
    requires d.key in q.returned || Lettered(q.dead, d.key)
    ensures Safe(Finish(Ack(q, d.key), d))
  {
    hide Split, Lettered;
    var q' := Finish(Ack(q, d.key), d);
    if q.IsPending(d.key) {
      AckKeepsSplit(q.normal, Normal, q.acked, d.key);
      AckKeepsSplit(q.large, Large, q.acked, d.key);
    } else {
      assert XAck(q.At(d.key.stream), d.key.id) == q.At(d.key.stream);
    }
  }

  /** A job may move on, or stop, as long as it acknowledges only what is justified. */
  lemma MoveIsSafe(q: Queue, q': Queue, d: Delivery)
    requires Safe(q) && d in q.jobs
    requires q'.normal == q.normal && q'.large == q.large && q'.acked == q.acked && q.returned <= q'.returned
    requires forall key :: Lettered(q.dead, key) ==> Lettered(q'.dead, key)
    requires q'.jobs == q.jobs - {d} || (d in q'.jobs && q'.jobs == q.jobs[d := q'.jobs[d]])
    requires d in q'.jobs && q'.jobs[d] == Acking ==> d.key in q'.returned
    requires d in q'.jobs && q'.jobs[d] == AckDeadLetter ==> Lettered(q'.dead, d.key)
    ensures Safe(q')
  {
  }

  lemma AdvanceIsSafe(q: Queue, d: Delivery, outcome: Outcome, maxDeliveries: nat)
    requires Safe(q) && d in q.jobs
    ensures Safe(AdvanceJob(q, d, outcome, maxDeliveries))
  {
    hide Decode, Split, JobsBehind, Lettered;
    var q' := AdvanceJob(q, d, outcome, maxDeliveries);
    match q.jobs[d]
    case Acking =>
      if Ran(outcome) { AckIsSafe(q, d); } else { MoveIsSafe(q, q', d); }
    case AckDeadLetter =>
      if Ran(outcome) { AckIsSafe(q, d); } else { MoveIsSafe(q, q', d); }
    case AddDeadLetter =>
      if Ran(outcome) { LetterKept(q.dead, q'.dead[|q.dead|]); }
      MoveIsSafe(q, q', d);
    case _ =>
      MoveIsSafe(q, q', d);
  }

  lemma AddIsSafe(q: Queue, name: StreamName, payload: Payload)
    requires Safe(q)
    ensures Safe(q.With(name, XAdd(q.At(name), payload)))
  {
  }

  /** Jobs started for pending messages never overtake them. */
  lemma StartIsSafe(q: Queue, name: StreamName, ids: seq<nat>)
    requires Safe(q)
    ensures Safe(StartJobs(q, name, ids))
  {
    hide Lettered;
    var q' := StartJobs(q, name, ids);
    forall d <- q'.jobs ensures Behind(q'.At(d.key.stream), d) {
      if d in q.jobs {
        assert Behind(q.At(d.key.stream), d);
      }
    }
  }

  lemma ReadKeepsSplit(s: Stream<Payload>, name: StreamName, acked: set<Key>, count: nat)
    requires Split(s, name, acked)
    ensures Split(XReadGroup(s, count), name, acked)
    ensures forall d: Delivery :: Behind(s, d) ==> Behind(XReadGroup(s, count), d)
  {
    var ids, s' := ReadIds(s, count), XReadGroup(s, count);
    assert forall i | 0 <= i < |ids| :: ids[i] in ids && ids[i] == s.last + 1 + i;
    forall id: nat | s.last < id <= s'.last ensures id in ids {
      assert ids[id - s.last - 1] == id;
    }
  }

  lemma ReadIsSafe(q: Queue, name: StreamName, count: nat)
    requires Safe(q)
    ensures Safe(q.With(name, XReadGroup(q.At(name), count)))
  {
    ReadKeepsSplit(q.At(name), name, q.acked, count);
  }

  lemma ClaimIsSafe(q: Queue, name: StreamName, ids: seq<nat>)
    requires Safe(q)
    ensures Safe(q.With(name, Claimed(q.At(name), ids)))
  {
    var s, s' := q.At(name), Claimed(q.At(name), ids);
    assert forall id <- s.pending :: s.pending[id].deliveries <= s'.pending[id].deliveries;
    assert Split(s', name, q.acked);
  }

  lemma IdleKeepsSplit(s: Stream<Payload>, name: StreamName, acked: set<Key>, id: nat)
    requires Split(s, name, acked)
    ensures Split(MarkIdle(s, id), name, acked)
    ensures forall d: Delivery :: Behind(s, d) ==> Behind(MarkIdle(s, id), d)
  {
    var s' := MarkIdle(s, id);
    assert s'.pending.Keys == s.pending.Keys;
    assert forall k <- s.pending :: s.pending[k].deliveries == s'.pending[k].deliveries;
  }

  lemma IdleIsSafe(q: Queue, key: Key)
    requires Safe(q)
    ensures Safe(Apply(q, BecomeIdle(key), 1))
  {
    hide Split, Behind, Justified, MarkIdle;
    IdleKeepsSplit(q.At(key.stream), key.stream, q.acked, key.id);
  }

  lemma ApplyIsSafe(q: Queue, a: Action, maxDeliveries: nat)
    requires Safe(q)
    ensures Safe(Apply(q, a, maxDeliveries))
  {
    hide Decode, ClaimScan, AdvanceJob, Split, Justified, Lettered, StartJobs, XReadGroup, Claimed;
    match a
    case Enqueue(task) =>
      AddIsSafe(q, StreamFor(task), Carrying(task));
    case AddUndecodable(name, payload) =>
      AddIsSafe(q, name, Undecodable(payload));
    case Read(name, count, outcome) =>
      ReadIsSafe(q, name, count);
      var read := if Ran(outcome) then q.With(name, XReadGroup(q.At(name), count)) else q;
      StartIsSafe(read, name, ReadIds(q.At(name), count));
    case Claim(name, cursor, count, budget, outcome) =>
      var ids := ClaimScan(q.At(name).pending, cursor, q.At(name).last, count, budget).0;
      ClaimIsSafe(q, name, ids);
      var claimed := if Ran(outcome) then q.With(name, Claimed(q.At(name), ids)) else q;
      StartIsSafe(claimed, name, ids);
    case BecomeIdle(key) =>
      IdleIsSafe(q, key);
    case Advance(d, outcome) =>
      if d in q.jobs { AdvanceIsSafe(q, d, outcome, maxDeliveries); }
    case Vanish(d) =>
      assert Justified(q.acked, q.returned, q.dead, q.jobs - {d}) by { VanishKeepsJustified(q, d); }
  }

  lemma VanishKeepsJustified(q: Queue, d: Delivery)
    requires Safe(q)
    ensures Justified(q.acked, q.returned, q.dead, q.jobs - {d})
  {
  }

  lemma {:induction false} RunIsSafe(q: Queue, trace: seq<Action>, maxDeliveries: nat)
    requires Safe(q)
    ensures Safe(Run(q, trace, maxDeliveries))
    decreases |trace|
  {
    if trace != [] {
      RunIsSafe(q, trace[..|trace| - 1], maxDeliveries);
      ApplyIsSafe(Run(q, trace[..|trace| - 1], maxDeliveries), trace[|trace| - 1], maxDeliveries);
    }
  }

  /**
   No task is ever lost.  After any run, with any number of workers, lost replies and crashes
   between any two Redis calls, each message is in exactly one of undelivered, pending and
   acknowledged; and if it is acknowledged then its handler returned normally or a dead-letter
   record names its stream and id.
   */
  lemma NoTaskIsLost(trace: seq<Action>, maxDeliveries: nat, q: Queue, key: Key)
    requires q == Run(EMPTY_QUEUE, trace, maxDeliveries)
    requires q.HasMessage(key)
    ensures q.Undelivered(key) || q.IsPending(key) || key in q.acked
    ensures !(q.Undelivered(key) && q.IsPending(key))
    ensures key in q.acked ==> !q.Undelivered(key) && !q.IsPending(key)
    ensures key in q.acked ==> key in q.returned || q.HasDeadLetter(key)
  {
    RunIsSafe(EMPTY_QUEUE, trace, maxDeliveries);
    SafeLosesNothing(q, key);
  }

  lemma SafeLosesNothing(q: Queue, key: Key)
    requires Safe(q)
    ensures q.HasMessage(key) ==> q.Undelivered(key) || q.IsPending(key) || key in q.acked
    ensures !(q.Undelivered(key) && q.IsPending(key))
    ensures key in q.acked ==> q.HasMessage(key) && !q.Undelivered(key) && !q.IsPending(key)
    ensures key in q.acked ==> key in q.returned || q.HasDeadLetter(key)
  {
    assert Split(q.At(key.stream), key.stream, q.acked);
    assert key == Key(key.stream, key.id);
  }

  /** Messages are never rewritten or dropped, whatever happens to them. */
  lemma {:induction false} MessagesStay(q: Queue, trace: seq<Action>, maxDeliveries: nat, name: StreamName)
    ensures q.At(name).entries <= Run(q, trace, maxDeliveries).At(name).entries
    decreases |trace|
  {
    if trace != [] {
      MessagesStay(q, trace[..|trace| - 1], maxDeliveries, name);
      StepKeepsMessages(Run(q, trace[..|trace| - 1], maxDeliveries), trace[|trace| - 1], maxDeliveries, name);
    }
  }

  lemma StepKeepsMessages(q: Queue, a: Action, maxDeliveries: nat, name: StreamName)
    ensures q.At(name).entries <= Apply(q, a, maxDeliveries).At(name).entries
  {
    hide Decode, ClaimScan, ReadIds;
  }

  /**
   A crash cannot lose work: while a message is pending, with or without a job, a claim that
   reaches it once it is idle hands it out again, as a delivery that no job has had before.
   */
  lemma PendingCanBeClaimedAgain(trace: seq<Action>, maxDeliveries: nat, q: Queue, key: Key)
    requires q == Run(EMPTY_QUEUE, trace, maxDeliveries)
    requires q.IsPending(key)
    ensures var d := Delivery(key, q.PendingOf(key).deliveries + 1);
            var idle := Apply(q, BecomeIdle(key), maxDeliveries);
            var claimed := Apply(idle, Claim(key.stream, key.id, 1, 1, Succeeds), maxDeliveries);
            d !in q.jobs && d in claimed.jobs && claimed.jobs[d] == Started
  {
    RunIsSafe(EMPTY_QUEUE, trace, maxDeliveries);
    SafePendingCanBeClaimed(q, key, maxDeliveries);
  }

  lemma SafePendingCanBeClaimed(q: Queue, key: Key, maxDeliveries: nat)
    requires Safe(q) && q.IsPending(key)
    ensures var d := Delivery(key, q.PendingOf(key).deliveries + 1);
            var idle := Apply(q, BecomeIdle(key), maxDeliveries);
            var claimed := Apply(idle, Claim(key.stream, key.id, 1, 1, Succeeds), maxDeliveries);
            d !in q.jobs && d in claimed.jobs && claimed.jobs[d] == Started
  {
    var d := Delivery(key, q.PendingOf(key).deliveries + 1);
    assert d in q.jobs ==> Behind(q.At(key.stream), d);
    var s := Apply(q, BecomeIdle(key), maxDeliveries).At(key.stream);
    assert Split(q.At(key.stream), key.stream, q.acked);
    var ids := ClaimScan(s.pending, key.id, s.last, 1, 1).0;
    assert ids == [key.id] + ClaimScan(s.pending, key.id + 1, s.last, 0, 0).0;
    assert key.id in ids;
    assert Claimed(s, ids).pending[key.id].deliveries == d.n;
  }
}
