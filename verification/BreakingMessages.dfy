/**
 Messages whose decoding raises an exception that `_handle_one` does not catch: over all runs they are
 neither handled nor dead-lettered, and so are claimed for ever.
 */
module BreakingMessages {
  import opened Common
  import opened IntentTasks
  import opened RedisStream
  import opened QueueProtocol
  import opened StatusHistory

  /** Nothing was done with the message but hand-outs. */
  ghost predicate Untouched(q: Queue, key: Key) {
    && key !in q.returned && key !in q.acked && key !in q.starts && !Lettered(q.dead, key)
    && forall d <- q.jobs | d.key == key :: q.jobs[d] == Started
  }

  /** A message that does not exist yet, and one that breaks its jobs, is untouched. */
  ghost predicate Unsettled(q: Queue, key: Key) {
    !q.HasMessage(key) || Breaks(q, key) ==> Untouched(q, key)
  }

  lemma LetteredAppend(dead: seq<DeadLetter>, letter: DeadLetter, key: Key)
    ensures Lettered(dead + [letter], key) <==> Lettered(dead, key) || letter.source == key
  {
    assert forall x :: x in dead + [letter] <==> x in dead || x == letter;
    if letter.source == key {
      assert letter in dead + [letter];
    }
  }

  /** The step of a job of another message, and the only step a breaking message's job can take. */
  lemma AdvanceKeepsUntouched(q: Queue, d: Delivery, outcome: Outcome, maxDeliveries: nat, key: Key)
    requires d in q.jobs && Untouched(q, key)
    requires d.key == key ==> Breaks(q, key)
    ensures Untouched(AdvanceJob(q, d, outcome, maxDeliveries), key)
  {
    hide Decode, BreaksDecoding, Lettered;
    var payload := if q.HasMessage(d.key) then q.At(d.key.stream).entries[d.key.id - 1] else Undecodable(Missing);
    LetteredAppend(q.dead, DeadLetter(d.key, payload), key);
    match q.jobs[d]
    case Started =>
    case MarkRunning =>
    case MarkDone =>
    case Acking =>
    case AddDeadLetter =>
    case AckDeadLetter =>
    case _ =>
  }

  lemma BreakingStays(q: Queue, a: Action, maxDeliveries: nat, key: Key)
    ensures q.HasMessage(key) ==>
              && Apply(q, a, maxDeliveries).HasMessage(key)
              && (Breaks(Apply(q, a, maxDeliveries), key) <==> Breaks(q, key))
  {
    hide Apply, PayloadBreaks;
    StepKeepsMessages(q, a, maxDeliveries, key.stream);
  }

  lemma OthersKeepUntouched(q: Queue, a: Action, maxDeliveries: nat, key: Key)
    requires !a.Advance? && Untouched(q, key)
    ensures Untouched(Apply(q, a, maxDeliveries), key)
  {
    hide Lettered, ClaimScan, ReadIds, Claimed, XReadGroup;
  }

  lemma StepKeepsUnsettled(q: Queue, a: Action, maxDeliveries: nat, key: Key)
    requires Safe(q) && Unsettled(q, key)
    ensures Unsettled(Apply(q, a, maxDeliveries), key)
  {
    hide Untouched, AdvanceJob, StartJobs, Breaks;
    BreakingStays(q, a, maxDeliveries, key);
    if Untouched(q, key) && (!q.HasMessage(key) || Breaks(q, key)) {
      match a
      case Advance(d, outcome) =>
        if d in q.jobs {
          JobHasMessage(q, d);
          AdvanceKeepsUntouched(q, d, outcome, maxDeliveries, key);
        }
      case _ => OthersKeepUntouched(q, a, maxDeliveries, key);
    }
  }

  lemma {:induction false} RunKeepsUnsettled(trace: seq<Action>, maxDeliveries: nat, key: Key)
    ensures Safe(Run(EMPTY_QUEUE, trace, maxDeliveries)) && Unsettled(Run(EMPTY_QUEUE, trace, maxDeliveries), key)
    decreases |trace|
  {
    hide Safe, Unsettled, Apply;
    if trace == [] {
      EmptyIsUnsettled(key);
    } else {
      var q := Run(EMPTY_QUEUE, trace[..|trace| - 1], maxDeliveries);
      RunKeepsUnsettled(trace[..|trace| - 1], maxDeliveries, key);
      ApplyIsSafe(q, trace[|trace| - 1], maxDeliveries);
      StepKeepsUnsettled(q, trace[|trace| - 1], maxDeliveries, key);
    }
  }

  lemma EmptyIsUnsettled(key: Key)
    ensures Safe(EMPTY_QUEUE) && Unsettled(EMPTY_QUEUE, key)
  {
  }

  /** In every run, a message whose payload breaks `_handle_one` is never given to a handler, never
      dead-lettered and never acknowledged: once delivered it stays pending, to be claimed again and again. */
  lemma BreakingMessageIsNeverSettled(trace: seq<Action>, maxDeliveries: nat, q: Queue, key: Key, raw: RawPayload)
    requires q == Run(EMPTY_QUEUE, trace, maxDeliveries)
    requires q.HasMessage(key) && q.At(key.stream).entries[key.id - 1] == Undecodable(raw)
    requires || raw == NotUtf8 || raw == TooDeep
             || (&& raw.Object? && "priority" in raw.record && raw.record["priority"] == Infinity
                 && {"task_id", "shopping_session_id", "buyer_id", "raw_query"} <= raw.record.Keys)
    ensures key !in q.starts && key !in q.returned && !q.HasDeadLetter(key) && key !in q.acked
    ensures q.Undelivered(key) || q.IsPending(key)
  {
    hide Run;
    assert Breaks(q, key);
    hide Breaks;
    RunKeepsUnsettled(trace, maxDeliveries, key);
    SafeLosesNothing(q, key);
  }
}
