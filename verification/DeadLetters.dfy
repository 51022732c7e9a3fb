/** What the dead letters say, over all runs. */
module DeadLetters {
  import opened Common
  import opened RedisStream
  import opened QueueProtocol
  import opened FinalHistories
  import opened HandOuts

  /** Each dead letter names a message and has its payload. */
  ghost predicate LettersKeepPayloads(q: Queue) {
    forall letter <- q.dead :: q.HasMessage(letter.source) && letter.payload == q.At(letter.source.stream).entries[letter.source.id - 1]
  }

  lemma StepKeepsLetters(q: Queue, a: Action, maxDeliveries: nat)
    requires Safe(q) && LettersKeepPayloads(q)
    ensures LettersKeepPayloads(Apply(q, a, maxDeliveries))
  {
    hide Safe, Apply, Decode;
    var q' := Apply(q, a, maxDeliveries);
    forall letter <- q'.dead
      ensures q'.HasMessage(letter.source) && letter.payload == q'.At(letter.source.stream).entries[letter.source.id - 1]
    {
      NewLetterIsRight(q, a, maxDeliveries, letter);
      StepKeepsMessages(q, a, maxDeliveries, letter.source.stream);
    }
  }

  lemma AdvanceAddsLetter(q: Queue, d: Delivery, outcome: Outcome, maxDeliveries: nat)
    requires d in q.jobs && q.HasMessage(d.key)
    ensures var q' := AdvanceJob(q, d, outcome, maxDeliveries);
            q'.dead == q.dead || q'.dead == q.dead + [DeadLetter(d.key, q.At(d.key.stream).entries[d.key.id - 1])]
  {
    hide Decode, PayloadBreaks;
  }

  lemma OthersAddNoLetter(q: Queue, a: Action, maxDeliveries: nat)
    requires !(a.Advance? && a.delivery in q.jobs)
    ensures Apply(q, a, maxDeliveries).dead == q.dead
  {
    hide AdvanceJob, ClaimScan, ReadIds, Decode;
  }

  lemma NewLetterIsRight(q: Queue, a: Action, maxDeliveries: nat, letter: DeadLetter)
    requires Safe(q) && LettersKeepPayloads(q) && letter in Apply(q, a, maxDeliveries).dead
    ensures q.HasMessage(letter.source) && letter.payload == q.At(letter.source.stream).entries[letter.source.id - 1]
  {
    hide LettersKeepPayloads, Safe, AdvanceJob, Apply;
    if a.Advance? && a.delivery in q.jobs {
      JobHasMessage(q, a.delivery);
      ApplyIsAdvance(q, a.delivery, a.outcome, maxDeliveries);
      AdvanceAddsLetter(q, a.delivery, a.outcome, maxDeliveries);
    } else {
      OthersAddNoLetter(q, a, maxDeliveries);
    }
    LetterIsRight(q, letter);
  }

  lemma LetterIsRight(q: Queue, letter: DeadLetter)
    requires LettersKeepPayloads(q)
    ensures letter in q.dead ==>
              q.HasMessage(letter.source) && letter.payload == q.At(letter.source.stream).entries[letter.source.id - 1]
  {
  }

  /** In every run, each dead letter carries the payload of the message that it names. */
  lemma {:induction false} DeadLettersKeepThePayload(trace: seq<Action>, maxDeliveries: nat)
    ensures var q := Run(EMPTY_QUEUE, trace, maxDeliveries);
            && Safe(q)
            && forall letter <- q.dead ::
                 q.HasMessage(letter.source) && letter.payload == q.At(letter.source.stream).entries[letter.source.id - 1]
    decreases |trace|
  {
    hide Apply, Safe;
    if trace == [] {
      EmptyIsSafe();
    } else {
      var front := trace[..|trace| - 1];
      var q := Run(EMPTY_QUEUE, front, maxDeliveries);
      DeadLettersKeepThePayload(front, maxDeliveries);
      ApplyIsSafe(q, trace[|trace| - 1], maxDeliveries);
      StepKeepsLetters(q, trace[|trace| - 1], maxDeliveries);
    }
  }
}
