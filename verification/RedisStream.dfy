/**
 One Redis Stream with one consumer group, as the task queue uses it.

 The message written by the i-th XADD has id i (ids start at 1), so 0 can stand for the
 cursor "0-0".  The group remembers the last id it delivered and, for each message that was
 delivered and not yet acknowledged, how often it was delivered and whether it has been
 idle for at least the claim window.
 */
module RedisStream {
  datatype PendingEntry = PendingEntry(deliveries: nat, idle: bool)

  datatype Stream<P> = Stream(entries: seq<P>, last: nat, pending: map<nat, PendingEntry>)

  ghost predicate WellFormed<P>(s: Stream<P>) {
    && s.last <= |s.entries|
    && forall id <- s.pending :: 1 <= id <= s.last && s.pending[id].deliveries >= 1
  }

  function XAdd<P>(s: Stream<P>, payload: P): Stream<P> {
    s.(entries := s.entries + [payload])
  }

  function XAck<P>(s: Stream<P>, id: nat): Stream<P> {
    s.(pending := s.pending - {id})
  }

  function MarkIdle<P>(s: Stream<P>, id: nat): Stream<P> {
    if id in s.pending then s.(pending := s.pending[id := s.pending[id].(idle := true)]) else s
  }

  /** How many messages XREADGROUP ">" with this COUNT hands out. */
  function ReadSize<P>(s: Stream<P>, count: nat): nat {
    if |s.entries| <= s.last then 0
    else if |s.entries| - s.last < count then |s.entries| - s.last else count
  }

  /** The ids handed out by XREADGROUP. */
  function ReadIds<P>(s: Stream<P>, count: nat): seq<nat> {
    seq(ReadSize(s, count), i requires 0 <= i => s.last + 1 + i)
  }

  /** XREADGROUP: the next messages after `last` become pending, delivered once. */
  function XReadGroup<P>(s: Stream<P>, count: nat): Stream<P> {
    s.(last := s.last + ReadSize(s, count),
       pending := s.pending + map id <- ReadIds(s, count) :: id := PendingEntry(1, false))
  }

  /**
   The scan of XAUTOCLAIM over the pending list, upwards from `from`: it claims idle messages
   until `count` are claimed or `budget` pending messages were looked at, and answers with the
   claimed ids and the cursor for the next call: the first pending id not looked at, or 0 ("0-0")
   when the scan reached the end of the list.
   */
  function ClaimScan(pending: map<nat, PendingEntry>, from: nat, last: nat, count: nat, budget: nat)
    : (r: (seq<nat>, nat))
    decreases last + 1 - from
  {
    if from > last then ([], 0)
    else if from !in pending then ClaimScan(pending, from + 1, last, count, budget)
    else if count == 0 || budget == 0 then ([], from)
    else if pending[from].idle then
      var (ids, next) := ClaimScan(pending, from + 1, last, count - 1, budget - 1);
      ([from] + ids, next)
    else ClaimScan(pending, from + 1, last, count, budget - 1)
  }

  /** XAUTOCLAIM: every claimed message is delivered once more and is no longer idle. */
  function Claimed<P>(s: Stream<P>, ids: seq<nat>): Stream<P> {
    s.(pending := map id | id in s.pending ::
         if id in ids then PendingEntry(s.pending[id].deliveries + 1, false) else s.pending[id])
  }

  predicate Increasing(ids: seq<nat>) {
    forall i, j | 0 <= i < j < |ids| :: ids[i] < ids[j]
  }

  /**
   What one XAUTOCLAIM scan guarantees: no more than `count` messages, in increasing id order, all
   of them pending and idle; and nothing idle that lies before the returned cursor is passed over.
   */
  lemma {:induction false} ScanClaimsExactlyTheIdlePrefix(
    pending: map<nat, PendingEntry>, from: nat, last: nat, count: nat, budget: nat)
    requires 0 !in pending
    ensures var (ids, next) := ClaimScan(pending, from, last, count, budget);
            && |ids| <= count
            && Increasing(ids)
            && (next == 0 || (from <= next <= last && next in pending))
            && forall id :: id in ids <==>
                 (from <= id <= last && id in pending && pending[id].idle && (next == 0 || id < next))
    decreases last + 1 - from
  {
    if from > last {
    } else if from !in pending {
      ScanClaimsExactlyTheIdlePrefix(pending, from + 1, last, count, budget);
    } else if count == 0 || budget == 0 {
    } else if pending[from].idle {
      ScanClaimsExactlyTheIdlePrefix(pending, from + 1, last, count - 1, budget - 1);
      var (rest, next) := ClaimScan(pending, from + 1, last, count - 1, budget - 1);
      forall i | 0 <= i < |rest| ensures from < rest[i] {
        assert rest[i] in rest;
      }
    } else {
      ScanClaimsExactlyTheIdlePrefix(pending, from + 1, last, count, budget - 1);
    }
  }

  /** The reply to one XAUTOCLAIM of a sweep, or a call that failed before it had any effect. */
  datatype SweepCall =
    | ClaimCall(pending: map<nat, PendingEntry>, last: nat, count: nat, budget: nat)
    | FailedCall

  /** The ids one call of a sweep claims when it starts at `cursor`. */
  function CallClaims(call: SweepCall, cursor: nat): seq<nat> {
    match call
    case FailedCall => []
    case ClaimCall(pending, last, count, budget) => ClaimScan(pending, cursor, last, count, budget).0
  }

  /** The cursor kept after one call: the returned one, or the old one when the call failed. */
  function CallCursor(call: SweepCall, cursor: nat): nat {
    match call
    case FailedCall => cursor
    case ClaimCall(pending, last, count, budget) => ClaimScan(pending, cursor, last, count, budget).1
  }

  /**
   The calls form a sweep: each call starts at the cursor the previous one left, and the last one
   returns to 0-0.
   */
  ghost predicate Sweep(calls: seq<SweepCall>, cursor: nat) {
    && calls != []
    && (calls[0].ClaimCall? ==> 0 !in calls[0].pending)
    && if |calls| == 1 then calls[0].ClaimCall? && CallCursor(calls[0], cursor) == 0
       else Sweep(calls[1..], CallCursor(calls[0], cursor))
  }

  /** The cursor left after a list of calls. */
  function CursorAfter(calls: seq<SweepCall>, cursor: nat): nat {
    if calls == [] then cursor else CursorAfter(calls[1..], CallCursor(calls[0], cursor))
  }

  lemma {:induction false} CursorAfterConcat(first: seq<SweepCall>, second: seq<SweepCall>, cursor: nat)
    ensures CursorAfter(first + second, cursor) == CursorAfter(second, CursorAfter(first, cursor))
    decreases |first|
  {
    if first == [] {
      assert first + second == second;
    } else {
      assert (first + second)[1..] == first[1..] + second;
      CursorAfterConcat(first[1..], second, CallCursor(first[0], cursor));
    }
  }

  /** In a log of claim calls, every stretch from cursor 0-0 to a call that returned 0-0 is a sweep. */
  lemma {:induction false} StretchIsSweep(calls: seq<SweepCall>, cursor: nat)
    requires calls != [] && calls[|calls| - 1].ClaimCall?
    requires forall i | 0 <= i < |calls| && calls[i].ClaimCall? :: 0 !in calls[i].pending
    requires CursorAfter(calls, cursor) == 0
    ensures Sweep(calls, cursor)
    decreases |calls|
  {
    if |calls| > 1 {
      var rest := calls[1..];
      assert forall i | 0 <= i < |rest| && rest[i].ClaimCall? :: rest[i] == calls[i + 1];
      StretchIsSweep(rest, CallCursor(calls[0], cursor));
    }
  }

  /** Some call of the sweep claims `id`. */
  ghost predicate SweepClaims(calls: seq<SweepCall>, cursor: nat, id: nat) {
    && calls != []
    && (id in CallClaims(calls[0], cursor) || SweepClaims(calls[1..], CallCursor(calls[0], cursor), id))
  }

  /** Until a call of the sweep claims it, `id` is pending and idle whenever a call looks. */
  ghost predicate IdleUntilClaimed(calls: seq<SweepCall>, cursor: nat, id: nat) {
    calls != [] ==>
      && (calls[0].ClaimCall? ==>
            id in calls[0].pending && id <= calls[0].last && calls[0].pending[id].idle)
      && (id in CallClaims(calls[0], cursor) || IdleUntilClaimed(calls[1..], CallCursor(calls[0], cursor), id))
  }

  /**
   The persistent cursor covers everything: whatever the other workers do to the pending list
   between calls, whatever counts are asked for and however many calls fail, a sweep from 0-0 back
   to 0-0 claims each message that stays pending and idle until it is claimed.
   */
  lemma {:induction false} SweepCoversEveryIdleMessage(calls: seq<SweepCall>, id: nat)
    requires Sweep(calls, 0)
    requires IdleUntilClaimed(calls, 0, id)
    ensures SweepClaims(calls, 0, id)
  {
    SweepCoversFrom(calls, 0, id);
  }

  lemma {:induction false} SweepCoversFrom(calls: seq<SweepCall>, cursor: nat, id: nat)
    requires Sweep(calls, cursor)
    requires cursor <= id
    requires IdleUntilClaimed(calls, cursor, id)
    ensures SweepClaims(calls, cursor, id)
    decreases |calls|
  {
    var call := calls[0];
    if call.ClaimCall? {
      ScanClaimsExactlyTheIdlePrefix(call.pending, cursor, call.last, call.count, call.budget);
    }
    if id !in CallClaims(call, cursor) {
      SweepCoversFrom(calls[1..], CallCursor(call, cursor), id);
    }
  }

  /**
   A sweep ends: a call that may look at one pending message and claim one either returns to 0-0
   or moves the cursor strictly forward, never past the last delivered id.
   */
  lemma {:induction false} SweepAdvances(pending: map<nat, PendingEntry>, from: nat, last: nat, count: nat, budget: nat)
    requires 0 !in pending
    requires count >= 1 && budget >= 1
    ensures var next := ClaimScan(pending, from, last, count, budget).1; next == 0 || from < next <= last
    decreases last + 1 - from
  {
    if from <= last {
      if from !in pending {
        SweepAdvances(pending, from + 1, last, count, budget);
      } else if pending[from].idle {
        ScanClaimsExactlyTheIdlePrefix(pending, from + 1, last, count - 1, budget - 1);
      } else {
        ScanClaimsExactlyTheIdlePrefix(pending, from + 1, last, count, budget - 1);
      }
    }
  }
}
