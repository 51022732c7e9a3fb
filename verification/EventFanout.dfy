/**
 Session events fanned out to subscribers, within a process and across processes that share a Redis
 Pub/Sub channel.  The channel loses messages but never repeats one.  A process's number stands for the
 origin that it generates at start; an event is known by its publisher and its position among that
 publisher's events.
 */
module EventFanout {
  import opened Common

  datatype Event = Event(origin: nat, number: nat, sessionId: string)

  /** What the channel brings: an event in its envelope, or something that is no event.  JSON that is no object
      raises an AttributeError, which `_forward` does not catch. */
  datatype Message = Envelope(origin: nat, event: Event) | Garbage(noObject: bool)

  /** A subscriber's queue, and between which deliveries of its process it was subscribed. */
  datatype Queue = Queue(sessionId: string, start: nat, stop: Option<nat>, events: seq<Event>)

  /** `publishing` holds the scheduled publish tasks, `inbox` what the channel brought and was not yet
      received; `delivered` is history. */
  datatype Process = Process(
    published: nat,
    subscribers: map<string, set<nat>>,
    queues: seq<Queue>,
    publishing: seq<Event>,
    inbox: seq<Message>,
    listening: bool,
    delivered: seq<Event>)

  /** `broadcasts` is history: the events handed to the channel. */
  datatype Network = Network(processes: seq<Process>, broadcasts: seq<Event>)

  datatype NetworkAction =
    | Subscribe(at: nat, sessionId: string)
    | Unsubscribe(at: nat, sessionId: string, queue: nat)
    | Publish(at: nat, sessionId: string, scheduled: bool)
    | Broadcast(at: nat, task: nat, reached: set<nat>)
    | Receive(at: nat)
    | Reconnect(at: nat, listening: bool)
    | Inject(at: nat, noObject: bool)

  predicate Subscribed(p: Process, sessionId: string, queue: nat) {
    sessionId in p.subscribers && queue in p.subscribers[sessionId]
  }

  function ApplySubscribe(p: Process, sessionId: string): Process {
    var others := if sessionId in p.subscribers then p.subscribers[sessionId] else {};
    p.(queues := p.queues + [Queue(sessionId, |p.delivered|, None, [])],
       subscribers := p.subscribers[sessionId := others + {|p.queues|}])
  }

  /** Discards the queue, and the session with its last queue. */
  function ApplyUnsubscribe(p: Process, sessionId: string, queue: nat): Process {
    if sessionId !in p.subscribers then p
    else
      var left := p.subscribers[sessionId] - {queue};
      p.(subscribers := if left == {} then p.subscribers - {sessionId} else p.subscribers[sessionId := left],
         queues := if queue in p.subscribers[sessionId] && queue < |p.queues|
                   then p.queues[queue := p.queues[queue].(stop := Some(|p.delivered|))] else p.queues)
  }

  /** deliver_remote: every queue of the event's session gets the event. */
  function Deliver(p: Process, e: Event): Process {
    p.(queues := seq(|p.queues|, q requires 0 <= q < |p.queues| =>
         if Subscribed(p, e.sessionId, q) then p.queues[q].(events := p.queues[q].events + [e]) else p.queues[q]),
       delivered := p.delivered + [e])
  }

  /** Local delivery at once, and a task for the other processes if there is an event loop and a backplane. */
  function ApplyPublish(p: Process, self: nat, sessionId: string, scheduled: bool): Process {
    var e := Event(self, p.published, sessionId);
    Deliver(p, e).(published := p.published + 1, publishing := if scheduled then p.publishing + [e] else p.publishing)
  }

  /** The subscription ends: what was not received is lost, and nothing is heard until the next one. */
  function LoseSubscription(p: Process): Process {
    p.(inbox := [], listening := false)
  }

  /** _forward: what comes from this very process is dropped, and so is what is no event; but JSON that is no
      object ends the subscription. */
  function ApplyReceive(p: Process, self: nat): Process {
    if p.inbox == [] then p
    else
      var rest := p.(inbox := p.inbox[1..]);
      match p.inbox[0]
      case Garbage(noObject) => if noObject then LoseSubscription(p) else rest
      case Envelope(origin, event) => if origin == self then rest else Deliver(rest, event)
  }

  function DropTask(p: Process, task: nat): Process
    requires task < |p.publishing|
  {
    p.(publishing := p.publishing[..task] + p.publishing[task + 1..])
  }

  function Hear(p: Process, m: Message): Process {
    if p.listening then p.(inbox := p.inbox + [m]) else p
  }

  /** The task hands its event to the channel, which brings it to some of the listening processes. */
  function ApplyBroadcast(n: Network, at: nat, task: nat, reached: set<nat>): Network
    requires at < |n.processes| && task < |n.processes[at].publishing|
  {
    var e := n.processes[at].publishing[task];
    Network(
      seq(|n.processes|, i requires 0 <= i < |n.processes| =>
        var p := if i == at then DropTask(n.processes[i], task) else n.processes[i];
        if i in reached then Hear(p, Envelope(at, e)) else p),
      n.broadcasts + [e])
  }

  function ApplyNetwork(n: Network, a: NetworkAction): Network {
    if a.at >= |n.processes| then n
    else
      var p := n.processes[a.at];
      if a.Broadcast? then (if a.task < |p.publishing| then ApplyBroadcast(n, a.at, a.task, a.reached) else n)
      else n.(processes := n.processes[a.at := ApplyLocal(p, a)])
  }

  function ApplyLocal(p: Process, a: NetworkAction): Process
    requires !a.Broadcast?
  {
    match a
    case Subscribe(_, sessionId) => ApplySubscribe(p, sessionId)
    case Unsubscribe(_, sessionId, queue) => ApplyUnsubscribe(p, sessionId, queue)
    case Publish(at, sessionId, scheduled) => ApplyPublish(p, at, sessionId, scheduled)
    case Receive(at) => ApplyReceive(p, at)
    case Reconnect(_, listening) => p.(inbox := [], listening := listening)
    case Inject(_, noObject) => Hear(p, Garbage(noObject))
  }

  function NewProcess(): Process {
    Process(0, map[], [], [], [], false, [])
  }

  function RunNetwork(size: nat, trace: seq<NetworkAction>): (n: Network)
    ensures |n.processes| == size
    decreases |trace|
  {
    if trace == [] then Network(seq(size, _ => NewProcess()), [])
    else ApplyNetwork(RunNetwork(size, trace[..|trace| - 1]), trace[|trace| - 1])
  }

  // ---------------------------------------------------------------- the invariant

  predicate NoRepeats(events: seq<Event>) {
    forall i, j | 0 <= i < j < |events| :: events[i] != events[j]
  }

  function OfSession(events: seq<Event>, sessionId: string): seq<Event> {
    if events == [] then []
    else
      var last := events[|events| - 1];
      OfSession(events[..|events| - 1], sessionId) + if last.sessionId == sessionId then [last] else []
  }

  /** The events in the inbox that come from other processes. */
  function Coming(inbox: seq<Message>, self: nat): seq<Event> {
    if inbox == [] then []
    else (if inbox[0].Envelope? && inbox[0].origin != self then [inbox[0].event] else []) + Coming(inbox[1..], self)
  }

  predicate QueueOk(p: Process, q: nat)
    requires q < |p.queues|
  {
    var queue := p.queues[q];
    var stop := if queue.stop.Some? then queue.stop.value else |p.delivered|;
    && queue.start <= stop <= |p.delivered|
    && queue.events == OfSession(p.delivered[queue.start..stop], queue.sessionId)
    && (queue.stop.None? <==> Subscribed(p, queue.sessionId, q))
  }

  ghost predicate QueuesOk(p: Process) {
    && (forall q | 0 <= q < |p.queues| :: QueueOk(p, q))
    && (forall sessionId: string, q: nat | Subscribed(p, sessionId, q) :: q < |p.queues| && p.queues[q].sessionId == sessionId)
  }

  /** Own events are delivered when they are published; others only after they were broadcast. */
  predicate KnownEvent(e: Event, self: nat, published: nat, broadcasts: seq<Event>) {
    if e.origin == self then e.number < published else e in broadcasts
  }

  predicate TasksOk(p: Process, self: nat, broadcasts: seq<Event>) {
    && NoRepeats(p.publishing)
    && (forall e <- p.publishing :: e.origin == self && e.number < p.published && e !in broadcasts)
    && (forall e <- broadcasts :: e.origin == self ==> e.number < p.published)
  }

  predicate DeliveriesOk(p: Process, self: nat, broadcasts: seq<Event>) {
    && NoRepeats(p.delivered + Coming(p.inbox, self))
    && (forall e <- p.delivered :: KnownEvent(e, self, p.published, broadcasts))
    && (forall m <- p.inbox :: m.Envelope? ==> m.event.origin == m.origin && m.event in broadcasts)
  }

  ghost predicate NetworkOk(n: Network) {
    && NoRepeats(n.broadcasts)
    && forall i | 0 <= i < |n.processes| ::
      && TasksOk(n.processes[i], i, n.broadcasts)
      && DeliveriesOk(n.processes[i], i, n.broadcasts)
      && QueuesOk(n.processes[i])
  }

  // ---------------------------------------------------------------- one step

  lemma OfSessionAppend(events: seq<Event>, e: Event, sessionId: string)
    ensures OfSession(events + [e], sessionId) == OfSession(events, sessionId) + if e.sessionId == sessionId then [e] else []
  {
    assert (events + [e])[..|events|] == events;
  }

  lemma {:induction false} ComingConcat(a: seq<Message>, b: seq<Message>, self: nat)
    ensures Coming(a + b, self) == Coming(a, self) + Coming(b, self)
  {
    if a == [] {
      assert a + b == b;
    } else {
      assert (a + b)[1..] == a[1..] + b;
      ComingConcat(a[1..], b, self);
    }
  }

  lemma {:induction false} ComingMembers(inbox: seq<Message>, self: nat)
    ensures forall e <- Coming(inbox, self) :: exists m <- inbox :: m.Envelope? && m.origin != self && m.event == e
  {
    if inbox != [] {
      ComingMembers(inbox[1..], self);
    }
  }

  lemma DeliverKeepsQueues(p: Process, e: Event)
    requires QueuesOk(p)
    ensures QueuesOk(Deliver(p, e))
  {
    hide OfSession;
    var after := Deliver(p, e);
    assert forall sessionId: string, q: nat :: Subscribed(after, sessionId, q) <==> Subscribed(p, sessionId, q);
    forall q | 0 <= q < |after.queues| ensures QueueOk(after, q) {
      assert QueueOk(p, q);
      var queue := p.queues[q];
      if queue.stop.None? {
        assert after.delivered[queue.start..] == p.delivered[queue.start..] + [e];
        OfSessionAppend(p.delivered[queue.start..], e, queue.sessionId);
        assert p.delivered[queue.start..|p.delivered|] == p.delivered[queue.start..];
        assert after.delivered[queue.start..|after.delivered|] == after.delivered[queue.start..];
      } else {
        assert after.delivered[queue.start..queue.stop.value] == p.delivered[queue.start..queue.stop.value];
      }
    }
  }

  lemma SubscribeKeepsQueues(p: Process, sessionId: string)
    requires QueuesOk(p)
    ensures QueuesOk(ApplySubscribe(p, sessionId))
  {
    var after := ApplySubscribe(p, sessionId);
    assert forall s: string, q: nat :: Subscribed(after, s, q) <==> Subscribed(p, s, q) || (s == sessionId && q == |p.queues|);
    forall q | 0 <= q < |after.queues| ensures QueueOk(after, q) {
      if q < |p.queues| {
        assert QueueOk(p, q);
      }
    }
  }

  lemma UnsubscribeKeepsQueues(p: Process, sessionId: string, queue: nat)
    requires QueuesOk(p)
    ensures QueuesOk(ApplyUnsubscribe(p, sessionId, queue))
  {
    hide OfSession;
    var after := ApplyUnsubscribe(p, sessionId, queue);
    forall s: string, q: nat
      ensures Subscribed(after, s, q) <==> Subscribed(p, s, q) && !(s == sessionId && q == queue)
    {
      if sessionId in p.subscribers && s == sessionId && q in p.subscribers[s] && q != queue {
        assert q in p.subscribers[sessionId] - {queue};
      }
    }
    forall q | 0 <= q < |after.queues| ensures QueueOk(after, q) {
      assert QueueOk(p, q);
      assert Subscribed(p, sessionId, queue) ==> p.queues[queue].sessionId == sessionId;
    }
  }

  lemma PublishKeeps(p: Process, self: nat, sessionId: string, scheduled: bool, broadcasts: seq<Event>)
    requires TasksOk(p, self, broadcasts) && DeliveriesOk(p, self, broadcasts) && QueuesOk(p)
    ensures var after := ApplyPublish(p, self, sessionId, scheduled);
            TasksOk(after, self, broadcasts) && DeliveriesOk(after, self, broadcasts) && QueuesOk(after)
  {
    hide QueueOk, Deliver;
    var e := Event(self, p.published, sessionId);
    var counted := p.(published := p.published + 1);
    var after := ApplyPublish(p, self, sessionId, scheduled);
    DeliverShape(p, e);
    DeliverKeepsQueues(p, e);
    QueuesOkSame(Deliver(p, e), after);
    FreshIsNew(p, e, self, broadcasts);
    DeliveriesOkSame(p, after, e, self, broadcasts);
  }

  lemma DeliverShape(p: Process, e: Event)
    ensures var after := Deliver(p, e);
            && after == p.(queues := after.queues, delivered := p.delivered + [e])
            && |after.queues| == |p.queues|
  {
  }

  lemma QueuesOkSame(p: Process, after: Process)
    requires QueuesOk(p) && after.queues == p.queues && after.subscribers == p.subscribers && after.delivered == p.delivered
    ensures QueuesOk(after)
  {
    hide OfSession;
    assert forall s: string, q: nat :: Subscribed(after, s, q) <==> Subscribed(p, s, q);
    forall q | 0 <= q < |after.queues| ensures QueueOk(after, q) {
      assert QueueOk(p, q);
    }
  }

  /** An event that was not delivered and is not on its way can be delivered next without a repetition. */
  lemma NewComesNext(delivered: seq<Event>, coming: seq<Event>, e: Event)
    requires NoRepeats(delivered + coming) && e !in delivered && e !in coming
    ensures NoRepeats(delivered + [e] + coming)
  {
    var all, more := delivered + coming, delivered + [e] + coming;
    forall i, j | 0 <= i < j < |more| ensures more[i] != more[j] {
      assert i < |delivered| ==> more[i] == all[i];
      assert j < |delivered| ==> more[j] == all[j];
      assert i > |delivered| ==> more[i] == all[i - 1];
      assert j > |delivered| ==> more[j] == all[j - 1];
      assert more[|delivered|] == e;
      assert i < |delivered| ==> delivered[i] in delivered;
      assert j > |delivered| ==> coming[j - |delivered| - 1] in coming;
    }
  }

  lemma FreshIsNew(p: Process, e: Event, self: nat, broadcasts: seq<Event>)
    requires TasksOk(p, self, broadcasts) && DeliveriesOk(p, self, broadcasts)
    requires e.origin == self && e.number == p.published
    ensures NoRepeats(p.delivered + [e] + Coming(p.inbox, self))
  {
    ComingMembers(p.inbox, self);
    NewComesNext(p.delivered, Coming(p.inbox, self), e);
  }

  lemma DeliveriesOkSame(p: Process, after: Process, e: Event, self: nat, broadcasts: seq<Event>)
    requires DeliveriesOk(p, self, broadcasts) && e.origin == self && e.number == p.published
    requires NoRepeats(p.delivered + [e] + Coming(p.inbox, self))
    requires after.delivered == p.delivered + [e] && after.inbox == p.inbox && after.published == p.published + 1
    ensures DeliveriesOk(after, self, broadcasts)
  {
    hide NoRepeats;
  }

  lemma ReceiveKeeps(p: Process, self: nat, broadcasts: seq<Event>)
    requires TasksOk(p, self, broadcasts) && DeliveriesOk(p, self, broadcasts) && QueuesOk(p)
    ensures var after := ApplyReceive(p, self);
            TasksOk(after, self, broadcasts) && DeliveriesOk(after, self, broadcasts) && QueuesOk(after)
  {
    hide QueueOk, Deliver, NoRepeats;
    if p.inbox != [] {
      var m, rest := p.inbox[0], p.(inbox := p.inbox[1..]);
      ForgettingKeeps(p, self, false, broadcasts);
      assert m in p.inbox;
      assert forall x <- rest.inbox :: x in p.inbox;
      QueuesOkSame(p, rest);
      if m.Envelope? && m.origin != self {
        DeliverShape(rest, m.event);
        DeliverKeepsQueues(rest, m.event);
        assert p.delivered + Coming(p.inbox, self) == p.delivered + [m.event] + Coming(rest.inbox, self);
      } else {
        assert Coming(p.inbox, self) == Coming(rest.inbox, self);
      }
    }
  }

  lemma ForgettingKeeps(p: Process, self: nat, listening: bool, broadcasts: seq<Event>)
    requires TasksOk(p, self, broadcasts) && DeliveriesOk(p, self, broadcasts) && QueuesOk(p)
    ensures var after := p.(inbox := [], listening := listening);
            TasksOk(after, self, broadcasts) && DeliveriesOk(after, self, broadcasts) && QueuesOk(after)
  {
    hide QueueOk, QueuesOk, NoRepeats;
    QueuesOkSame(p, p.(inbox := [], listening := listening));
    NoRepeatsPrefix(p.delivered, Coming(p.inbox, self));
    assert p.delivered + [] == p.delivered;
  }

  lemma LocalKeeps(p: Process, a: NetworkAction, broadcasts: seq<Event>)
    requires !a.Broadcast?
    requires TasksOk(p, a.at, broadcasts) && DeliveriesOk(p, a.at, broadcasts) && QueuesOk(p)
    ensures TasksOk(ApplyLocal(p, a), a.at, broadcasts)
    ensures DeliveriesOk(ApplyLocal(p, a), a.at, broadcasts)
    ensures QueuesOk(ApplyLocal(p, a))
  {
    hide QueueOk, Deliver, NoRepeats, Subscribed, QueuesOk;
    match a
    case Subscribe(_, sessionId) => SubscribeKeepsQueues(p, sessionId);
    case Unsubscribe(_, sessionId, queue) => UnsubscribeKeepsQueues(p, sessionId, queue);
    case Publish(at, sessionId, scheduled) => PublishKeeps(p, at, sessionId, scheduled, broadcasts);
    case Receive(at) => ReceiveKeeps(p, at, broadcasts);
    case Reconnect(at, listening) => ForgettingKeeps(p, at, listening, broadcasts);
    case Inject(at, noObject) =>
      QueuesOkSame(p, Hear(p, Garbage(noObject)));
      ComingConcat(p.inbox, [Garbage(noObject)], at);
      assert Coming([Garbage(noObject)], at) == [] && Coming(p.inbox, at) + [] == Coming(p.inbox, at);
  }

  lemma NoRepeatsPrefix(a: seq<Event>, b: seq<Event>)
    requires NoRepeats(a + b)
    ensures NoRepeats(a)
  {
    assert forall i | 0 <= i < |a| :: (a + b)[i] == a[i];
  }

  // ---------------------------------------------------------------- a broadcast

  lemma DropKeepsTasks(p: Process, self: nat, task: nat, broadcasts: seq<Event>)
    requires TasksOk(p, self, broadcasts) && task < |p.publishing|
    ensures TasksOk(DropTask(p, task), self, broadcasts + [p.publishing[task]])
  {
    var e, left := p.publishing[task], DropTask(p, task).publishing;
    assert e in p.publishing;
    forall i | 0 <= i < |left| ensures left[i] in p.publishing && left[i] != e {
      assert left[i] == p.publishing[if i < task then i else i + 1];
    }
    forall i, j | 0 <= i < j < |left| ensures left[i] != left[j] {
      assert left[i] == p.publishing[if i < task then i else i + 1];
      assert left[j] == p.publishing[if j < task then j else j + 1];
    }
  }

  lemma OthersKeepTasks(p: Process, self: nat, e: Event, broadcasts: seq<Event>)
    requires TasksOk(p, self, broadcasts) && e.origin != self
    ensures TasksOk(p, self, broadcasts + [e])
  {
  }

  /** A process hears of an event that was never broadcast before. */
  lemma HearKeepsDeliveries(p: Process, self: nat, e: Event, broadcasts: seq<Event>)
    requires DeliveriesOk(p, self, broadcasts) && e !in broadcasts
    ensures DeliveriesOk(p, self, broadcasts + [e])
    ensures DeliveriesOk(Hear(p, Envelope(e.origin, e)), self, broadcasts + [e])
  {
    var m := Envelope(e.origin, e);
    ComingConcat(p.inbox, [m], self);
    ComingMembers(p.inbox, self);
    var coming := Coming(p.inbox, self);
    assert Coming([m], self) == if e.origin != self then [e] else [];
    if e.origin != self {
      assert e !in p.delivered && e !in coming;
      NoRepeatsAppend(p.delivered + coming, e);
      assert p.delivered + (coming + [e]) == p.delivered + coming + [e];
    } else {
      assert coming + [] == coming;
    }
  }

  lemma NoRepeatsAppend(events: seq<Event>, e: Event)
    requires NoRepeats(events) && e !in events
    ensures NoRepeats(events + [e])
  {
  }

  lemma BroadcastKeeps(n: Network, at: nat, task: nat, reached: set<nat>)
    requires NetworkOk(n) && at < |n.processes| && task < |n.processes[at].publishing|
    ensures NetworkOk(ApplyBroadcast(n, at, task, reached))
  {
    hide TasksOk, DeliveriesOk, QueuesOk, Coming, NoRepeats;
    var sender := n.processes[at];
    var e := sender.publishing[task];
    var after := ApplyBroadcast(n, at, task, reached);
    TaskIsNew(sender, at, task, n.broadcasts);
    NoRepeatsAppend(n.broadcasts, e);
    forall i | 0 <= i < |n.processes|
      ensures TasksOk(after.processes[i], i, after.broadcasts)
      ensures DeliveriesOk(after.processes[i], i, after.broadcasts)
      ensures QueuesOk(after.processes[i])
    {
      ProcessHears(n.processes[i], i, at, task, e, i in reached, n.broadcasts);
    }
  }

  lemma TaskIsNew(p: Process, self: nat, task: nat, broadcasts: seq<Event>)
    requires TasksOk(p, self, broadcasts) && task < |p.publishing|
    ensures p.publishing[task] !in broadcasts && p.publishing[task].origin == self
  {
    assert p.publishing[task] in p.publishing;
  }

  lemma ProcessHears(p: Process, self: nat, at: nat, task: nat, e: Event, reached: bool, broadcasts: seq<Event>)
    requires TasksOk(p, self, broadcasts) && DeliveriesOk(p, self, broadcasts) && QueuesOk(p)
    requires e.origin == at && e !in broadcasts
    requires self == at ==> task < |p.publishing| && p.publishing[task] == e
    ensures var left := if self == at then DropTask(p, task) else p;
            var after := if reached then Hear(left, Envelope(at, e)) else left;
            TasksOk(after, self, broadcasts + [e]) && DeliveriesOk(after, self, broadcasts + [e]) && QueuesOk(after)
  {
    hide QueueOk, NoRepeats;
    var left := if self == at then DropTask(p, task) else p;
    var after := if reached then Hear(left, Envelope(at, e)) else left;
    if self == at {
      DropKeepsTasks(p, self, task, broadcasts);
    } else {
      OthersKeepTasks(p, self, e, broadcasts);
    }
    HearKeepsDeliveries(left, self, e, broadcasts);
    QueuesOkSame(p, after);
  }

  lemma NetworkStepKeeps(n: Network, a: NetworkAction)
    requires NetworkOk(n)
    ensures NetworkOk(ApplyNetwork(n, a))
    ensures |ApplyNetwork(n, a).processes| == |n.processes|
  {
    hide TasksOk, DeliveriesOk, QueuesOk, NoRepeats, ApplyLocal;
    if a.at < |n.processes| {
      if a.Broadcast? {
        if a.task < |n.processes[a.at].publishing| {
          BroadcastKeeps(n, a.at, a.task, a.reached);
        }
      } else {
        LocalKeeps(n.processes[a.at], a, n.broadcasts);
      }
    }
  }

  lemma {:induction false} NetworkRunKeeps(size: nat, trace: seq<NetworkAction>)
    ensures NetworkOk(RunNetwork(size, trace))
    decreases |trace|
  {
    hide NetworkOk, ApplyNetwork;
    if trace == [] {
      NewNetworkIsOk(size);
    } else {
      NetworkRunKeeps(size, trace[..|trace| - 1]);
      NetworkStepKeeps(RunNetwork(size, trace[..|trace| - 1]), trace[|trace| - 1]);
    }
  }

  lemma NewNetworkIsOk(size: nat)
    ensures NetworkOk(Network(seq(size, _ => NewProcess()), []))
  {
  }

  // ---------------------------------------------------------------- what every run keeps

  lemma {:induction false} OfSessionKeepsDistinct(events: seq<Event>, sessionId: string)
    requires NoRepeats(events)
    ensures NoRepeats(OfSession(events, sessionId))
    ensures forall e :: e in OfSession(events, sessionId) <==> e in events && e.sessionId == sessionId
  {
    if events != [] {
      var front, last := events[..|events| - 1], events[|events| - 1];
      OfSessionKeepsDistinct(front, sessionId);
      assert events == front + [last];
      forall i | 0 <= i < |front| ensures front[i] != last {
        assert front[i] == events[i];
      }
    }
  }

  /** Whatever the processes do and whatever the channel loses, every event is broadcast at most once. */
  lemma EventsAreBroadcastOnce(size: nat, trace: seq<NetworkAction>)
    ensures NoRepeats(RunNetwork(size, trace).broadcasts)
  {
    NetworkRunKeeps(size, trace);
  }

  /** A subscriber's queue is exactly the events of its session that were delivered in its process between
      its subscription and its end, in that order, and no event twice. */
  lemma QueuesHoldTheirSession(size: nat, trace: seq<NetworkAction>, i: nat, q: nat)
    requires i < size && q < |RunNetwork(size, trace).processes[i].queues|
    ensures var p := RunNetwork(size, trace).processes[i];
            var queue := p.queues[q];
            var stop := if queue.stop.Some? then queue.stop.value else |p.delivered|;
            && queue.start <= stop <= |p.delivered|
            && queue.events == OfSession(p.delivered[queue.start..stop], queue.sessionId)
            && NoRepeats(queue.events)
            && (queue.stop.None? <==> Subscribed(p, queue.sessionId, q))
  {
    hide RunNetwork, OfSession;
    NetworkRunKeeps(size, trace);
    var p := RunNetwork(size, trace).processes[i];
    assert QueueOk(p, q);
    var queue := p.queues[q];
    var stop := if queue.stop.Some? then queue.stop.value else |p.delivered|;
    NoRepeatsPrefix(p.delivered, Coming(p.inbox, i));
    NoRepeatsSlice(p.delivered, queue.start, stop);
    OfSessionKeepsDistinct(p.delivered[queue.start..stop], queue.sessionId);
  }

  lemma NoRepeatsSlice(events: seq<Event>, from: nat, to: nat)
    requires NoRepeats(events) && from <= to <= |events|
    ensures NoRepeats(events[from..to])
  {
  }

  /** No event is delivered twice in a process; another process's event only after it was broadcast, and
      never by way of the channel one of its own. */
  lemma NothingComesBack(size: nat, trace: seq<NetworkAction>, i: nat)
    requires i < size
    ensures var n := RunNetwork(size, trace);
            var p := n.processes[i];
            var received := ApplyReceive(p, i).delivered;
            && NoRepeats(p.delivered)
            && (forall e <- p.delivered :: e.origin != i ==> e in n.broadcasts)
            && (received == p.delivered || exists e :: received == p.delivered + [e] && e.origin != i && e !in p.delivered)
  {
    hide RunNetwork;
    NetworkRunKeeps(size, trace);
    var n := RunNetwork(size, trace);
    var p := n.processes[i];
    assert DeliveriesOk(p, i, n.broadcasts);
    hide NetworkOk, TasksOk, QueuesOk;
    NoRepeatsPrefix(p.delivered, Coming(p.inbox, i));
    var received := ApplyReceive(p, i).delivered;
    if p.inbox != [] && p.inbox[0].Envelope? && p.inbox[0].origin != i {
      var m := p.inbox[0];
      assert m in p.inbox && received == p.delivered + [m.event];
      NextIsNew(p.delivered, Coming(p.inbox, i));
    }
  }

  lemma NextIsNew(delivered: seq<Event>, coming: seq<Event>)
    requires NoRepeats(delivered + coming) && coming != []
    ensures coming[0] !in delivered
  {
    var all := delivered + coming;
    forall i | 0 <= i < |delivered| ensures delivered[i] != coming[0] {
      assert all[i] == delivered[i] && all[|delivered|] == coming[0];
    }
  }

  // ---------------------------------------------------------------- nothing is held back

  function Own(events: seq<Event>, self: nat): seq<Event> {
    if events == [] then []
    else
      var last := events[|events| - 1];
      Own(events[..|events| - 1], self) + if last.origin == self then [last] else []
  }

  function Foreign(events: seq<Event>, self: nat): seq<Event> {
    if events == [] then []
    else
      var last := events[|events| - 1];
      Foreign(events[..|events| - 1], self) + if last.origin != self then [last] else []
  }

  lemma PartsAppend(events: seq<Event>, e: Event, self: nat)
    ensures Own(events + [e], self) == Own(events, self) + if e.origin == self then [e] else []
    ensures Foreign(events + [e], self) == Foreign(events, self) + if e.origin != self then [e] else []
  {
    assert (events + [e])[..|events|] == events;
  }

  /** The events that process `i` published, in order. */
  function Published(trace: seq<NetworkAction>, i: nat): seq<Event>
    decreases |trace|
  {
    if trace == [] then []
    else
      var a := trace[|trace| - 1];
      var before := Published(trace[..|trace| - 1], i);
      if a.Publish? && a.at == i then before + [Event(i, |before|, a.sessionId)] else before
  }

  /** This step ends the subscription of process `i`. */
  predicate Loses(p: Process, a: NetworkAction, i: nat) {
    a.at == i && (a.Reconnect? || (a.Receive? && p.inbox != [] && p.inbox[0] == Garbage(true)))
  }

  /** This step brings an event of another process to process `i`, which is listening. */
  predicate Brings(n: Network, a: NetworkAction, i: nat) {
    && a.Broadcast? && a.at < |n.processes| && i < |n.processes| && a.at != i
    && a.task < |n.processes[a.at].publishing| && i in a.reached && n.processes[i].listening
  }

  /** The events of other processes that the channel brought to process `i`, in order, without those that a
      lost subscription took with it before they were received. */
  function Heard(size: nat, trace: seq<NetworkAction>, i: nat): seq<Event>
    requires i < size
    decreases |trace|
  {
    if trace == [] then []
    else
      var a := trace[|trace| - 1];
      var n, before := RunNetwork(size, trace[..|trace| - 1]), Heard(size, trace[..|trace| - 1], i);
      if Brings(n, a, i) then before + [n.processes[a.at].publishing[a.task]]
      else if Loses(n.processes[i], a, i) then Foreign(n.processes[i].delivered, i)
      else before
  }

  ghost predicate AllPassedOn(p: Process, i: nat, heard: seq<Event>, published: seq<Event>) {
    && Foreign(p.delivered, i) + Coming(p.inbox, i) == heard
    && Own(p.delivered, i) == published
    && p.published == |published|
  }

  lemma HearingIsComing(p: Process, i: nat, m: Message)
    ensures Coming(Hear(p, m).inbox, i) ==
            Coming(p.inbox, i) + if p.listening && m.Envelope? && m.origin != i then [m.event] else []
  {
    ComingConcat(p.inbox, [m], i);
    assert Coming(p.inbox, i) + [] == Coming(p.inbox, i);
    assert Coming([m], i) == if m.Envelope? && m.origin != i then [m.event] else [];
  }

  /** A receive hands on what it takes from the inbox, unless it ends the subscription. */
  lemma ReceivePassesOn(p: Process, i: nat, heard: seq<Event>, published: seq<Event>)
    requires AllPassedOn(p, i, heard, published)
    requires forall m <- p.inbox :: m.Envelope? ==> m.event.origin == m.origin
    ensures AllPassedOn(ApplyReceive(p, i), i, if Loses(p, Receive(i), i) then Foreign(p.delivered, i) else heard, published)
  {
    hide Deliver, Foreign, Own;
    if p.inbox != [] {
      var m, rest := p.inbox[0], p.(inbox := p.inbox[1..]);
      assert m in p.inbox;
      if m.Envelope? && m.origin != i {
        DeliverShape(rest, m.event);
        PartsAppend(p.delivered, m.event, i);
        assert Foreign(p.delivered, i) + [m.event] + Coming(rest.inbox, i) == heard;
      } else if m == Garbage(true) {
        assert Foreign(p.delivered, i) + [] == Foreign(p.delivered, i);
      } else {
        assert Coming(p.inbox, i) == Coming(rest.inbox, i);
      }
    }
  }

  lemma LocalPassesOn(p: Process, a: NetworkAction, i: nat, heard: seq<Event>, published: seq<Event>)
    requires !a.Broadcast? && a.at == i && AllPassedOn(p, i, heard, published)
    requires forall m <- p.inbox :: m.Envelope? ==> m.event.origin == m.origin
    ensures AllPassedOn(ApplyLocal(p, a), i, if Loses(p, a, i) then Foreign(p.delivered, i) else heard,
                        if a.Publish? then published + [Event(i, |published|, a.sessionId)] else published)
  {
    hide Deliver, ApplyReceive;
    match a
    case Subscribe(_, sessionId) =>
    case Unsubscribe(_, sessionId, queue) =>
    case Publish(at, sessionId, scheduled) =>
      var e := Event(i, p.published, sessionId);
      DeliverShape(p, e);
      PartsAppend(p.delivered, e, i);
      assert Foreign(p.delivered, i) + [] == Foreign(p.delivered, i);
    case Receive(at) => ReceivePassesOn(p, i, heard, published);
    case Reconnect(at, listening) => assert Foreign(p.delivered, i) + [] == Foreign(p.delivered, i);
    case Inject(at, noObject) =>
      HearingIsComing(p, i, Garbage(noObject));
      assert Coming(p.inbox, i) + [] == Coming(p.inbox, i);
  }

  lemma BroadcastPassesOn(n: Network, a: NetworkAction, i: nat, heard: seq<Event>, published: seq<Event>)
    requires a.Broadcast? && a.at < |n.processes| && a.task < |n.processes[a.at].publishing| && i < |n.processes|
    requires AllPassedOn(n.processes[i], i, heard, published)
    ensures AllPassedOn(ApplyNetwork(n, a).processes[i], i,
                        if Brings(n, a, i) then heard + [n.processes[a.at].publishing[a.task]] else heard, published)
  {
    hide Coming, Foreign, Own;
    var e := n.processes[a.at].publishing[a.task];
    var p := if i == a.at then DropTask(n.processes[i], a.task) else n.processes[i];
    HearingIsComing(p, i, Envelope(a.at, e));
    var known := Foreign(p.delivered, i);
    assert known + (Coming(p.inbox, i) + [e]) == known + Coming(p.inbox, i) + [e];
    assert Coming(p.inbox, i) + [] == Coming(p.inbox, i);
  }

  /** For every run and every process: the events of other processes that were delivered, and then those still
      in the inbox, are exactly those that the channel brought and no lost subscription took, in order; and its own
      delivered events are exactly those it published, in order. */
  lemma {:induction false} EverythingHeardIsDelivered(size: nat, trace: seq<NetworkAction>, i: nat)
    requires i < size
    ensures var p := RunNetwork(size, trace).processes[i];
            && Foreign(p.delivered, i) + Coming(p.inbox, i) == Heard(size, trace, i)
            && Own(p.delivered, i) == Published(trace, i)
            && p.published == |Published(trace, i)|
    decreases |trace|
  {
    hide ApplyNetwork, Coming, Foreign, Own, Brings, Loses;
    if trace == [] {
      NothingHeard(i);
    } else {
      var front, a := trace[..|trace| - 1], trace[|trace| - 1];
      EverythingHeardIsDelivered(size, front, i);
      NetworkRunKeeps(size, front);
      StepPassesOn(RunNetwork(size, front), a, i, Heard(size, front, i), Published(front, i));
    }
  }

  lemma NothingHeard(i: nat)
    ensures AllPassedOn(NewProcess(), i, [], [])
  {
  }

  lemma StepPassesOn(n: Network, a: NetworkAction, i: nat, heard: seq<Event>, published: seq<Event>)
    requires NetworkOk(n) && i < |n.processes| && AllPassedOn(n.processes[i], i, heard, published)
    ensures i < |ApplyNetwork(n, a).processes|
    ensures AllPassedOn(ApplyNetwork(n, a).processes[i], i,
                        if Brings(n, a, i) then heard + [n.processes[a.at].publishing[a.task]]
                        else if Loses(n.processes[i], a, i) then Foreign(n.processes[i].delivered, i) else heard,
                        if a.Publish? && a.at == i then published + [Event(i, |published|, a.sessionId)] else published)
  {
    assert DeliveriesOk(n.processes[i], i, n.broadcasts);
    hide NetworkOk, AllPassedOn, ApplyLocal, ApplyBroadcast, NoRepeats, KnownEvent;
    if a.at < |n.processes| {
      if a.Broadcast? {
        if a.task < |n.processes[a.at].publishing| {
          BroadcastPassesOn(n, a, i, heard, published);
        }
      } else if a.at == i {
        LocalPassesOn(n.processes[i], a, i, heard, published);
      }
    }
  }

  function ReceiveTimes(p: Process, i: nat, k: nat): Process
    decreases k
  {
    if k == 0 then p else ReceiveTimes(ApplyReceive(p, i), i, k - 1)
  }

  /** The messages in front of the first one that ends the subscription. */
  function UntilLost(inbox: seq<Message>): (r: seq<Message>)
    ensures r <= inbox
  {
    if inbox == [] || inbox[0] == Garbage(true) then [] else [inbox[0]] + UntilLost(inbox[1..])
  }

  /** One receive delivers the first message's event if it is another process's. */
  lemma ReceiveOne(p: Process, i: nat)
    requires p.inbox != []
    ensures var after, m := ApplyReceive(p, i), p.inbox[0];
            && after.delivered == p.delivered + Coming([m], i)
            && after.inbox == if m == Garbage(true) then [] else p.inbox[1..]
    ensures Coming(UntilLost(p.inbox), i) ==
            if p.inbox[0] == Garbage(true) then [] else Coming([p.inbox[0]], i) + Coming(UntilLost(p.inbox[1..]), i)
  {
    hide Deliver;
    var m, rest := p.inbox[0], p.(inbox := p.inbox[1..]);
    assert Coming([m], i) == if m.Envelope? && m.origin != i then [m.event] else [];
    if m.Envelope? && m.origin != i {
      DeliverShape(rest, m.event);
    }
    if m != Garbage(true) {
      ComingConcat([m], UntilLost(p.inbox[1..]), i);
    }
  }

  lemma {:induction false} ReceivingDeliversUntilLost(p: Process, i: nat, k: nat)
    requires k >= |p.inbox|
    ensures var after := ReceiveTimes(p, i, k);
            after.inbox == [] && after.delivered == p.delivered + Coming(UntilLost(p.inbox), i)
    decreases k
  {
    hide ApplyReceive;
    if p.inbox == [] {
      assert p.delivered + [] == p.delivered;
      if k > 0 {
        assert ApplyReceive(p, i) == p by { NothingToReceive(p, i); }
        ReceivingDeliversUntilLost(p, i, k - 1);
      }
    } else {
      ReceiveOne(p, i);
      ReceivingDeliversUntilLost(ApplyReceive(p, i), i, k - 1);
      hide Coming, UntilLost;
    }
  }

  lemma NothingToReceive(p: Process, i: nat)
    requires p.inbox == []
    ensures ApplyReceive(p, i) == p
  {
  }

  /** Receiving as often as there are messages delivers the events of other processes in front of the first message
      that ends the subscription, and so all of them if and only if none stands behind it. */
  lemma ReceivingDeliversAll(p: Process, i: nat)
    ensures var after, lost := ReceiveTimes(p, i, |p.inbox|), p.inbox[|UntilLost(p.inbox)|..];
            && after.inbox == [] && after.delivered == p.delivered + Coming(UntilLost(p.inbox), i)
            && (after.delivered == p.delivered + Coming(p.inbox, i) <==> Coming(lost, i) == [])
  {
    hide Coming, ReceiveTimes, UntilLost;
    var heard, lost := UntilLost(p.inbox), p.inbox[|UntilLost(p.inbox)|..];
    ReceivingDeliversUntilLost(p, i, |p.inbox|);
    assert p.inbox == heard + lost;
    ComingConcat(heard, lost, i);
    assert |p.delivered + Coming(p.inbox, i)| == |p.delivered| + |Coming(heard, i)| + |Coming(lost, i)|;
    assert Coming(heard, i) + [] == Coming(heard, i);
  }

  /** An event behind JSON that is no object is lost. */
  lemma NoObjectLosesTheNext(p: Process, i: nat, e: Event)
    requires e.origin != i && p.inbox == [Garbage(true), Envelope(e.origin, e)]
    ensures Coming(p.inbox, i) == [e]
    ensures ReceiveTimes(p, i, 2).inbox == [] && ReceiveTimes(p, i, 2).delivered == p.delivered
  {
    assert p.inbox[1..] == [Envelope(e.origin, e)] && p.inbox[1..][1..] == [];
    assert UntilLost(p.inbox) == [];
    ReceivingDeliversUntilLost(p, i, 2);
    assert p.delivered + [] == p.delivered;
  }

  /** The events that process `i` published with a broadcast scheduled. */
  function Scheduled(trace: seq<NetworkAction>, i: nat): seq<Event>
    decreases |trace|
  {
    if trace == [] then []
    else
      var front, a := trace[..|trace| - 1], trace[|trace| - 1];
      Scheduled(front, i) + if a.Publish? && a.at == i && a.scheduled then [Event(i, |Published(front, i)|, a.sessionId)] else []
  }

  /** A scheduled broadcast was made or is still waiting. */
  ghost predicate BroadcastOrWaiting(n: Network, i: nat, scheduled: seq<Event>)
    requires i < |n.processes|
  {
    forall e :: e in scheduled <==> e in n.processes[i].publishing || (e.origin == i && e in n.broadcasts)
  }

  lemma BroadcastKeepsScheduled(n: Network, at: nat, task: nat, reached: set<nat>, i: nat, scheduled: seq<Event>)
    requires NetworkOk(n) && at < |n.processes| && task < |n.processes[at].publishing| && i < |n.processes|
    requires BroadcastOrWaiting(n, i, scheduled)
    ensures BroadcastOrWaiting(ApplyBroadcast(n, at, task, reached), i, scheduled)
  {
    var e := n.processes[at].publishing[task];
    TaskIsNew(n.processes[at], at, task, n.broadcasts);
    hide NetworkOk, Hear;
    var after := ApplyBroadcast(n, at, task, reached);
    assert forall x :: x in after.broadcasts <==> x in n.broadcasts || x == e;
    if i == at {
      DropLosesOne(n.processes[i], task);
      HearingPublishesNothing(DropTask(n.processes[i], task), Envelope(at, e));
    } else {
      HearingPublishesNothing(n.processes[i], Envelope(at, e));
    }
  }

  lemma HearingPublishesNothing(p: Process, m: Message)
    ensures Hear(p, m).publishing == p.publishing
  {
  }

  lemma DropLosesOne(p: Process, task: nat)
    requires task < |p.publishing|
    ensures forall e :: e in p.publishing <==> e in DropTask(p, task).publishing || e == p.publishing[task]
  {
    assert p.publishing == p.publishing[..task] + [p.publishing[task]] + p.publishing[task + 1..];
  }

  lemma LocalPublishes(p: Process, a: NetworkAction)
    requires !a.Broadcast?
    ensures ApplyLocal(p, a).publishing ==
            p.publishing + if a.Publish? && a.scheduled then [Event(a.at, p.published, a.sessionId)] else []
  {
    hide Deliver;
    match a
    case Publish(at, sessionId, scheduled) => DeliverShape(p, Event(at, p.published, sessionId));
    case Receive(at) =>
      if p.inbox != [] && p.inbox[0].Envelope? {
        DeliverShape(p.(inbox := p.inbox[1..]), p.inbox[0].event);
      }
    case _ =>
  }

  /** For every run and every process, the events whose broadcast was scheduled are exactly those that were broadcast
      or still wait for it; by `EventsAreBroadcastOnce`, none twice. */
  lemma {:induction false} ScheduledAreBroadcast(size: nat, trace: seq<NetworkAction>, i: nat)
    requires i < size
    ensures var n := RunNetwork(size, trace);
            forall e :: e in Scheduled(trace, i) <==> e in n.processes[i].publishing || (e.origin == i && e in n.broadcasts)
    decreases |trace|
  {
    hide ApplyLocal, ApplyBroadcast, Published, Heard, Coming, Foreign, Own, NetworkOk;
    if trace != [] {
      var front, a := trace[..|trace| - 1], trace[|trace| - 1];
      var n := RunNetwork(size, front);
      ScheduledAreBroadcast(size, front, i);
      EverythingHeardIsDelivered(size, front, i);
      NetworkRunKeeps(size, front);
      assert BroadcastOrWaiting(n, i, Scheduled(front, i));
      if a.at < size && a.Broadcast? && a.task < |n.processes[a.at].publishing| {
        BroadcastKeepsScheduled(n, a.at, a.task, a.reached, i, Scheduled(front, i));
      } else if a.at < size && !a.Broadcast? {
        LocalPublishes(n.processes[a.at], a);
      }
    }
  }
}
