/** The event bus and the backplane of one process as objects; every method is one step of `EventFanout`. */
module EventBus {
  import opened Common
  import opened EventFanout

  class EventQueue {
    var items: seq<Event>

    constructor ()
      ensures items == []
    {
      items := [];
    }

    method Put(e: Event)
      modifies this
      ensures items == old(items) + [e]
    {
      items := items + [e];
    }
  }

  /** History of a queue: its session, and the deliveries between which it was subscribed. */
  datatype Subscription = Subscription(sessionId: string, start: nat, stop: Option<nat>)

  class InMemoryTradeEventBus {
    const self: nat
    /** A queue is known by its place in `queues`. */
    var queues: seq<EventQueue>
    var subscribers: map<string, set<nat>>
    var published: nat
    var publishing: seq<Event>
    var inbox: seq<Message>
    var listening: bool
    ghost var subscriptions: seq<Subscription>
    ghost var delivered: seq<Event>

    constructor (self: nat)
      ensures Valid() && this.self == self && Abs() == NewProcess()
    {
      this.self := self;
      queues, subscribers, published, publishing, inbox, listening := [], map[], 0, [], [], false;
      subscriptions, delivered := [], [];
    }

    ghost function Abs(): Process
      reads this, queues
    {
      Process(published, subscribers, QueueValues(queues, subscriptions), publishing, inbox, listening, delivered)
    }

    ghost predicate Valid()
      reads this, queues
    {
      && |subscriptions| == |queues|
      && Distinct()
      && QueuesOk(Abs())
    }

    method Subscribe(sessionId: string) returns (queue: EventQueue, handle: nat)
      requires Valid()
      modifies this
      ensures Valid() && Abs() == ApplySubscribe(old(Abs()), sessionId)
      ensures fresh(queue) && handle == |old(queues)| && queues == old(queues) + [queue]
    {
      hide QueuesOk;
      ghost var before := Abs();
      SubscribeKeepsQueues(before, sessionId);
      handle := |queues|;
      queue := new EventQueue();
      var others := if sessionId in subscribers then subscribers[sessionId] else {};
      subscribers := subscribers[sessionId := others + {handle}];
      queues := queues + [queue];
      subscriptions := subscriptions + [Subscription(sessionId, |delivered|, None)];
      assert Abs() == ApplySubscribe(before, sessionId);
    }

    method Unsubscribe(sessionId: string, handle: nat)
      requires Valid()
      modifies this`subscribers, this`subscriptions
      ensures Valid() && Abs() == ApplyUnsubscribe(old(Abs()), sessionId, handle)
    {
      hide QueuesOk;
      ghost var before := Abs();
      UnsubscribeKeepsQueues(before, sessionId, handle);
      if sessionId !in subscribers {
        return;
      }
      if handle in subscribers[sessionId] && handle < |queues| {
        subscriptions := subscriptions[handle := subscriptions[handle].(stop := Some(|delivered|))];
      }
      var left := subscribers[sessionId] - {handle};
      subscribers := if left == {} then subscribers - {sessionId} else subscribers[sessionId := left];
      assert Abs() == ApplyUnsubscribe(before, sessionId, handle);
    }

    predicate Distinct()
      reads this
    {
      forall i, j | 0 <= i < j < |queues| :: queues[i] != queues[j]
    }

    /** Every target queue gets the event once, in whatever order the set is walked. */
    method PutAll(targets: set<nat>, e: Event)
      requires Distinct() && forall q <- targets :: q < |queues|
      modifies queues
      ensures forall i | 0 <= i < |queues| :: queues[i].items == old(queues[i].items) + if i in targets then [e] else []
    {
      var todo := targets;
      while todo != {}
        invariant todo <= targets
        invariant forall i | 0 <= i < |queues| ::
            queues[i].items == old(queues[i].items) + if i in targets && i !in todo then [e] else []
        decreases |todo|
      {
        var q :| q in todo;
        queues[q].Put(e);
        todo := todo - {q};
      }
    }

    /** The event goes to every queue that is subscribed to its session when the delivery begins. */
    method DeliverRemote(e: Event)
      requires Valid()
      modifies this`delivered, queues
      ensures Valid() && Abs() == Deliver(old(Abs()), e)
    {
      ghost var before := Abs();
      DeliverKeepsQueues(before, e);
      var targets := if e.sessionId in subscribers then subscribers[e.sessionId] else {};
      assert forall q <- targets :: Subscribed(before, e.sessionId, q);
      hide QueuesOk;
      PutAll(targets, e);
      delivered := delivered + [e];
      ghost var after := Deliver(before, e);
      forall i | 0 <= i < |queues| ensures Abs().queues[i] == after.queues[i] {
        assert i in targets <==> Subscribed(before, e.sessionId, i);
      }
      assert Abs().queues == after.queues;
      assert Abs() == after;
    }

    /** publish: delivered here at once; `inLoop` says whether a backplane and an event loop are there to
        schedule the broadcast. */
    method Publish(sessionId: string, inLoop: bool) returns (e: Event)
      requires Valid()
      modifies this, queues
      ensures Valid() && Abs() == ApplyPublish(old(Abs()), self, sessionId, inLoop)
      ensures e == Event(self, old(published), sessionId) && delivered == old(delivered) + [e]
      ensures publishing == old(publishing) + if inLoop then [e] else []
    {
      e := Event(self, published, sessionId);
      DeliverRemote(e);
      ghost var between := Abs();
      published := published + 1;
      if inLoop {
        publishing := publishing + [e];
      }
      QueuesOkSame(between, Abs());
    }

    /** One message of the channel is received and forwarded, unless it is this process's own or no event; JSON
        that is no object ends the subscription. */
    method ReceiveAndForward()
      requires Valid()
      modifies this, queues
      ensures Valid() && Abs() == ApplyReceive(old(Abs()), self) && queues == old(queues)
      ensures old(inbox) != [] && old(inbox[0]).Envelope? && old(inbox[0]).origin != self ==>
                var e := old(inbox[0]).event;
                && delivered == old(delivered) + [e] && inbox == old(inbox)[1..]
                && forall q | 0 <= q < |queues| ::
                     queues[q].items == old(queues[q].items) +
                       if e.sessionId in old(subscribers) && q in old(subscribers)[e.sessionId] then [e] else []
    {
      if inbox == [] {
        return;
      }
      ghost var before := Abs();
      var message := inbox[0];
      if message == Garbage(true) {
        inbox, listening := [], false;
        QueuesOkSame(before, Abs());
        return;
      }
      inbox := inbox[1..];
      QueuesOkSame(before, Abs());
      if message.Envelope? && message.origin != self {
        DeliverRemote(message.event);
      }
    }
  }

  ghost function QueueValues(queues: seq<EventQueue>, subscriptions: seq<Subscription>): (r: seq<Queue>)
    reads queues
    ensures |r| == if |queues| <= |subscriptions| then |queues| else |subscriptions|
    ensures forall i | 0 <= i < |r| :: r[i] == Queue(subscriptions[i].sessionId, subscriptions[i].start, subscriptions[i].stop, queues[i].items)
  {
    seq(if |queues| <= |subscriptions| then |queues| else |subscriptions|,
        i requires 0 <= i < |queues| && i < |subscriptions| reads queues =>
          Queue(subscriptions[i].sessionId, subscriptions[i].start, subscriptions[i].stop, queues[i].items))
  }
}
