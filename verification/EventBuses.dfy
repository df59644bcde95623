// The in-memory event bus: `EventBus` in apps/api/src/choregos_api/events.py.
module EventBuses {
  import opened Wrappers
  import opened EventStreams

  /** `asyncio.Queue`, as far as the bus uses it. */
  class Queue {
    const maxsize: int
    var items: seq<Event>
    /** The topic it is registered on. */
    ghost const topic: string

    constructor (maxsize: int, ghost topic: string)
      ensures this.maxsize == maxsize && this.topic == topic && items == []
    {
      this.maxsize, this.topic, items := maxsize, topic, [];
    }

    /** `put_nowait` under `suppress(QueueFull)`. */
    method PutNowait(e: Event)
      modifies this`items
      ensures items == Offer(old(items), maxsize, e)
    {
      if !(0 < maxsize <= |items|) {
        items := items + [e];
      }
    }
  }

  class EventBus {
    const bufferSize: nat
    var subscribers: map<string, set<Queue>>
    var buffers: map<string, seq<Event>>
    var counter: nat
    /** Everything ever published, evicted or not. */
    ghost var history: seq<Event>

    function Subscribers(topic: string): set<Queue>
      reads this
    {
      if topic in subscribers then subscribers[topic] else {}
    }

    function Buffer(topic: string): seq<Event>
      reads this
    {
      if topic in buffers then buffers[topic] else []
    }

    ghost function Queues(): set<Queue>
      reads this
    {
      set topic, q | topic in subscribers && q in subscribers[topic] :: q
    }

    /** Every buffer is the last `bufferSize` events of the whole history on its topic; a queue serves one topic. */
    ghost predicate Valid()
      reads this
    {
      && counter == |history|
      && (forall topic :: Buffer(topic) == LastN(On(topic, history), bufferSize))
      && OneTopicPerQueue()
    }

    ghost predicate OneTopicPerQueue()
      reads this
    {
      forall topic, q :: topic in subscribers && q in subscribers[topic] ==> q.topic == topic
    }

    constructor (bufferSize: nat)
      ensures Valid() && this.bufferSize == bufferSize && history == [] && subscribers == map[]
    {
      this.bufferSize := bufferSize;
      subscribers, buffers, counter, history := map[], map[], 0, [];
    }

    /** Each queue is offered the event once if its topic is one of the event's; nothing else changes. */
    method Publish(e: Event)
      requires Valid()
      modifies this`buffers, this`counter, this`history, Queues()`items
      ensures Valid() && history == old(history) + [e]
      ensures forall q :: q in Queues() ==>
                q.items == if Concerns(q.topic, e) then Offer(old(q.items), q.maxsize, e) else old(q.items)
    {
      hide Topics, Push, LastN, Offer, On, Concerns;
      forall topic ensures topic in Topics(e) <==> Concerns(topic, e) { TopicsAreThose(topic, e); }
      counter := counter + 1;
      PublishOnEach(Topics(e), e);
      history := history + [e];
      forall topic ensures Buffer(topic) == LastN(On(topic, history), bufferSize) {
        OnSnoc(topic, old(history), e);
        PushLastN(On(topic, old(history)), bufferSize, e);
      }
    }

    /** The loop over the event's topics. */
    method PublishOnEach(topics: seq<string>, e: Event)
      requires OneTopicPerQueue() && Distinct(topics)
      modifies this`buffers, Queues()`items
      ensures forall topic :: Buffer(topic) ==
                if topic in topics then Push(old(Buffer(topic)), bufferSize, e) else old(Buffer(topic))
      ensures forall q :: q in Queues() ==>
                q.items == if q.topic in topics then Offer(old(q.items), q.maxsize, e) else old(q.items)
    {
      hide Topics, Push, LastN, Offer, On;
      ghost var served: set<string> := {};
      for i := 0 to |topics|
        invariant forall topic :: topic in served <==> exists j :: 0 <= j < i && topics[j] == topic
        invariant forall topic :: Buffer(topic) ==
                    if topic in served then Push(old(Buffer(topic)), bufferSize, e) else old(Buffer(topic))
        invariant forall q :: q in Queues() ==>
                    q.items == if q.topic in served then Offer(old(q.items), q.maxsize, e) else old(q.items)
      {
        assert topics[i] !in served;
        QueuesOf(topics[i]);
        PublishOn(topics[i], e);
        served := served + {topics[i]};
      }
    }

    lemma QueuesOf(topic: string)
      requires OneTopicPerQueue()
      ensures forall q :: q in Queues() ==> (q in Subscribers(topic) <==> q.topic == topic)
      ensures Subscribers(topic) <= Queues()
    {}

    /** The body of the loop over topics: one append, then the topic's queues in any order. */
    method PublishOn(topic: string, e: Event)
      requires OneTopicPerQueue()
      modifies this`buffers, Subscribers(topic)`items
      ensures buffers == old(buffers)[topic := Push(old(Buffer(topic)), bufferSize, e)]
      ensures forall q :: q in Subscribers(topic) ==> q.items == Offer(old(q.items), q.maxsize, e)
    {
      buffers := buffers[topic := Push(Buffer(topic), bufferSize, e)];
      var waiting := Subscribers(topic);
      while waiting != {}
        invariant waiting <= Subscribers(topic)
        invariant buffers == old(buffers)[topic := Push(old(Buffer(topic)), bufferSize, e)]
        invariant forall q :: q in Subscribers(topic) ==>
                    q.items == if q in waiting then old(q.items) else Offer(old(q.items), q.maxsize, e)
        decreases waiting
      {
        var q :| q in waiting;
        q.PutNowait(e);
        waiting := waiting - {q};
      }
    }

    /** Buffered events after `afterId`. */
    method Replay(topic: string, afterId: Option<string>) returns (events: seq<Event>)
      requires Valid()
      ensures events == EventStreams.Replay(LastN(On(topic, history), bufferSize), afterId)
    {
      events := Buffer(topic);
      if afterId.None? {
        return;
      }
      for index := 0 to |events|
        invariant forall j :: 0 <= j < index ==> events[j].id != afterId.value
      {
        if events[index].id == afterId.value {
          return events[index + 1..];
        }
      }
    }

    /** What is buffered for a run: the last events of its history that are of that run. */
    lemma RunBuffer(run: string)
      requires Valid() && run != ""
      ensures Buffer("run:" + run) == LastN(Filtered(history, (e: Event) => e.runId == Some(run)), bufferSize)
    {
      OnRun(run, history);
      hide On, Filtered, LastN;
    }

    method Register(topic: string, q: Queue)
      requires Valid() && q.topic == topic
      modifies this`subscribers
      ensures Valid() && subscribers == old(subscribers)[topic := old(Subscribers(topic)) + {q}]
    {
      subscribers := subscribers[topic := Subscribers(topic) + {q}];
    }

    method Discard(topic: string, q: Queue)
      requires Valid()
      modifies this`subscribers
      ensures Valid() && subscribers == old(subscribers)[topic := old(Subscribers(topic)) - {q}]
      ensures |Subscribers(topic)| == old(|Subscribers(topic)|) - if q in old(Subscribers(topic)) then 1 else 0
    {
      subscribers := subscribers[topic := Subscribers(topic) - {q}];
    }

    /** The entry of `listen`: a queue of the topic's live events, nothing replayed. */
    method Listen(topic: string, size: int) returns (q: Queue)
      requires Valid()
      modifies this`subscribers
      ensures Valid() && fresh(q) && q.topic == topic && q.maxsize == size && q.items == []
      ensures subscribers == old(subscribers)[topic := old(Subscribers(topic)) + {q}]
      ensures |Subscribers(topic)| == old(|Subscribers(topic)|) + 1
    {
      q := new Queue(size, topic);
      assert q !in Subscribers(topic);
      Register(topic, q);
    }
  }

  const SUBSCRIPTION_SIZE := 1000

  /** The generator `subscribe` returns. Its body starts at the first read: the queue is registered and the replay
      computed then, before anything can be published in between. */
  class Subscription {
    const bus: EventBus
    const topic: string
    const afterId: Option<string>
    var queue: Queue?
    var pending: seq<Event>
    ghost var delivered: seq<Event>

    ghost predicate Running()
      reads this, bus
    {
      queue != null && queue.maxsize == SUBSCRIPTION_SIZE && queue in bus.Subscribers(topic)
    }

    ghost predicate Valid()
      reads this, bus
    {
      bus.Valid() && if queue == null then pending == [] && delivered == [] else Running()
    }

    /** The reader this subscription is; before its first read, the one it would start as now. */
    ghost function State(): Reader
      reads this, bus, queue
      requires Valid()
    {
      if queue == null then Open(topic, bus.bufferSize, bus.history, afterId)
      else Reader(topic, pending, queue.items, delivered)
    }

    constructor (bus: EventBus, topic: string, afterId: Option<string>)
      requires bus.Valid()
      ensures Valid() && this.bus == bus && this.topic == topic && this.afterId == afterId && queue == null
    {
      this.bus, this.topic, this.afterId, queue, pending, delivered := bus, topic, afterId, null, [], [];
    }

    /** One read; nothing when it would wait. */
    method Next() returns (event: Option<Event>)
      requires Valid()
      modifies this, bus`subscribers, if queue == null then {} else {queue}
      ensures Valid() && queue != null && State() == Step(SUBSCRIPTION_SIZE, old(State()), Read)
      ensures delivered == if event.Some? then old(delivered) + [event.value] else old(delivered)
      ensures event.None? <==> old(State()).pending == [] && old(State()).queue == []
      ensures old(queue) != null ==> queue == old(queue) && bus.subscribers == old(bus.subscribers)
      ensures old(queue) == null ==>
                bus.subscribers == old(bus.subscribers)[topic := old(bus.Subscribers(topic)) + {queue}]
    {
      if queue == null {
        queue := new Queue(SUBSCRIPTION_SIZE, topic);
        bus.Register(topic, queue);
        pending := bus.Replay(topic, afterId);
      }
      if pending != [] {
        event := Some(pending[0]);
        pending := pending[1..];
      } else if queue.items != [] {
        event := Some(queue.items[0]);
        queue.items := queue.items[1..];
      } else {
        return None;
      }
      delivered := delivered + [event.value];
    }

    /** Leaving the generator: the queue is no longer served. */
    method Close()
      requires Valid()
      modifies bus`subscribers
      ensures bus.Valid()
      ensures bus.subscribers == if queue == null then old(bus.subscribers)
                                 else old(bus.subscribers)[topic := old(bus.Subscribers(topic)) - {queue}]
      ensures |bus.Subscribers(topic)| == old(|bus.Subscribers(topic)|) - if queue == null then 0 else 1
    {
      if queue != null {
        bus.Discard(topic, queue);
      }
    }
  }

  /** Publishing is one step of every running subscription, and of none that has been closed. */
  method PublishTo(bus: EventBus, s: Subscription, e: Event)
    requires s.Valid() && s.bus == bus && s.queue != null
    modifies bus`buffers, bus`counter, bus`history, bus.Queues()`items
    ensures s.Valid() && s.State() == Step(SUBSCRIPTION_SIZE, old(s.State()), EventStreams.Publish(e))
    ensures bus.history == old(bus.history) + [e]
  {
    bus.Publish(e);
  }
}
