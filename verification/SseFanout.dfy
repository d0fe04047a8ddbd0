/**
 Server-sent events across N instances: each delivers its own events locally and publishes them on a Redis
 channel that echoes to every instance, the sender included; an origin filter drops the echo.
*/
module SseFanout {
  type InstanceId = nat
  type ConversationId = nat
  type Subject = nat
  type Streams = map<ConversationId, set<Subject>>

  /** `id` numbers broadcasts over the whole run and `published` says whether Redis took it; neither is read by a step. */
  datatype Message = Message(id: nat, origin: InstanceId, conversation: ConversationId, event: nat, published: bool)

  /** A delivery to the local subscriber set: whom the event reached. */
  datatype Delivery = Delivery(message: Message, reached: set<Subject>)

  datatype Instance = Instance(streams: Streams, deliveries: seq<Delivery>, inbox: seq<Message>)

  datatype Fleet = Fleet(instances: seq<Instance>, sent: seq<Message>)

  // ---------- subscriber sets ----------

  function SubscribersOf(streams: Streams, conversation: ConversationId): set<Subject> {
    if conversation in streams then streams[conversation] else {}
  }

  /** A conversation without subscribers has no entry. */
  function WithSubscribers(streams: Streams, conversation: ConversationId, subjects: set<Subject>): Streams {
    if subjects == {} then streams - {conversation} else streams[conversation := subjects]
  }

  function Subscribe(streams: Streams, conversation: ConversationId, subject: Subject): Streams {
    streams[conversation := SubscribersOf(streams, conversation) + {subject}]
  }

  function Unsubscribe(streams: Streams, conversation: ConversationId, subject: Subject): Streams {
    if conversation !in streams then streams
    else WithSubscribers(streams, conversation, streams[conversation] - {subject})
  }

  /** `deliverToLocalSubscribers`; `throwing` are the subjects whose `next` throws, which are dropped. */
  function Deliver(inst: Instance, message: Message, throwing: set<Subject>): Instance {
    var subjects := SubscribersOf(inst.streams, message.conversation);
    inst.(streams := if subjects == {} then inst.streams
                     else WithSubscribers(inst.streams, message.conversation, subjects - throwing),
          deliveries := inst.deliveries + [Delivery(message, subjects - throwing)])
  }

  // ---------- the fleet ----------

  datatype Event =
    | DoSubscribe(i: InstanceId, conversation: ConversationId, subject: Subject)
    | DoUnsubscribe(i: InstanceId, conversation: ConversationId, subject: Subject)
    | Broadcast(i: InstanceId, conversation: ConversationId, event: nat, throwing: set<Subject>, publishOk: bool)
    | Drain(i: InstanceId, throwing: set<Subject>)

  function Enqueue(instances: seq<Instance>, message: Message): (instances': seq<Instance>)
    ensures |instances'| == |instances|
    ensures forall j :: 0 <= j < |instances| ==> instances'[j] == instances[j].(inbox := instances[j].inbox + [message])
  {
    seq(|instances|, j requires 0 <= j < |instances| => instances[j].(inbox := instances[j].inbox + [message]))
  }

  /** The Redis message handler on the oldest message of an instance's channel. */
  function Handle(inst: Instance, i: InstanceId, throwing: set<Subject>): Instance {
    if inst.inbox == [] then inst
    else
      var message := inst.inbox[0];
      var drained := inst.(inbox := inst.inbox[1..]);
      if message.origin == i then drained else Deliver(drained, message, throwing)
  }

  function Step(f: Fleet, e: Event): Fleet {
    if e.i >= |f.instances| then f
    else
      var inst := f.instances[e.i];
      match e
      case DoSubscribe(i, c, s) => f.(instances := f.instances[i := inst.(streams := Subscribe(inst.streams, c, s))])
      case DoUnsubscribe(i, c, s) => f.(instances := f.instances[i := inst.(streams := Unsubscribe(inst.streams, c, s))])
      case Broadcast(i, c, event, throwing, publishOk) =>
        var message := Message(|f.sent|, i, c, event, publishOk);
        var delivered := f.instances[i := Deliver(inst, message, throwing)];
        Fleet(if publishOk then Enqueue(delivered, message) else delivered, f.sent + [message])
      case Drain(i, throwing) => f.(instances := f.instances[i := Handle(inst, i, throwing)])
  }

  function Run(f: Fleet, events: seq<Event>): Fleet {
    if events == [] then f else Step(Run(f, events[..|events| - 1]), events[|events| - 1])
  }

  function NewFleet(n: nat): Fleet {
    Fleet(seq(n, _ => Instance(map[], [], [])), [])
  }

  // ---------- order and number of deliveries ----------

  function From(messages: seq<Message>, origin: InstanceId): seq<Message> {
    if messages == [] then []
    else
      var init, last := From(messages[..|messages| - 1], origin), messages[|messages| - 1];
      if last.origin == origin then init + [last] else init
  }

  function Published(messages: seq<Message>): seq<Message> {
    if messages == [] then []
    else
      var init, last := Published(messages[..|messages| - 1]), messages[|messages| - 1];
      if last.published then init + [last] else init
  }

  function Delivered(deliveries: seq<Delivery>): (messages: seq<Message>)
    ensures |messages| == |deliveries|
  {
    seq(|deliveries|, n requires 0 <= n < |deliveries| => deliveries[n].message)
  }

  lemma {:induction false} FromConcat(a: seq<Message>, b: seq<Message>, origin: InstanceId)
    ensures From(a + b, origin) == From(a, origin) + From(b, origin)
  {
    if b == [] {
      assert a + b == a;
    } else {
      var init := b[..|b| - 1];
      assert (a + b)[..|a + b| - 1] == a + init;
      FromConcat(a, init, origin);
    }
  }

  lemma FromOne(messages: seq<Message>, m: Message, origin: InstanceId)
    ensures From(messages + [m], origin) == From(messages, origin) + if m.origin == origin then [m] else []
  {
    assert (messages + [m])[..|messages|] == messages;
  }

  /**
   What instance `j` has delivered from origin `i`, followed by what still waits in its channel, is what `i`
   sent, in that order: everything for its own events, everything published for the others.
  */
  ghost predicate InOrder(f: Fleet, j: InstanceId, i: InstanceId)
    requires j < |f.instances|
  {
    Follows(f.instances[j], f.sent, j, i)
  }

  ghost predicate Follows(inst: Instance, sent: seq<Message>, j: InstanceId, i: InstanceId) {
    if i == j then From(Delivered(inst.deliveries), i) == From(sent, i)
    else From(Delivered(inst.deliveries), i) + From(inst.inbox, i) == From(Published(sent), i)
  }

  ghost predicate NoEmptySets(inst: Instance) {
    forall c :: c in inst.streams ==> inst.streams[c] != {}
  }

  ghost predicate Inv(f: Fleet) {
    && (forall j: InstanceId, i: InstanceId :: j < |f.instances| ==> InOrder(f, j, i))
    && (forall j :: 0 <= j < |f.instances| ==> NoEmptySets(f.instances[j]))
    && (forall n :: 0 <= n < |f.sent| ==> f.sent[n].id == n)
  }

  lemma DeliverAppends(inst: Instance, message: Message, throwing: set<Subject>, i: InstanceId)
    ensures var inst' := Deliver(inst, message, throwing);
      && From(Delivered(inst'.deliveries), i) == From(Delivered(inst.deliveries), i) + (if message.origin == i then [message] else [])
      && inst'.inbox == inst.inbox
      && (NoEmptySets(inst) ==> NoEmptySets(inst'))
  {
    var inst' := Deliver(inst, message, throwing);
    assert Delivered(inst'.deliveries) == Delivered(inst.deliveries) + [message];
    FromOne(Delivered(inst.deliveries), message, i);
  }

  lemma PublishedOne(messages: seq<Message>, m: Message)
    ensures Published(messages + [m]) == Published(messages) + if m.published then [m] else []
  {
    assert (messages + [m])[..|messages|] == messages;
  }

  lemma SentAppends(sent: seq<Message>, m: Message, i: InstanceId)
    ensures From(sent + [m], i) == From(sent, i) + (if m.origin == i then [m] else [])
    ensures From(Published(sent + [m]), i) == From(Published(sent), i) + (if m.published && m.origin == i then [m] else [])
  {
    FromOne(sent, m, i);
    PublishedOne(sent, m);
    if m.published {
      FromOne(Published(sent), m, i);
    }
  }

  /** What instance `j` looks like after instance `at` broadcast. */
  lemma BroadcastAt(f: Fleet, e: Event, j: InstanceId)
    requires e.Broadcast? && e.i < |f.instances| && j < |f.instances|
    ensures var message := Message(|f.sent|, e.i, e.conversation, e.event, e.publishOk);
            var mine := if j == e.i then Deliver(f.instances[j], message, e.throwing) else f.instances[j];
            var f' := Step(f, e);
            && f'.sent == f.sent + [message] && |f'.instances| == |f.instances|
            && f'.instances[j] == if e.publishOk then mine.(inbox := mine.inbox + [message]) else mine
  {
  }

  lemma BroadcastKeepsOrder(f: Fleet, e: Event, j: InstanceId, i: InstanceId)
    requires Inv(f) && e.Broadcast? && e.i < |f.instances| && j < |f.instances|
    ensures j < |Step(f, e).instances| && InOrder(Step(f, e), j, i) && NoEmptySets(Step(f, e).instances[j])
  {
    var message := Message(|f.sent|, e.i, e.conversation, e.event, e.publishOk);
    assert InOrder(f, j, i) && NoEmptySets(f.instances[j]);
    BroadcastAt(f, e, j);
    BroadcastFollows(f.instances[j], f.sent, message, e.throwing, j, i);
  }

  /** Sending appends to the sender's deliveries, and publishing to everyone's channel. */
  lemma BroadcastFollows(inst: Instance, sent: seq<Message>, m: Message, throwing: set<Subject>, j: InstanceId, i: InstanceId)
    requires Follows(inst, sent, j, i) && NoEmptySets(inst)
    ensures var mine := if j == m.origin then Deliver(inst, m, throwing) else inst;
            var inst' := if m.published then mine.(inbox := mine.inbox + [m]) else mine;
            Follows(inst', sent + [m], j, i) && NoEmptySets(inst')
  {
    SentAppends(sent, m, i);
    FromOne(inst.inbox, m, i);
    DeliverAppends(inst, m, throwing, i);
    Reassociate(From(Delivered(inst.deliveries), i), From(inst.inbox, i), if m.origin == i then [m] else []);
  }

  lemma Reassociate(a: seq<Message>, b: seq<Message>, c: seq<Message>)
    ensures a + (b + c) == (a + b) + c && a + [] == a
  {
  }

  /** Taking the oldest message off a channel and handling it moves it from the waiting to the delivered side. */
  lemma HandleMovesOne(inst: Instance, j: InstanceId, throwing: set<Subject>, i: InstanceId)
    ensures var inst' := Handle(inst, j, throwing);
      && (NoEmptySets(inst) ==> NoEmptySets(inst'))
      && (i == j ==> From(Delivered(inst'.deliveries), i) == From(Delivered(inst.deliveries), i))
      && (i != j ==> From(Delivered(inst'.deliveries), i) + From(inst'.inbox, i)
                       == From(Delivered(inst.deliveries), i) + From(inst.inbox, i))
  {
    if inst.inbox != [] {
      var message, rest := inst.inbox[0], inst.inbox[1..];
      assert inst.inbox == [message] + rest;
      FromConcat([message], rest, i);
      FromOne([], message, i);
      assert [] + [message] == [message];
      DeliverAppends(inst.(inbox := rest), message, throwing, i);
    }
  }

  lemma DrainKeepsOrder(f: Fleet, e: Event, j: InstanceId, i: InstanceId)
    requires Inv(f) && e.Drain? && e.i < |f.instances| && j < |f.instances|
    ensures InOrder(Step(f, e), j, i) && NoEmptySets(Step(f, e).instances[j])
  {
    assert InOrder(f, j, i) && NoEmptySets(f.instances[j]);
    HandleMovesOne(f.instances[e.i], e.i, e.throwing, i);
  }

  lemma StepKeepsInv(f: Fleet, e: Event)
    requires Inv(f)
    ensures Inv(Step(f, e)) && |Step(f, e).instances| == |f.instances|
  {
    if e.i < |f.instances| {
      var f' := Step(f, e);
      forall j: InstanceId, i: InstanceId | j < |f'.instances| ensures InOrder(f', j, i) && NoEmptySets(f'.instances[j]) {
        match e
        case Broadcast(_, _, _, _, _) => BroadcastKeepsOrder(f, e, j, i);
        case Drain(_, _) => DrainKeepsOrder(f, e, j, i);
        case DoSubscribe(_, _, _) => assert InOrder(f, j, i) && NoEmptySets(f.instances[j]);
        case DoUnsubscribe(_, _, _) => assert InOrder(f, j, i) && NoEmptySets(f.instances[j]);
      }
      forall j | 0 <= j < |f'.instances| ensures NoEmptySets(f'.instances[j]) {
        assert InOrder(f', j, 0) && NoEmptySets(f'.instances[j]);
      }
    }
  }

  /** The FIFO law and the cleanliness of the stream maps, over every run of every fleet. */
  lemma {:induction false} InvOverRuns(n: nat, events: seq<Event>)
    ensures Inv(Run(NewFleet(n), events)) && |Run(NewFleet(n), events).instances| == n
  {
    if events != [] {
      InvOverRuns(n, events[..|events| - 1]);
      StepKeepsInv(Run(NewFleet(n), events[..|events| - 1]), events[|events| - 1]);
    }
  }

  // ---------- exactly once ----------

  function Count(messages: seq<Message>, m: Message): nat {
    multiset(messages)[m]
  }

  lemma {:induction false} CountFrom(messages: seq<Message>, m: Message)
    ensures Count(messages, m) == Count(From(messages, m.origin), m)
  {
    if messages != [] {
      var init, last := messages[..|messages| - 1], messages[|messages| - 1];
      assert messages == init + [last];
      CountFrom(init, m);
    }
  }

  lemma {:induction false} CountPublished(messages: seq<Message>, m: Message)
    ensures Count(Published(messages), m) == if m.published then Count(messages, m) else 0
  {
    if messages != [] {
      var init, last := messages[..|messages| - 1], messages[|messages| - 1];
      assert messages == init + [last];
      CountPublished(init, m);
    }
  }

  lemma {:induction false} SentOnce(sent: seq<Message>, m: Message)
    requires forall n :: 0 <= n < |sent| ==> sent[n].id == n
    requires m in sent
    ensures Count(sent, m) == 1
  {
    var init, last := sent[..|sent| - 1], sent[|sent| - 1];
    assert sent == init + [last];
    if last == m {
      assert m !in init;
      assert multiset(init)[m] == 0;
    } else {
      SentOnce(init, m);
    }
  }

  /**
   A broadcast is delivered to an instance's local subscribers at most once; counting what still waits in its
   channel exactly once, provided it is the sender or Redis took the message. So once the channel is drained,
   each instance has delivered each published event exactly once.
  */
  lemma ExactlyOncePerInstance(n: nat, events: seq<Event>, j: InstanceId, m: Message)
    requires j < n && m in Run(NewFleet(n), events).sent
    ensures var f := Run(NewFleet(n), events);
      j < |f.instances| &&
      var inst := f.instances[j];
      && Count(Delivered(inst.deliveries), m) + (if m.origin == j then 0 else Count(inst.inbox, m))
           == (if m.origin == j || m.published then 1 else 0)
      && (inst.inbox == [] && (m.origin == j || m.published) ==> Count(Delivered(inst.deliveries), m) == 1)
  {
    InvOverRuns(n, events);
    var f := Run(NewFleet(n), events);
    var inst := f.instances[j];
    assert InOrder(f, j, m.origin);
    SentOnce(f.sent, m);
    CountFrom(f.sent, m);
    CountFrom(Delivered(inst.deliveries), m);
    CountFrom(inst.inbox, m);
    CountFrom(Published(f.sent), m);
    CountPublished(f.sent, m);
  }

  // ---------- the service on one instance ----------

  class Service {
    const instanceId: InstanceId
    var conversationStreams: Streams
    var channel: seq<Message>
    ghost var deliveries: seq<Delivery>

    ghost function State(): Instance
      reads this
    {
      Instance(conversationStreams, deliveries, channel)
    }

    constructor (instanceId: InstanceId)
      ensures this.instanceId == instanceId && State() == Instance(map[], [], [])
    {
      this.instanceId, this.conversationStreams, this.channel, this.deliveries := instanceId, map[], [], [];
    }

    method Add(conversation: ConversationId, subject: Subject)
      modifies this
      ensures State() == old(State()).(streams := Subscribe(old(conversationStreams), conversation, subject))
    {
      if conversation !in conversationStreams {
        conversationStreams := conversationStreams[conversation := {}];
      }
      conversationStreams := conversationStreams[conversation := conversationStreams[conversation] + {subject}];
    }

    method Remove(conversation: ConversationId, subject: Subject)
      modifies this
      ensures State() == old(State()).(streams := Unsubscribe(old(conversationStreams), conversation, subject))
    {
      if conversation !in conversationStreams {
        return;
      }
      var subscribers := conversationStreams[conversation] - {subject};
      conversationStreams := conversationStreams[conversation := subscribers];
      if subscribers == {} {
        conversationStreams := conversationStreams - {conversation};
      }
    }

    /** Pushes to each subscriber, collecting the ones that throw, then drops those. */
    method DeliverToLocalSubscribers(message: Message, throwing: set<Subject>)
      requires NoEmptySets(State())
      modifies this
      ensures State() == Deliver(old(State()), message, throwing)
      ensures NoEmptySets(State())
    {
      var conversation := message.conversation;
      if conversation !in conversationStreams {
        assert {} - throwing == {};
        deliveries := deliveries + [Delivery(message, {})];
        return;
      }
      var subscribers := conversationStreams[conversation];
      var dead := Push(subscribers, throwing);
      assert subscribers - dead == subscribers - throwing;
      deliveries := deliveries + [Delivery(message, subscribers - throwing)];
      conversationStreams := conversationStreams[conversation := subscribers - dead];
      if subscribers - dead == {} {
        conversationStreams := conversationStreams - {conversation};
      }
    }

    method Push(subscribers: set<Subject>, throwing: set<Subject>) returns (dead: set<Subject>)
      ensures dead == subscribers * throwing
    {
      var rest := subscribers;
      dead := {};
      while rest != {}
        invariant rest <= subscribers
        invariant dead == (subscribers - rest) * throwing
        decreases |rest|
      {
        var subject :| subject in rest;
        rest := rest - {subject};
        if subject in throwing {
          dead := dead + {subject};
        }
      }
    }

    /** The Redis handler, on the oldest message in the channel: an echo of this instance's own broadcast is ignored. */
    method OnMessage(throwing: set<Subject>)
      requires NoEmptySets(State()) && channel != []
      modifies this
      ensures State() == Handle(old(State()), instanceId, throwing)
    {
      var message := channel[0];
      channel := channel[1..];
      if message.origin == instanceId {
        return;
      }
      DeliverToLocalSubscribers(message, throwing);
    }
  }
}
