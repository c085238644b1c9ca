/** Messages between two ordered MQTT clients: numbered per topic by the publisher, routed
    to one packet queue per topic by the subscriber. */
module Mqtt {
  import opened Basics
  import opened Streams
  import opened PacketQueues
  import opened PacketReset
  import Fragments

  /** What is sent: a fragment of a script, or anything else. */
  datatype Body = Script(fragment: Fragments.Fragment) | Text(text: string)

  datatype Message = Message(topic: string, num: int, body: Body)

  // ----- The publisher ------------------------------------------------------------------

  datatype Publication = Publication(topic: string, body: Body)

  function NextOf(topics: map<string, nat>, topic: string): nat {
    if topic in topics then topics[topic] + 1 else 0
  }

  class TopicSequencer {
    var topics: map<string, nat>

    constructor ()
      ensures topics == map[]
    {
      topics := map[];
    }

    method NextId(channel: string) returns (id: nat)
      modifies this
      ensures id == NextOf(old(topics), channel) && topics == old(topics)[channel := id]
    {
      if channel !in topics {
        topics := topics[channel := 0];
        return 0;
      }
      topics := topics[channel := topics[channel] + 1];
      return topics[channel];
    }

    method Reset()
      modifies this
      ensures topics == map[]
    {
      topics := map[];
    }
  }

  /** The sequencer's counters after these publications. */
  function Counters(pubs: seq<Publication>): map<string, nat> {
    if pubs == [] then map[]
    else
      var before, topic := Counters(pubs[..|pubs| - 1]), pubs[|pubs| - 1].topic;
      before[topic := NextOf(before, topic)]
  }

  /** What is put on the wire for these publications. */
  function Wire(pubs: seq<Publication>): seq<Message> {
    if pubs == [] then []
    else
      var front, last := pubs[..|pubs| - 1], pubs[|pubs| - 1];
      Wire(front) + [Message(last.topic, NextOf(Counters(front), last.topic), last.body)]
  }

  /** What is published on one topic. */
  function Bodies(pubs: seq<Publication>, topic: string): seq<Body> {
    if pubs == [] then []
    else
      var last := pubs[|pubs| - 1];
      Bodies(pubs[..|pubs| - 1], topic) + if last.topic == topic then [last.body] else []
  }

  function Enumerated(bodies: seq<Body>): (packets: seq<Packet<Body>>)
    ensures |packets| == |bodies| && forall i | 0 <= i < |packets| :: packets[i] == Packet(i, bodies[i])
  {
    seq(|bodies|, i requires 0 <= i < |bodies| => Packet(i, bodies[i]))
  }

  /** The packets of one topic among some messages, in order. */
  function OnTopic(messages: seq<Message>, topic: string): seq<Packet<Body>> {
    if messages == [] then []
    else
      var last := messages[|messages| - 1];
      OnTopic(messages[..|messages| - 1], topic) + if last.topic == topic then [Packet(last.num, last.body)] else []
  }

  /** On each topic what is published goes out numbered from 0 on, whatever is published on
      other topics in between. */
  lemma {:induction false} NumberedPerTopic(pubs: seq<Publication>, topic: string)
    ensures NextOf(Counters(pubs), topic) == |Bodies(pubs, topic)|
    ensures OnTopic(Wire(pubs), topic) == Enumerated(Bodies(pubs, topic))
  {
    if pubs != [] {
      var front, last := pubs[..|pubs| - 1], pubs[|pubs| - 1];
      NumberedPerTopic(front, topic);
      OnTopicOneMore(Wire(front), Message(last.topic, NextOf(Counters(front), last.topic), last.body), topic);
      EnumeratedOneMore(Bodies(front, topic), last.body);
    }
  }

  lemma OnTopicOneMore(messages: seq<Message>, m: Message, topic: string)
    ensures OnTopic(messages + [m], topic) ==
            OnTopic(messages, topic) + if m.topic == topic then [Packet(m.num, m.body)] else []
  {
    assert (messages + [m])[..|messages|] == messages;
  }

  lemma EnumeratedOneMore(bodies: seq<Body>, body: Body)
    ensures Enumerated(bodies + [body]) == Enumerated(bodies) + [Packet(|bodies|, body)]
  {
  }

  // ----- The subscriber ---------------------------------------------------------------------

  /** A subscription to all topics that a pattern matches. */
  datatype Wildcard = Wildcard(topics: set<string>, callback: nat, ordered: bool)

  datatype Channel = Channel(queue: Queue<Body>, callback: nat, ordered: bool)

  datatype Client = Client(queues: map<string, Channel>, wildcards: seq<Wildcard>)

  datatype Event =
    | Subscribe(topic: string, callback: nat, ordered: bool)
    | SubscribeAll(wildcard: Wildcard)
    | Unsubscribe(topic: string)
    | ResetSequence(topic: string)
    | Incoming(message: Message)

  function FirstMatch(wildcards: seq<Wildcard>, topic: string): Option<Wildcard> {
    if wildcards == [] then None
    else if topic in wildcards[0].topics then Some(wildcards[0])
    else FirstMatch(wildcards[1..], topic)
  }

  function Offer(ch: Channel, p: Packet<Body>): Channel {
    if ch.ordered then ch.(queue := Received(ch.queue, p))
    else ch.(queue := ch.queue.(out := ch.queue.out + [p]))
  }

  /** The channel that a message on the topic goes to; wildcards make it on demand. */
  function Route(c: Client, topic: string): Option<Channel> {
    if topic in c.queues then Some(c.queues[topic])
    else
      match FirstMatch(c.wildcards, topic)
      case None => None
      case Some(w) => Some(Channel(Fresh(), w.callback, w.ordered))
  }

  function Step(c: Client, e: Event): Client {
    match e
    case Subscribe(topic, callback, ordered) => c.(queues := c.queues[topic := Channel(Fresh(), callback, ordered)])
    case SubscribeAll(w) => c.(wildcards := c.wildcards + [w])
    case Unsubscribe(topic) => c.(queues := c.queues - {topic})
    case ResetSequence(topic) =>
      if topic in c.queues
      then c.(queues := c.queues[topic := c.queues[topic].(queue := Forget(c.queues[topic].queue))]) else c
    case Incoming(m) =>
      match Route(c, m.topic)
      case None => c
      case Some(ch) => c.(queues := c.queues[m.topic := Offer(ch, Packet(m.num, m.body))])
  }

  function After(c: Client, events: seq<Event>): Client {
    if events == [] then c else Step(After(c, events[..|events| - 1]), events[|events| - 1])
  }

  function TopicOf(e: Event): Option<string> {
    match e
    case Subscribe(topic, _, _) => Some(topic)
    case SubscribeAll(_) => None
    case Unsubscribe(topic) => Some(topic)
    case ResetSequence(topic) => Some(topic)
    case Incoming(m) => Some(m.topic)
  }

  // ----- Topics do not disturb each other ------------------------------------------------------

  predicate Concerns(e: Event, topic: string) { TopicOf(e).None? || TopicOf(e) == Some(topic) }

  /** The events that name the topic, and all wildcard subscriptions. */
  function About(events: seq<Event>, topic: string): seq<Event> {
    if events == [] then []
    else
      var last := events[|events| - 1];
      About(events[..|events| - 1], topic) + if Concerns(last, topic) then [last] else []
  }

  ghost predicate SameFor(c: Client, d: Client, topic: string) {
    && c.wildcards == d.wildcards
    && (topic in c.queues <==> topic in d.queues)
    && (topic in c.queues ==> c.queues[topic] == d.queues[topic])
  }

  lemma StepSame(c: Client, d: Client, e: Event, topic: string)
    requires SameFor(c, d, topic)
    ensures SameFor(Step(c, e), if Concerns(e, topic) then Step(d, e) else d, topic)
  {
  }

  /** The queue of a topic, with all it has delivered, is what it would be without the
      events of other topics. */
  lemma {:induction false} TopicsAreIndependent(c: Client, events: seq<Event>, topic: string)
    ensures SameFor(After(c, events), After(c, About(events, topic)), topic)
  {
    if events != [] {
      var front, last := events[..|events| - 1], events[|events| - 1];
      TopicsAreIndependent(c, front, topic);
      StepSame(After(c, front), After(c, About(front, topic)), last, topic);
      if Concerns(last, topic) {
        assert About(events, topic)[..|About(events, topic)| - 1] == About(front, topic);
      } else {
        assert About(events, topic) == About(front, topic);
      }
    }
  }

  // ----- From publisher to subscriber --------------------------------------------------------------

  function Messages(events: seq<Event>): seq<Message> {
    if events == [] then []
    else
      var last := events[|events| - 1];
      Messages(events[..|events| - 1]) + if last.Incoming? then [last.message] else []
  }

  /** Messages on the topic go to an ordered channel that has not seen any. */
  ghost predicate Awaits(c: Client, topic: string) {
    Route(c, topic).Some? && Route(c, topic).value.ordered && Route(c, topic).value.queue == Fresh()
  }

  lemma {:induction false} FirstMatchStays(wildcards: seq<Wildcard>, w: Wildcard, topic: string)
    requires FirstMatch(wildcards, topic).Some?
    ensures FirstMatch(wildcards + [w], topic) == FirstMatch(wildcards, topic)
  {
    if topic !in wildcards[0].topics {
      FirstMatchStays(wildcards[1..], w, topic);
      assert (wildcards + [w])[1..] == wildcards[1..] + [w];
    }
  }

  /** An event that may happen while the topic's subscription stands. */
  predicate Keeps(e: Event, topic: string) { e.Incoming? || TopicOf(e) != Some(topic) }

  lemma RouteSteps(c: Client, e: Event, topic: string)
    requires Route(c, topic).Some? && Keeps(e, topic)
    ensures Route(Step(c, e), topic) ==
            if e.Incoming? && e.message.topic == topic
            then Some(Offer(Route(c, topic).value, Packet(e.message.num, e.message.body))) else Route(c, topic)
  {
    match e
    case Incoming(m) => RouteIncoming(c, m, topic);
    case SubscribeAll(w) => if topic !in c.queues { FirstMatchStays(c.wildcards, w, topic); }
    case _ =>
  }

  lemma RouteIncoming(c: Client, m: Message, topic: string)
    ensures var r := Route(c, topic);
            Route(Step(c, Incoming(m)), topic) ==
            if r.Some? && m.topic == topic then Some(Offer(r.value, Packet(m.num, m.body))) else r
  {
  }

  lemma MessagesStep(events: seq<Event>, topic: string)
    requires events != []
    ensures var before, e := OnTopic(Messages(events[..|events| - 1]), topic), events[|events| - 1];
            OnTopic(Messages(events), topic) ==
            if e.Incoming? && e.message.topic == topic then before + [Packet(e.message.num, e.message.body)] else before
  {
    var front, e := events[..|events| - 1], events[|events| - 1];
    if e.Incoming? {
      assert Messages(events)[..|Messages(events)| - 1] == Messages(front);
    } else {
      assert Messages(events) == Messages(front);
    }
  }

  /** Messages on the topic go to an ordered channel with this queue. */
  ghost predicate Routes(c: Client, topic: string, q: Queue<Body>) {
    Route(c, topic).Some? && Route(c, topic).value.ordered && Route(c, topic).value.queue == q
  }

  lemma OnwardStep(q: Queue<Body>, before: seq<Packet<Body>>, p: Packet<Body>)
    ensures Onward(q, before + [p]) == Received(Onward(q, before), p)
  {
    assert (before + [p])[..|before|] == before;
  }

  /** As long as the subscription stands, the topic's channel takes the topic's packets,
      whatever its queue already holds. */
  lemma {:induction false} ChannelTakes(c: Client, events: seq<Event>, topic: string, q: Queue<Body>)
    requires Routes(c, topic, q)
    requires forall i | 0 <= i < |events| :: Keeps(events[i], topic)
    ensures Routes(After(c, events), topic, Onward(q, OnTopic(Messages(events), topic)))
  {
    if events != [] {
      var front, e := events[..|events| - 1], events[|events| - 1];
      ChannelTakes(c, front, topic, q);
      MessagesStep(events, topic);
      RouteSteps(After(c, front), e, topic);
      if e.Incoming? { OnwardStep(q, OnTopic(Messages(front), topic), Packet(e.message.num, e.message.body)); }
    }
  }

  /** The topic goes to a channel that takes no account of sequence numbers and has handed out
      these packets. */
  ghost predicate HandsOut(c: Client, topic: string, out: seq<Packet<Body>>) {
    Route(c, topic).Some? && !Route(c, topic).value.ordered && Route(c, topic).value.queue.out == out
  }

  /** For such a channel, resets of the topic may happen as well. */
  predicate KeepsOrResets(e: Event, topic: string) { Keeps(e, topic) || e == ResetSequence(topic) }

  lemma HandsOutNext(c: Client, e: Event, topic: string, out: seq<Packet<Body>>)
    requires HandsOut(c, topic, out) && KeepsOrResets(e, topic)
    ensures if e.Incoming? && e.message.topic == topic
            then HandsOut(Step(c, e), topic, out + [Packet(e.message.num, e.message.body)])
            else HandsOut(Step(c, e), topic, out)
  {
    if Keeps(e, topic) { RouteSteps(c, e, topic); }
  }

  /** Such a channel hands out the topic's packets exactly as they arrive, and a reset has no
      effect. */
  lemma {:induction false} HandedOutAsArrived(c: Client, events: seq<Event>, topic: string, out: seq<Packet<Body>>)
    requires HandsOut(c, topic, out) && forall i | 0 <= i < |events| :: KeepsOrResets(events[i], topic)
    ensures HandsOut(After(c, events), topic, out + OnTopic(Messages(events), topic))
  {
    if events == [] {
      assert out + [] == out;
    } else {
      var front, e := events[..|events| - 1], events[|events| - 1];
      var before := OnTopic(Messages(front), topic);
      HandedOutAsArrived(c, front, topic, out);
      HandsOutNext(After(c, front), e, topic, out + before);
      MessagesStep(events, topic);
      if e.Incoming? { Associative(out, before, [Packet(e.message.num, e.message.body)]); }
    }
  }

  /** A queue that takes packets that were sent, the first one first: it delivers a prefix of
      them, and all of them exactly when all came and none but the last was repeated while held
      back. */
  lemma TakenAsSent(arr: seq<Packet<Body>>, sent: seq<Packet<Body>>)
    requires arr != [] && arr[0].num == 0 && From(arr, sent)
    requires forall i | 0 <= i < |sent| :: sent[i].num == i
    ensures Take(arr).out <= sent
    ensures From(sent, arr) ==> (Take(arr).out == sent <==> !RepeatedEarly(arr, |sent|))
    ensures Take(arr).out == sent ==> From(sent, arr)
  {
    DeliveredNumbers(arr);
    PrefixOfSent(Take(arr).out, arr, sent);
    if From(sent, arr) {
      forall x | 0 <= x < |sent| ensures Has(arr, x) {
        var i :| 0 <= i < |arr| && arr[i] == sent[x];
        assert arr[i].num == x;
      }
      CompleteIff(arr, |sent|);
    }
  }

  /** Whatever the network does with the messages of other topics, and however it repeats and
      reorders the ones of this topic, as long as the first one sent comes first: what is
      delivered is a prefix of what was published, and it is all of it exactly when all came
      and none but the last was repeated while held back. */
  lemma DeliveredAsPublished(pubs: seq<Publication>, c: Client, events: seq<Event>, topic: string)
    requires Awaits(c, topic)
    requires forall i | 0 <= i < |events| :: Keeps(events[i], topic)
    requires var arr := OnTopic(Messages(events), topic);
             arr != [] && arr[0].num == 0 && From(arr, OnTopic(Wire(pubs), topic))
    ensures Route(After(c, events), topic).Some?
    ensures var out, sent := Route(After(c, events), topic).value.queue.out, Enumerated(Bodies(pubs, topic));
            var arr := OnTopic(Messages(events), topic);
            && out <= sent
            && (From(sent, arr) ==> (out == sent <==> !RepeatedEarly(arr, |sent|)))
            && (out == sent ==> From(sent, arr))
  {
    var arr := OnTopic(Messages(events), topic);
    NumberedPerTopic(pubs, topic);
    ChannelTakes(c, events, topic, Fresh());
    TakeIsOnward(arr);
    TakenAsSent(arr, Enumerated(Bodies(pubs, topic)));
  }

  // ----- A topic that is reset ------------------------------------------------------------------

  /** All queues of the client keep what they hold in order. */
  ghost predicate Ordered(c: Client) {
    forall t | t in c.queues :: Sorted(c.queues[t].queue.held)
  }

  lemma StaysOrdered(c: Client, e: Event)
    requires Ordered(c)
    ensures Ordered(Step(c, e))
  {
    if e.Incoming? && Route(c, e.message.topic).Some? {
      ReceivedSorted(Route(c, e.message.topic).value.queue, Packet(e.message.num, e.message.body));
    }
  }

  lemma {:induction false} AlwaysOrdered(events: seq<Event>)
    ensures Ordered(After(Client(map[], []), events))
  {
    if events != [] {
      var c, e := After(Client(map[], []), events[..|events| - 1]), events[|events| - 1];
      AlwaysOrdered(events[..|events| - 1]);
      StaysOrdered(c, e);
    }
  }

  /** After a reset of both ends: what a queue with old packets delivers of the new ones. */
  lemma TakenAfterReset(old0: seq<Packet<Body>>, arr: seq<Packet<Body>>, sent: seq<Packet<Body>>)
    requires Sorted(old0) && arr != [] && arr[0].num == 0 && From(arr, sent)
    requires forall i | 0 <= i < |sent| :: sent[i].num == i
    ensures StaysSilent(old0, arr) ==> TakeFrom(old0, arr).out <= sent
    ensures !StaysSilent(old0, arr) ==> old0[0] in TakeFrom(old0, arr).out
    ensures Apart(old0, arr) && From(sent, arr) ==>
              (TakeFrom(old0, arr).out == sent <==> !RepeatedEarly(arr, |sent|) && StaysSilent(old0, arr))
  {
    AfterReset(old0, arr);
    TakenAsSent(arr, sent);
    if Apart(old0, arr) && From(sent, arr) && old0 != [] { NotDelivered(sent, old0, arr); }
  }

  /** A subscribed topic whose numbers are reset, by the publisher and by the subscriber.  What
      is delivered from then on is a prefix of what is published from then on if the packets held
      from before stay silent; else one of these is delivered among it.  When all that is
      published arrives, it is delivered exactly if also none of it but the last is repeated
      while held back. */
  lemma DeliveredAfterReset(pubs: seq<Publication>, c: Client, events: seq<Event>, topic: string)
    requires topic in c.queues && c.queues[topic].ordered && Sorted(c.queues[topic].queue.held)
    requires forall i | 0 <= i < |events| :: Keeps(events[i], topic)
    requires var arr := OnTopic(Messages(events), topic);
             arr != [] && arr[0].num == 0 && From(arr, OnTopic(Wire(pubs), topic))
    ensures var r := Route(After(Step(c, ResetSequence(topic)), events), topic);
            var q, sent := c.queues[topic].queue, Enumerated(Bodies(pubs, topic));
            var arr := OnTopic(Messages(events), topic);
            && r.Some? && q.out <= r.value.queue.out
            && var since := r.value.queue.out[|q.out|..];
               && (StaysSilent(q.held, arr) ==> since <= sent)
               && (!StaysSilent(q.held, arr) ==> q.held[0] in since)
               && (Apart(q.held, arr) && From(sent, arr) ==>
                     (since == sent <==> !RepeatedEarly(arr, |sent|) && StaysSilent(q.held, arr)))
  {
    var q, sent, arr := c.queues[topic].queue, Enumerated(Bodies(pubs, topic)), OnTopic(Messages(events), topic);
    NumberedPerTopic(pubs, topic);
    assert q.out + [] == q.out;
    assert Forget(q) == WithOut(Queue(None, q.held, []), q.out);
    ChannelTakes(Step(c, ResetSequence(topic)), events, topic, Forget(q));
    OnwardWithOut(Queue(None, q.held, []), q.out, arr);
    TakenAfterReset(q.held, arr, sent);
    assert (q.out + TakeFrom(q.held, arr).out)[|q.out|..] == TakeFrom(q.held, arr).out;
  }

  lemma PrefixOfSent(out: seq<Packet<Body>>, arr: seq<Packet<Body>>, sent: seq<Packet<Body>>)
    requires From(out, arr) && From(arr, sent) && out != []
    requires forall i | 0 <= i < |out| :: out[i].num == i
    requires forall i | 0 <= i < |sent| :: sent[i].num == i
    ensures out <= sent && sent != []
  {
    forall i | 0 <= i < |out| ensures i < |sent| && out[i] == sent[i] {
      assert out[i] in arr;
      var k :| 0 <= k < |arr| && arr[k] == out[i];
      assert arr[k] in sent;
      var j :| 0 <= j < |sent| && sent[j] == arr[k];
    }
    var last := |out| - 1;
    assert out[last] in arr && last < |sent|;
  }

  // ----- The subscriber as code ---------------------------------------------------------------------

  /** The client after a message on a known topic. */
  function Offered(c: Client, m: Message): Client
    requires m.topic in c.queues
  {
    c.(queues := c.queues[m.topic := Offer(c.queues[m.topic], Packet(m.num, m.body))])
  }

  lemma WildcardOffers(c: Client, w: Wildcard, m: Message)
    requires m.topic !in c.queues && FirstMatch(c.wildcards, m.topic) == Some(w)
    ensures Step(c, Incoming(m)) == Offered(Step(c, Subscribe(m.topic, w.callback, w.ordered)), m)
  {
  }

  class OrderedClient {
    var queues: map<string, PacketQueue<Body>>
    var wildcards: seq<Wildcard>

    /** The client state that this object implements. */
    ghost var view: Client

    ghost predicate Valid()
      reads this, queues.Values
    {
      && wildcards == view.wildcards
      && (forall t :: t in queues <==> t in view.queues)
      && (forall t | t in queues :: Holds(queues[t], view.queues[t]))
      && (forall t, u | t in queues && u in queues && t != u :: queues[t] != queues[u])
    }

    ghost predicate Holds(q: PacketQueue<Body>, ch: Channel)
      reads q
    {
      q.View() == ch.queue && q.callback == ch.callback && q.reorder == ch.ordered
    }

    constructor ()
      ensures Valid() && view == Client(map[], [])
    {
      queues, wildcards := map[], [];
      view := Client(map[], []);
    }

    method SubscribeTopic(topic: string, callback: nat, ordered: bool)
      requires Valid()
      modifies this
      ensures Valid() && view == Step(old(view), Subscribe(topic, callback, ordered))
      ensures topic in queues && fresh(queues[topic])
    {
      var queue := new PacketQueue<Body>(callback, ordered);
      queues := queues[topic := queue];
      view := Step(view, Subscribe(topic, callback, ordered));
    }

    method SubscribeWildcard(w: Wildcard)
      requires Valid()
      modifies this`wildcards, this`view
      ensures Valid() && view == Step(old(view), SubscribeAll(w))
    {
      wildcards := wildcards + [w];
      view := Step(view, SubscribeAll(w));
    }

    method UnsubscribeTopic(topic: string) returns (known: bool)
      requires Valid()
      modifies this`queues, this`view
      ensures known <==> topic in old(view).queues
      ensures Valid() && view == Step(old(view), Unsubscribe(topic))
    {
      known := topic in queues;
      queues := queues - {topic};
      view := Step(view, Unsubscribe(topic));
    }

    method ResetTopic(topic: string)
      requires Valid()
      modifies this`view, queues.Values
      ensures Valid() && view == Step(old(view), ResetSequence(topic))
    {
      view := Step(view, ResetSequence(topic));
      if topic in queues { queues[topic].Reset(); }
    }

    /** The first wildcard subscription that covers the topic. */
    method FindWildcard(topic: string) returns (w: Option<Wildcard>)
      ensures w == FirstMatch(wildcards, topic)
    {
      assert wildcards[0..] == wildcards;
      for i := 0 to |wildcards|
        invariant FirstMatch(wildcards[i..], topic) == FirstMatch(wildcards, topic)
      {
        assert wildcards[i..][1..] == wildcards[i + 1..];
        if topic in wildcards[i].topics { return Some(wildcards[i]); }
      }
      return None;
    }

    /** A message without a sequence number or body, or that is not JSON at all, is ignored. */
    method OnReceive(decoded: Option<Message>)
      requires Valid()
      modifies this, queues.Values
      ensures Valid() && view == if decoded.None? then old(view) else Step(old(view), Incoming(decoded.value))
    {
      if decoded.None? { return; }
      var m := decoded.value;
      if m.topic !in queues {
        var w := FindWildcard(m.topic);
        if w.None? { return; }
        SubscribeTopic(m.topic, w.value.callback, w.value.ordered);
        WildcardOffers(old(view), w.value, m);
      }
      Deliver(m);
    }

    method Deliver(m: Message)
      requires Valid() && m.topic in queues
      modifies this`view, queues[m.topic]
      ensures Valid() && m.topic in old(view).queues
      ensures view == Offered(old(view), m)
    {
      view := Offered(view, m);
      queues[m.topic].Receive(m.num, m.body);
    }
  }
}
