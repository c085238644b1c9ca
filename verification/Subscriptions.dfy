/** What each event makes of a client's queues and wildcard subscriptions. */
module Subscriptions {
  import opened Streams
  import opened PacketQueues
  import opened Mqtt

  /** Nothing but the channel of this topic. */
  predicate OnlyQueue(c: Client, c': Client, topic: string, ch: Channel) {
    c'.wildcards == c.wildcards && c'.queues == c.queues[topic := ch]
  }

  /** Of the wildcards that cover a topic the one subscribed first counts. */
  lemma {:induction false} FirstWildcard(wildcards: seq<Wildcard>, topic: string)
    ensures match FirstMatch(wildcards, topic)
            case None => forall i | 0 <= i < |wildcards| :: topic !in wildcards[i].topics
            case Some(w) => exists i :: 0 <= i < |wildcards| && FirstAt(wildcards, topic, i) && wildcards[i] == w
  {
    if wildcards != [] {
      if topic in wildcards[0].topics {
        assert FirstAt(wildcards, topic, 0);
      } else {
        FirstWildcard(wildcards[1..], topic);
        if FirstMatch(wildcards[1..], topic).Some? {
          var i :| 0 <= i < |wildcards[1..]| && FirstAt(wildcards[1..], topic, i)
                   && wildcards[1..][i] == FirstMatch(wildcards[1..], topic).value;
          LaterFirst(wildcards, topic, i);
        } else {
          forall i | 0 <= i < |wildcards| ensures topic !in wildcards[i].topics {
            if i > 0 { assert wildcards[i] == wildcards[1..][i - 1]; }
          }
        }
      }
    }
  }

  predicate FirstAt(wildcards: seq<Wildcard>, topic: string, i: nat)
    requires i < |wildcards|
  {
    topic in wildcards[i].topics && forall j | 0 <= j < i :: topic !in wildcards[j].topics
  }

  lemma LaterFirst(wildcards: seq<Wildcard>, topic: string, i: nat)
    requires wildcards != [] && topic !in wildcards[0].topics
    requires i < |wildcards[1..]| && FirstAt(wildcards[1..], topic, i)
    ensures FirstAt(wildcards, topic, i + 1) && wildcards[i + 1] == wildcards[1..][i]
  {
    forall j | 0 <= j < i + 1 ensures topic !in wildcards[j].topics {
      if j > 0 { assert wildcards[j] == wildcards[1..][j - 1]; }
    }
  }

  /** A subscription makes a new queue for its topic; one with a wildcard is the last to be asked;
      unsubscribing takes the queue away; a reset forgets the expected number of a known topic. */
  lemma Subscribing(c: Client, topic: string, callback: nat, ordered: bool, w: Wildcard)
    ensures OnlyQueue(c, Step(c, Subscribe(topic, callback, ordered)), topic,
              Channel(Queue(None, [], []), callback, ordered))
    ensures Step(c, SubscribeAll(w)) == Client(c.queues, c.wildcards + [w])
    ensures Step(c, Unsubscribe(topic)) == Client(c.queues - {topic}, c.wildcards)
    ensures topic !in c.queues ==> Step(c, ResetSequence(topic)) == c
    ensures topic in c.queues ==>
              var ch := c.queues[topic];
              OnlyQueue(c, Step(c, ResetSequence(topic)), topic,
                Channel(Queue(None, ch.queue.held, ch.queue.out), ch.callback, ch.ordered))
  {
  }

  /** What a channel makes of a packet. */
  predicate Took(ch: Channel, ch': Channel, p: Packet<Body>) {
    && ch'.callback == ch.callback && ch'.ordered == ch.ordered
    && if ch.ordered then ch'.queue == Received(ch.queue, p)
       else ch'.queue == Queue(ch.queue.next, ch.queue.held, ch.queue.out + [p])
  }

  /** A message goes to its topic's queue and to no other; without one, to a new queue for the first
      wildcard that covers the topic; and nowhere when none does. */
  lemma Receiving(c: Client, m: Message)
    ensures var c', p := Step(c, Incoming(m)), Packet(m.num, m.body);
            if m.topic in c.queues
            then m.topic in c'.queues && OnlyQueue(c, c', m.topic, c'.queues[m.topic])
                 && Took(c.queues[m.topic], c'.queues[m.topic], p)
            else
              match FirstMatch(c.wildcards, m.topic)
              case None => c' == c
              case Some(w) =>
                && m.topic in c'.queues && OnlyQueue(c, c', m.topic, c'.queues[m.topic])
                && Took(Channel(Queue(None, [], []), w.callback, w.ordered), c'.queues[m.topic], p)
  {
  }
}
