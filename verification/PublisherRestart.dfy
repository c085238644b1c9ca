/** What a restart of a publisher does to the queues of its subscribers: it numbers from 0 again,
    and they are not told. */
module PublisherRestart {
  import opened Basics
  import opened Streams
  import opened PacketQueues
  import opened PacketReset
  import opened Mqtt

  // ----- The publisher ---------------------------------------------------------------------

  datatype Act = Publish(pub: Publication) | Reconnect

  /** The sequencer's counters after these acts; connecting clears them. */
  function CountersAfter(acts: seq<Act>): map<string, nat> {
    if acts == [] then map[]
    else
      match acts[|acts| - 1]
      case Reconnect => map[]
      case Publish(pub) =>
        var before := CountersAfter(acts[..|acts| - 1]);
        before[pub.topic := NextOf(before, pub.topic)]
  }

  /** What these acts put on the wire. */
  function Sent(acts: seq<Act>): seq<Message> {
    if acts == [] then []
    else
      var front := acts[..|acts| - 1];
      match acts[|acts| - 1]
      case Reconnect => Sent(front)
      case Publish(pub) => Sent(front) + [Message(pub.topic, NextOf(CountersAfter(front), pub.topic), pub.body)]
  }

  function Publishing(pubs: seq<Publication>): seq<Act> {
    seq(|pubs|, i requires 0 <= i < |pubs| => Publish(pubs[i]))
  }

  lemma SentOneMore(acts: seq<Act>, pub: Publication)
    ensures CountersAfter(acts + [Publish(pub)]) ==
            CountersAfter(acts)[pub.topic := NextOf(CountersAfter(acts), pub.topic)]
    ensures Sent(acts + [Publish(pub)]) ==
            Sent(acts) + [Message(pub.topic, NextOf(CountersAfter(acts), pub.topic), pub.body)]
  {
    assert (acts + [Publish(pub)])[..|acts|] == acts;
  }

  lemma SentReconnect(acts: seq<Act>)
    ensures CountersAfter(acts + [Reconnect]) == map[] && Sent(acts + [Reconnect]) == Sent(acts)
  {
    assert (acts + [Reconnect])[..|acts|] == acts;
  }

  /** What is published after a restart goes out as if nothing had been published before. */
  lemma {:induction false} SentAfterReconnect(acts: seq<Act>, pubs: seq<Publication>)
    ensures CountersAfter(acts + [Reconnect] + Publishing(pubs)) == Counters(pubs)
    ensures Sent(acts + [Reconnect] + Publishing(pubs)) == Sent(acts) + Wire(pubs)
  {
    var start := acts + [Reconnect];
    if pubs == [] {
      assert start + Publishing(pubs) == start && Sent(acts) + [] == Sent(acts);
      SentReconnect(acts);
    } else {
      var front, last := pubs[..|pubs| - 1], pubs[|pubs| - 1];
      SentAfterReconnect(acts, front);
      assert start + Publishing(pubs) == (start + Publishing(front)) + [Publish(last)];
      SentOneMore(start + Publishing(front), last);
      Associative(Sent(acts), Wire(front), [Message(last.topic, NextOf(Counters(front), last.topic), last.body)]);
    }
  }

  // ----- The subscriber's queue --------------------------------------------------------------

  /** The packets numbered from n on. */
  function NotBelow<T>(arr: seq<Packet<T>>, n: int): seq<Packet<T>> {
    if arr == [] then []
    else
      var p := arr[|arr| - 1];
      NotBelow(arr[..|arr| - 1], n) + if p.num >= n then [p] else []
  }

  lemma NextGrows<T>(q: Queue<T>, p: Packet<T>)
    requires q.next.Some?
    ensures Received(q, p).next.Some? && Received(q, p).next.value >= q.next.value
  {
    if p.num >= q.next.value { DrainSplits(q.(held := Sort(q.held + [p]))); }
  }

  /** A queue that expects number n drops everything below it, and else does what it would do if
      that had not come. */
  lemma {:induction false} DropsBelow<T>(q: Queue<T>, arr: seq<Packet<T>>)
    requires q.next.Some?
    ensures Onward(q, arr) == Onward(q, NotBelow(arr, q.next.value))
    ensures Onward(q, arr).next.Some? && Onward(q, arr).next.value >= q.next.value
  {
    if arr != [] {
      var front, p := arr[..|arr| - 1], arr[|arr| - 1];
      DropsBelow(q, front);
      NextGrows(Onward(q, front), p);
      if p.num >= q.next.value {
        OnwardOne(q, NotBelow(front, q.next.value), p);
      } else {
        assert NotBelow(arr, q.next.value) == NotBelow(front, q.next.value);
      }
    }
  }

  lemma {:induction false} OnwardInTwo<T>(q: Queue<T>, a: seq<Packet<T>>, b: seq<Packet<T>>)
    ensures Onward(q, a + b) == Onward(Onward(q, a), b)
  {
    if b == [] {
      assert a + b == a;
    } else {
      var front, p := b[..|b| - 1], b[|b| - 1];
      OnwardInTwo(q, a, front);
      assert b == front + [p];
      Associative(a, front, [p]);
      OnwardOne(q, a + front, p);
      OnwardOne(Onward(q, a), front, p);
    }
  }

  /** A queue that expects n and holds nothing is where a new one is after packet n - 1. */
  lemma AfterOne<T>(p: Packet<T>, out: seq<Packet<T>>, arr: seq<Packet<T>>)
    ensures var q := Onward(Queue(Some(p.num + 1), [], out), arr);
            && Take([p] + arr).out != [] && q.out == out + Take([p] + arr).out[1..]
  {
    var s := Queue(Some(p.num + 1), [], []);
    var t := Onward(s, arr);
    FirstFlows(p, p.num);
    TakeIsOnward([p]);
    TakeIsOnward([p] + arr);
    OnwardInTwo(Fresh(), [p], arr);
    assert Queue(Some(p.num + 1), [], out) == WithOut(s, out) by { assert out + [] == out; }
    assert Queue(Some(p.num + 1), [], [p]) == WithOut(s, [p]) by { assert [p] + [] == [p]; }
    OnwardWithOut(s, out, arr);
    OnwardWithOut(s, [p], arr);
    assert ([p] + t.out)[1..] == t.out;
  }

  /** The packets from number n on, if there are any. */
  function Rest<T>(sent: seq<Packet<T>>, n: nat): seq<Packet<T>> { if n <= |sent| then sent[n..] else [] }

  /** Number n expected, nothing held, and packets numbered from 0 on that arrive in any order with
      any repetitions: what is delivered is a prefix of those from number n on, and when everything
      arrives it is all of these exactly when none but the last is repeated while held back. */
  lemma DeliversRest<T>(p: Packet<T>, out: seq<Packet<T>>, arr: seq<Packet<T>>, sent: seq<Packet<T>>)
    requires p.num >= -1 && From(arr, sent) && forall i | 0 <= i < |sent| :: sent[i].num == i
    ensures var q, n := Onward(Queue(Some(p.num + 1), [], out), arr), p.num + 1;
            && out <= q.out && q.out[|out|..] <= Rest(sent, n)
            && (From(sent, arr) && n <= |sent| ==>
                  (q.out[|out|..] == Rest(sent, n) <==> !RepeatedEarly([p] + arr, |sent|)))
  {
    var all, n := [p] + arr, p.num + 1;
    var taken := Take(all).out;
    AfterOne(p, out, arr);
    assert (out + taken[1..])[|out|..] == taken[1..];
    DeliveredNumbers(all);
    RestDelivered(p, taken, arr, sent);
    if From(sent, arr) && n <= |sent| {
      AllNumbered(p, arr, sent);
      CompleteIff(all, |sent|);
    }
  }

  lemma RestAt<T>(p: Packet<T>, x: Packet<T>, arr: seq<Packet<T>>, sent: seq<Packet<T>>)
    requires From(arr, sent) && forall i | 0 <= i < |sent| :: sent[i].num == i
    requires x in [p] + arr && x.num > p.num
    ensures 0 <= x.num < |sent| && x == sent[x.num]
  {
    var k :| 0 <= k < |arr| && arr[k] == x;
    assert arr[k] in sent;
  }

  lemma RestDelivered<T>(p: Packet<T>, taken: seq<Packet<T>>, arr: seq<Packet<T>>, sent: seq<Packet<T>>)
    requires p.num >= -1 && From(arr, sent) && forall i | 0 <= i < |sent| :: sent[i].num == i
    requires taken != [] && From(taken, [p] + arr) && forall i | 0 <= i < |taken| :: taken[i].num == p.num + i
    ensures taken[1..] <= Rest(sent, p.num + 1)
  {
    var rest := taken[1..];
    forall i | 0 <= i < |rest| ensures p.num + 1 + i < |sent| && rest[i] == sent[p.num + 1 + i] {
      assert rest[i] == taken[i + 1];
      RestAt(p, taken[i + 1], arr, sent);
    }
    if rest != [] { RestAt(p, taken[|rest|], arr, sent); }
  }

  lemma AllNumbered<T>(p: Packet<T>, arr: seq<Packet<T>>, sent: seq<Packet<T>>)
    requires p.num >= -1 && From(sent, arr) && forall i | 0 <= i < |sent| :: sent[i].num == i
    ensures forall x | p.num <= x < |sent| :: Has([p] + arr, x)
  {
    var all := [p] + arr;
    forall x | p.num <= x < |sent| ensures Has(all, x) {
      if x == p.num {
        assert all[0].num == x;
      } else {
        assert sent[x] in arr;
        var k :| 0 <= k < |arr| && arr[k] == sent[x];
        assert all[k + 1].num == x;
      }
    }
  }

  lemma InOrderNeverEarly<T>(p: Packet<T>, sent: seq<Packet<T>>)
    requires p.num >= -1 && forall i | 0 <= i < |sent| :: sent[i].num == i
    ensures !RepeatedEarly([p] + sent, |sent|)
  {
    var all := [p] + sent;
    forall j: nat | j < |all| ensures !EarlyAt(all, j, |sent|) {
      if j > 0 && all[j].num > p.num {
        forall i | 0 <= i < j ensures all[..j][i].num != all[j].num { assert all[..j][i] == all[i]; }
      }
    }
  }

  // ----- From publisher to subscriber -----------------------------------------------------------

  /** Stands for the packet that was delivered last; only its number matters. */
  function Delivered(num: int): Packet<Body> { Packet(num, Text("")) }

  /** A publisher has restarted, and the subscriber's ordered queue, which was not reset, expects
      number n.  It behaves as if the messages numbered below n had not been sent.  If it holds
      nothing, it delivers a prefix of the messages from the n-th on, and all of these, when all
      messages arrive, exactly when none but the last is repeated while held back; so when they
      arrive in order, exactly the first n are lost. */
  lemma DeliveredAfterRestart(pubs: seq<Publication>, c: Client, events: seq<Event>, topic: string, n: nat)
    requires topic in c.queues && c.queues[topic].ordered && c.queues[topic].queue.next == Some(n)
    requires forall i | 0 <= i < |events| :: Keeps(events[i], topic)
    requires From(OnTopic(Messages(events), topic), OnTopic(Wire(pubs), topic))
    ensures var r, q := Route(After(c, events), topic), c.queues[topic].queue;
            var arr, sent := OnTopic(Messages(events), topic), Enumerated(Bodies(pubs, topic));
            && r.Some? && r.value.queue == Onward(q, NotBelow(arr, n))
            && (q.held == [] ==>
                  && q.out <= r.value.queue.out
                  && var since := r.value.queue.out[|q.out|..];
                     && since <= Rest(sent, n)
                     && (From(sent, arr) && n <= |sent| ==>
                           (since == Rest(sent, n) <==> !RepeatedEarly([Delivered(n - 1)] + arr, |sent|)))
                     && (arr == sent ==> since == Rest(sent, n)))
  {
    var q, arr, sent := c.queues[topic].queue, OnTopic(Messages(events), topic), Enumerated(Bodies(pubs, topic));
    NumberedPerTopic(pubs, topic);
    ChannelTakes(c, events, topic, q);
    DropsBelow(q, arr);
    if q.held == [] {
      assert q == Queue(Some(n), [], q.out);
      DeliversRest(Delivered(n - 1), q.out, arr, sent);
      if arr == sent { InOrderNeverEarly(Delivered(n - 1), sent); }
    }
  }
}
