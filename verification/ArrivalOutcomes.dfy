/** What one arrival or one reset makes of a packet queue, and what a reset in the middle of any run
    means for what comes after it. */
module ArrivalOutcomes {
  import opened Basics
  import opened Streams
  import opened PacketQueues
  import opened PacketReset

  // ----- One arrival -----------------------------------------------------------------------------

  /** The packet stands after all held ones with numbers up to its own, and before the others. */
  ghost predicate PutInPlace<T>(held: seq<Packet<T>>, p: Packet<T>, k: nat, placed: seq<Packet<T>>) {
    && k <= |held| && placed == held[..k] + [p] + held[k..]
    && (forall i | 0 <= i < k :: held[i].num <= p.num)
    && (forall i | k <= i < |held| :: held[i].num > p.num)
  }

  /** The first m packets are delivered, with numbers that follow each other and begin with the expected
      one, and the packet behind them has another number. */
  ghost predicate Delivers<T>(q: Queue<T>, placed: seq<Packet<T>>, m: nat, q': Queue<T>) {
    && m <= |placed| && q'.out == q.out + placed[..m] && q'.held == placed[m..]
    && (forall i | 0 <= i < m :: placed[i].num == placed[0].num + i)
    && (m > 0 && q.next.Some? ==> placed[0].num == q.next.value)
    && q'.next == (if m > 0 then Some(placed[m - 1].num + 1) else q.next)
    && (m < |placed| ==> q'.next.Some? && placed[m].num != q'.next.value)
  }

  /** An arrival with a number in the past changes nothing; another one is put in its place, and what can
      be delivered is. */
  lemma ArrivedExactly<T>(q: Queue<T>, p: Packet<T>) returns (k: nat, placed: seq<Packet<T>>, m: nat)
    requires Sorted(q.held)
    ensures var q' := Apply(q, Arrive(p));
            if q.next.Some? && p.num < q.next.value then q' == q
            else PutInPlace(q.held, p, k, placed) && Delivers(q, placed, m, q')
  {
    placed := Insert(q.held, p);
    k := InsertPlaces(q.held, p);
    m := Ready(q.next, placed);
    if !(q.next.Some? && p.num < q.next.value) {
      ReceiveInserts(q, p);
      DrainDelivers(q, placed, m);
    }
  }

  lemma InsertPlaces<T>(held: seq<Packet<T>>, p: Packet<T>) returns (k: nat)
    requires Sorted(held)
    ensures PutInPlace(held, p, k, Insert(held, p))
  {
    k := Place(held, p.num);
  }

  lemma DrainDelivers<T>(q: Queue<T>, placed: seq<Packet<T>>, m: nat)
    requires m == Ready(q.next, placed) && placed != []
    ensures Delivers(q, placed, m, Drain(q.(held := placed)))
  {
    DrainSplits(q.(held := placed));
    if m > 0 { assert placed[m - 1].num == placed[0].num + (m - 1); }
  }

  // ----- A reset in any run ------------------------------------------------------------------------

  function Arrivals<T>(arr: seq<Packet<T>>): (ops: seq<Op<T>>)
    ensures |ops| == |arr| && forall i | 0 <= i < |arr| :: ops[i] == Arrive(arr[i])
  {
    seq(|arr|, i requires 0 <= i < |arr| => Arrive(arr[i]))
  }

  lemma RunOneMore<T>(ops: seq<Op<T>>, op: Op<T>)
    ensures Run(ops + [op]) == Apply(Run(ops), op)
  {
    assert (ops + [op])[..|ops|] == ops;
  }

  /** After any run, a reset forgets nothing but the expected number: what is delivered after it is what
      a queue delivers that holds what was held and has delivered nothing. */
  lemma {:induction false} RunAfterReset<T>(ops: seq<Op<T>>, arr: seq<Packet<T>>)
    ensures var before, after := Run(ops), TakeFrom(Run(ops).held, arr);
            Run(ops + [ResetNumber] + Arrivals(arr)) == Queue(after.next, after.held, before.out + after.out)
  {
    var q: Queue<T> := Queue(None, Run(ops).held, []);
    OnwardWithOut(q, Run(ops).out, arr);
    RunArrivals(ops + [ResetNumber], arr);
    RunOneMore(ops, ResetNumber);
    assert WithOut(q, Run(ops).out) == Queue(None, Run(ops).held, Run(ops).out);
  }

  lemma {:induction false} RunArrivals<T>(ops: seq<Op<T>>, arr: seq<Packet<T>>)
    ensures Run(ops + Arrivals(arr)) == Onward(Run(ops), arr)
  {
    if arr == [] {
      assert ops + Arrivals(arr) == ops;
    } else {
      var front, p := arr[..|arr| - 1], arr[|arr| - 1];
      RunArrivals(ops, front);
      RunOneMore(ops + Arrivals(front), Arrive(p));
      OneArrivalMore(ops, arr, front, p);
    }
  }

  lemma OneArrivalMore<T>(ops: seq<Op<T>>, arr: seq<Packet<T>>, front: seq<Packet<T>>, p: Packet<T>)
    requires arr == front + [p]
    ensures ops + Arrivals(arr) == (ops + Arrivals(front)) + [Arrive(p)]
  {
    assert Arrivals(arr) == Arrivals(front) + [Arrive(p)];
  }

  /** So in any run, packets that were held at a reset make no difference to what is delivered after it
      exactly when the new arrivals do not bring an empty queue up to the first of them, provided that no
      new packet is equal to an old one. */
  lemma DeliveredAfterAnyReset<T>(ops: seq<Op<T>>, arr: seq<Packet<T>>)
    requires arr != [] && Apart(Run(ops).held, arr)
    ensures Run(ops + [ResetNumber] + Arrivals(arr)).out == Run(ops).out + Take(arr).out <==>
            StaysSilent(Run(ops).held, arr)
  {
    RunAfterReset(ops, arr);
    AlwaysSorted(ops);
    AfterReset(Run(ops).held, arr);
    SameRest(Run(ops).out, TakeFrom(Run(ops).held, arr).out, Take(arr).out);
  }

  lemma SameRest<T>(out: seq<T>, a: seq<T>, b: seq<T>)
    ensures out + a == out + b <==> a == b
  {
    if out + a == out + b { assert a == (out + a)[|out|..] && b == (out + b)[|out|..]; }
  }
}
