/** What a reset of a packet queue leaves behind: the packets held back before it are still
    there when new packets with numbers from the start arrive. */
module PacketReset {
  import opened Basics
  import opened Streams
  import opened PacketQueues

  /** The queue after these packets arrived and no reset. */
  function Onward<T>(q: Queue<T>, arr: seq<Packet<T>>): Queue<T> {
    if arr == [] then q else Received(Onward(q, arr[..|arr| - 1]), arr[|arr| - 1])
  }

  /** The queue after a reset and these arrivals, with packets held from before. */
  function TakeFrom<T>(held: seq<Packet<T>>, arr: seq<Packet<T>>): Queue<T> {
    Onward(Queue(None, held, []), arr)
  }

  lemma {:induction false} TakeIsOnward<T>(arr: seq<Packet<T>>)
    ensures Take(arr) == Onward(Fresh(), arr)
  {
    if arr != [] { TakeIsOnward(arr[..|arr| - 1]); }
  }

  function WithOut<T>(q: Queue<T>, out: seq<Packet<T>>): Queue<T> { q.(out := out + q.out) }

  lemma DrainWithOut<T>(q: Queue<T>, out: seq<Packet<T>>)
    ensures Drain(WithOut(q, out)) == WithOut(Drain(q), out)
  {
    DrainSplits(q);
    DrainSplits(WithOut(q, out));
    Associative(out, q.out, q.held[..Ready(q.next, q.held)]);
  }

  /** What was delivered before does not matter for what is delivered next. */
  lemma {:induction false} OnwardWithOut<T>(q: Queue<T>, out: seq<Packet<T>>, arr: seq<Packet<T>>)
    ensures Onward(WithOut(q, out), arr) == WithOut(Onward(q, arr), out)
  {
    if arr != [] {
      var p, q' := arr[|arr| - 1], Onward(q, arr[..|arr| - 1]);
      OnwardWithOut(q, out, arr[..|arr| - 1]);
      if !(q'.next.Some? && p.num < q'.next.value) { DrainWithOut(q'.(held := Sort(q'.held + [p])), out); }
    }
  }

  // ----- When old packets stay held ---------------------------------------------------------

  /** Packets numbered from x on stay held: a number below x is missing among the arrivals, or
      one below x is repeated early and blocks the queue. */
  ghost predicate Silent<T>(arr: seq<Packet<T>>, x: int)
    requires arr != []
  {
    MissingBelow(arr, x) || RepeatedEarly(arr, x + 1)
  }

  ghost predicate MissingBelow<T>(arr: seq<Packet<T>>, x: int)
    requires arr != []
  {
    exists e | arr[0].num < e < x :: !Has(arr, e)
  }

  ghost predicate StaysSilent<T>(old0: seq<Packet<T>>, arr: seq<Packet<T>>)
    requires arr != []
  {
    old0 == [] || Silent(arr, old0[0].num)
  }

  /** The queue expects a number below x, or x itself but is blocked before it. */
  predicate Short<T>(q: Queue<T>, x: int) {
    q.next.Some? && (q.next.value < x || (q.next.value == x && q.held != [] && q.held[0].num < x))
  }

  lemma BlockedIsShort<T>(q: Queue<T>, d: int, x: int)
    requires Blocked(q, d) && d < x
    ensures Short(q, x)
  {
    NumberedHas(q.held, d);
    if q.next.value == x {
      var i :| 0 <= i < |q.held| && q.held[i].num == d;
      assert q.held[0].num <= q.held[i].num;
    }
  }

  lemma FlowingShort<T>(q: Queue<T>, arr: seq<Packet<T>>, x: int)
    requires arr != [] && Flowing(q, arr, x + 1)
    ensures Short(q, x) <==> MissingBelow(arr, x)
  {
    var n := q.next.value;
    if n < x {
      assert !Has(q.held, n);
      assert !Has(arr, n);
    }
  }

  /** The condition on the arrivals says how far they bring an empty queue. */
  lemma SilentIsShort<T>(arr: seq<Packet<T>>, x: int)
    requires arr != []
    ensures Silent(arr, x) <==> Short(Take(arr), x)
  {
    FlowingOrBlocked(arr, x + 1);
    if RepeatedEarly(arr, x + 1) {
      var d :| arr[0].num < d < x && Blocked(Take(arr), d);
      BlockedIsShort(Take(arr), d, x);
    } else {
      FlowingShort(Take(arr), arr, x);
    }
  }

  /** What is not silent is not made silent by more arrivals. */
  lemma SilentBefore<T>(arr: seq<Packet<T>>, p: Packet<T>, x: int)
    requires arr != [] && Silent(arr + [p], x)
    ensures Silent(arr, x)
  {
    var all := arr + [p];
    RepeatedSplits(arr, p, x + 1);
    if e :| arr[0].num < e < x && !Has(all, e) {
      HasOneMore(arr, p, e);
    } else if EarlyAt(all, |arr|, x + 1) {
      assert all[..|arr|] == arr;
    }
  }

  // ----- The queue with and without old packets --------------------------------------------------

  /** The numbered packets of the first are those of the second, then those of the third. */
  ghost predicate Mixed<T>(all: seq<Packet<T>>, a: seq<Packet<T>>, b: seq<Packet<T>>) {
    && Sorted(all) && Sorted(a) && Sorted(b)
    && forall n :: MixedAt(all, a, b, n)
  }

  ghost predicate MixedAt<T>(all: seq<Packet<T>>, a: seq<Packet<T>>, b: seq<Packet<T>>, n: int) {
    Numbered(all, n) == Numbered(a, n) + Numbered(b, n)
  }

  /** Both queues are in the same place, and the first one holds the old packets besides. */
  ghost predicate Besides<T>(q: Queue<T>, q0: Queue<T>, old0: seq<Packet<T>>) {
    q.next == q0.next && q.out == q0.out && Mixed(q.held, old0, q0.held)
  }

  lemma MixedInsert<T>(all: seq<Packet<T>>, a: seq<Packet<T>>, b: seq<Packet<T>>, p: Packet<T>)
    requires Mixed(all, a, b)
    ensures Mixed(Insert(all, p), a, Insert(b, p))
  {
    InsertSorts(all, p);
    InsertSorts(b, p);
    forall n ensures MixedAt(Insert(all, p), a, Insert(b, p), n) {
      assert MixedAt(all, a, b, n);
      InsertIsStable(all, p, n);
      InsertIsStable(b, p, n);
      Associative(Numbered(a, n), Numbered(b, n), if p.num == n then [p] else []);
    }
  }

  lemma HeadNumbered<T>(s: seq<Packet<T>>, n: int)
    requires s != []
    ensures Numbered(s, n) == (if n == s[0].num then [s[0]] else []) + Numbered(s[1..], n)
  {
    assert s == [s[0]] + s[1..];
    NumberedAppend([s[0]], s[1..], n);
    NumberedOne(s[0], n);
  }

  lemma BelowFirst<T>(s: seq<Packet<T>>, n: int)
    requires Sorted(s) && (s != [] ==> n < s[0].num)
    ensures Numbered(s, n) == []
  {
    NoneNumbered(s, n);
  }

  /** The first of the packets with the smallest number. */
  lemma SmallestFirst<T>(all: seq<Packet<T>>, m: int)
    requires Sorted(all) && Numbered(all, m) != [] && forall n | n < m :: Numbered(all, n) == []
    ensures all != [] && all[0].num == m && all[0] == Numbered(all, m)[0]
  {
    NumberedHas(all, m);
    var i :| 0 <= i < |all| && all[i].num == m;
    var n := all[0].num;
    assert i > 0 ==> n <= all[i].num;
    HeadNumbered(all, n);
    HeadNumbered(all, m);
  }

  lemma MixedEmpty<T>(all: seq<Packet<T>>, a: seq<Packet<T>>, b: seq<Packet<T>>)
    requires Mixed(all, a, b) && a == [] && b == []
    ensures all == []
  {
    var n := if all == [] then 0 else all[0].num;
    assert MixedAt(all, a, b, n);
    if all != [] { HeadNumbered(all, n); }
  }

  /** An old packet with the smallest number comes first. */
  lemma OldFirst<T>(all: seq<Packet<T>>, a: seq<Packet<T>>, b: seq<Packet<T>>)
    requires Mixed(all, a, b) && a != [] && (b != [] ==> a[0].num <= b[0].num)
    ensures all != [] && all[0] == a[0]
  {
    var m := a[0].num;
    forall n | n < m ensures Numbered(all, n) == [] {
      assert MixedAt(all, a, b, n);
      BelowFirst(a, n);
      BelowFirst(b, n);
    }
    HeadNumbered(a, m);
    assert MixedAt(all, a, b, m);
    SmallestFirst(all, m);
  }

  /** Otherwise the first new packet does. */
  lemma NewFirst<T>(all: seq<Packet<T>>, a: seq<Packet<T>>, b: seq<Packet<T>>)
    requires Mixed(all, a, b) && b != [] && (a != [] ==> b[0].num < a[0].num)
    ensures all != [] && all[0] == b[0]
  {
    var m := b[0].num;
    forall n | n < m ensures Numbered(all, n) == [] {
      assert MixedAt(all, a, b, n);
      BelowFirst(a, n);
      BelowFirst(b, n);
    }
    HeadNumbered(b, m);
    BelowFirst(a, m);
    assert MixedAt(all, a, b, m);
    SmallestFirst(all, m);
  }

  lemma WithoutFront<T>(one: seq<T>, s: seq<T>, a: seq<T>, t: seq<T>)
    requires one + s == a + (one + t) && (one == [] || a == [])
    ensures s == a + t
  {
    if one == [] {
      assert one + s == s && one + t == t;
    } else {
      assert (one + s)[|one|..] == s && (a + (one + t))[|one|..] == t && a + t == t;
    }
  }

  lemma NewTaken<T>(all: seq<Packet<T>>, a: seq<Packet<T>>, b: seq<Packet<T>>)
    requires Mixed(all, a, b) && b != [] && (a != [] ==> b[0].num < a[0].num)
    requires all != [] && all[0] == b[0]
    ensures Mixed(all[1..], a, b[1..])
  {
    SortedBack(all, 1);
    SortedBack(b, 1);
    forall n ensures MixedAt(all[1..], a, b[1..], n) {
      assert MixedAt(all, a, b, n);
      HeadNumbered(all, n);
      HeadNumbered(b, n);
      if n == b[0].num { BelowFirst(a, n); }
      WithoutFront(if n == b[0].num then [b[0]] else [], Numbered(all[1..], n), Numbered(a, n), Numbered(b[1..], n));
    }
  }

  /** Draining both queues: either the old packets stay out of the way, or the first of them is
      delivered. */
  lemma {:induction false} DrainBoth<T>(q: Queue<T>, q0: Queue<T>, old0: seq<Packet<T>>)
    requires Besides(q, q0, old0)
    requires old0 != [] && q.next.Some? ==> q.next.value <= old0[0].num
    ensures if old0 == [] || Short(Drain(q0), old0[0].num) then Besides(Drain(q), Drain(q0), old0)
            else old0[0] in Drain(q).out
    decreases |q0.held|
  {
    if q0.held != [] && (old0 != [] ==> q0.held[0].num < old0[0].num) {
      var h := q0.held[0];
      NewFirst(q.held, old0, q0.held);
      if q.next.None? || h.num == q.next.value {
        NewTaken(q.held, old0, q0.held);
        var next, out := Some(h.num + 1), q.out + [h];
        DrainBoth(Queue(next, q.held[1..], out), Queue(next, q0.held[1..], out), old0);
      }
    } else if old0 == [] {
      MixedEmpty(q.held, old0, q0.held);
    } else {
      OldFirst(q.held, old0, q0.held);
      DrainOld(q, q0, old0[0]);
    }
  }

  lemma DrainOld<T>(q: Queue<T>, q0: Queue<T>, p: Packet<T>)
    requires q.next == q0.next && q.held != [] && q.held[0] == p && (q0.held != [] ==> p.num <= q0.held[0].num)
    requires q.next.Some? ==> q.next.value <= p.num
    ensures if Short(Drain(q0), p.num) then Drain(q) == q && Drain(q0) == q0 else p in Drain(q).out
  {
    DrainSplits(q0);
    if q.next.None? || q.next.value == p.num {
      DrainSplits(q);
      assert Drain(q).out[|q.out|] == p;
    }
  }

  lemma ReceiveBoth<T>(q: Queue<T>, q0: Queue<T>, old0: seq<Packet<T>>, p: Packet<T>)
    requires Besides(q, q0, old0)
    requires old0 != [] && q.next.Some? ==> Short(q0, old0[0].num)
    ensures if old0 == [] || Short(Received(q0, p), old0[0].num) then Besides(Received(q, p), Received(q0, p), old0)
            else old0[0] in Received(q, p).out
  {
    if q.next.None? || p.num >= q.next.value {
      ReceiveInserts(q, p);
      ReceiveInserts(q0, p);
      MixedInsert(q.held, old0, q0.held, p);
      DrainBoth(q.(held := Insert(q.held, p)), q0.(held := Insert(q0.held, p)), old0);
    }
  }

  lemma OutGrows<T>(q: Queue<T>, p: Packet<T>)
    ensures q.out <= Received(q, p).out
  {
    DrainSplits(q.(held := Sort(q.held + [p])));
  }

  lemma StartBesides<T>(old0: seq<Packet<T>>)
    requires Sorted(old0)
    ensures Besides(Queue(None, old0, []), Fresh(), old0)
  {
    forall n ensures MixedAt(old0, old0, [], n) {
      assert Numbered<T>([], n) == [];
    }
  }

  lemma TakeOneMore<T>(old0: seq<Packet<T>>, arr: seq<Packet<T>>, front: seq<Packet<T>>, p: Packet<T>)
    requires arr == front + [p]
    ensures TakeFrom(old0, arr) == Received(TakeFrom(old0, front), p) && Take(arr) == Received(Take(front), p)
  {
    assert arr[..|arr| - 1] == front;
  }

  lemma NextBesides<T>(old0: seq<Packet<T>>, arr: seq<Packet<T>>, q: Queue<T>, q0: Queue<T>, p: Packet<T>)
    requires arr != [] && Take(arr) == Received(q0, p) && TakeFrom(old0, arr) == Received(q, p)
    requires Besides(q, q0, old0) && (old0 != [] && q.next.Some? ==> Short(q0, old0[0].num))
    ensures if StaysSilent(old0, arr) then Besides(TakeFrom(old0, arr), Take(arr), old0)
            else old0[0] in TakeFrom(old0, arr).out
  {
    ReceiveBoth(q, q0, old0, p);
    if old0 != [] { SilentIsShort(arr, old0[0].num); }
  }

  lemma {:induction false} OldBesides<T>(old0: seq<Packet<T>>, arr: seq<Packet<T>>)
    requires Sorted(old0) && arr != []
    ensures if StaysSilent(old0, arr) then Besides(TakeFrom(old0, arr), Take(arr), old0)
            else old0[0] in TakeFrom(old0, arr).out
  {
    var front, p := arr[..|arr| - 1], arr[|arr| - 1];
    TakeOneMore(old0, arr, front, p);
    if front == [] {
      StartBesides(old0);
      NextBesides(old0, arr, Queue(None, old0, []), Fresh(), p);
    } else {
      OldBesides(old0, front);
      if StaysSilent(old0, front) {
        if old0 != [] { SilentIsShort(front, old0[0].num); }
        NextBesides(old0, arr, TakeFrom(old0, front), Take(front), p);
      } else {
        OutGrows(TakeFrom(old0, front), p);
        assert arr == front + [p];
        if Silent(arr, old0[0].num) { SilentBefore(front, p, old0[0].num); }
      }
    }
  }

  /** No packet held from before is equal to one that arrives, so that it shows in what is
      delivered. */
  ghost predicate Apart<T>(old0: seq<Packet<T>>, arr: seq<Packet<T>>) { forall p | p in old0 :: p !in arr }

  lemma NotDelivered<T>(out: seq<Packet<T>>, old0: seq<Packet<T>>, arr: seq<Packet<T>>)
    requires From(out, arr) && Apart(old0, arr) && old0 != []
    ensures old0[0] !in out
  {
    assert old0[0] in old0;
    forall i | 0 <= i < |out| ensures out[i] != old0[0] {
      assert out[i] in arr;
    }
  }

  /** After a reset, what arrives is delivered as if nothing were held from before exactly when
      some number below the first held one is missing, or the queue is blocked below it; else
      the first held packet is delivered as if it were new. */
  lemma AfterReset<T>(old0: seq<Packet<T>>, arr: seq<Packet<T>>)
    requires Sorted(old0) && arr != []
    ensures StaysSilent(old0, arr) ==> TakeFrom(old0, arr).out == Take(arr).out
    ensures !StaysSilent(old0, arr) ==> old0[0] in TakeFrom(old0, arr).out
    ensures Apart(old0, arr) ==> (TakeFrom(old0, arr).out == Take(arr).out <==> StaysSilent(old0, arr))
  {
    OldBesides(old0, arr);
    DeliveredNumbers(arr);
    if Apart(old0, arr) && old0 != [] { NotDelivered(Take(arr).out, old0, arr); }
  }

  lemma ReceiveLower<T>(next: Option<int>, out: seq<Packet<T>>, stale: Packet<T>, p: Packet<T>)
    requires p.num < stale.num && (next.None? || next.value == p.num)
    ensures Received(Queue(next, [stale], out), p) == Drain(Queue(Some(p.num + 1), [stale], out + [p]))
  {
    var q := Queue(next, [stale], out);
    ReceiveInserts(q, p);
    assert Insert([stale], p) == [p] + [stale];
    DrainFirst(q.(held := [p] + [stale]), p, [stale]);
  }

  lemma StaleStays<T>(next: Option<int>, out: seq<Packet<T>>, stale: Packet<T>, p: Packet<T>)
    requires p.num + 1 < stale.num && (next.None? || next.value == p.num)
    ensures Received(Queue(next, [stale], out), p) == Queue(Some(p.num + 1), [stale], out + [p])
  {
    ReceiveLower(next, out, stale, p);
    DrainFirst(Queue(Some(p.num + 1), [stale], out + [p]), stale, []);
  }

  lemma StaleFollows<T>(next: Option<int>, out: seq<Packet<T>>, stale: Packet<T>, p: Packet<T>)
    requires p.num + 1 == stale.num && (next.None? || next.value == p.num)
    ensures Received(Queue(next, [stale], out), p) == Queue(Some(stale.num + 1), [], out + [p] + [stale])
  {
    ReceiveLower(next, out, stale, p);
    DrainFirst(Queue(Some(p.num + 1), [stale], out + [p]), stale, []);
  }

  lemma OnwardOne<T>(q: Queue<T>, arr: seq<Packet<T>>, p: Packet<T>)
    ensures Onward(q, arr + [p]) == Received(Onward(q, arr), p)
  {
    assert (arr + [p])[..|arr|] == arr;
  }

  lemma OnwardThree<T>(q: Queue<T>, a: Packet<T>, b: Packet<T>, c: Packet<T>)
    ensures Onward(q, [a, b, c]) == Received(Received(Received(q, a), b), c)
  {
    OnwardOne(q, [], a);
    OnwardOne(q, [a], b);
    OnwardOne(q, [a, b], c);
    assert [] + [a] == [a] && [a] + [b] == [a, b] && [a, b] + [c] == [a, b, c];
  }

  /** With packet 2 held from before, new packets 0, 1 and 2 in order: the old packet 2 is
      delivered and the new one is dropped. */
  lemma OldReplacesNew<T>(stale: Packet<T>, a: Packet<T>, b: Packet<T>, c: Packet<T>)
    requires a.num == 0 && b.num == 1 && c.num == 2 && stale.num == 2
    ensures TakeFrom([stale], [a, b, c]) == Queue(Some(3), [], [a, b, stale])
  {
    OnwardThree(Queue(None, [stale], []), a, b, c);
    StaleStays(None, [], stale, a);
    StaleFollows(Some(1), [] + [a], stale, b);
    assert [] + [a] + [b] + [stale] == [a, b, stale];
  }
}
