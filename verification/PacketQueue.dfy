/** The queue that puts packets of one topic back in order by their sequence numbers. */
module PacketQueues {
  import opened Basics
  import opened Streams

  datatype Packet<T> = Packet(num: int, body: T)

  // ----- Stable sorting by number -------------------------------------------------------

  /** Where a packet with number n goes: after all packets up to n. */
  function Place<T>(s: seq<Packet<T>>, n: int): (k: nat)
    ensures k <= |s| && (k > 0 ==> s[k - 1].num <= n)
    ensures forall j | k <= j < |s| :: s[j].num > n
  {
    if s == [] || s[|s| - 1].num <= n then |s| else Place(s[..|s| - 1], n)
  }

  function Insert<T>(s: seq<Packet<T>>, p: Packet<T>): (r: seq<Packet<T>>)
    ensures |r| == |s| + 1
  {
    var k := Place(s, p.num);
    s[..k] + [p] + s[k..]
  }

  function Sort<T>(s: seq<Packet<T>>): seq<Packet<T>> {
    if s == [] then [] else Insert(Sort(s[..|s| - 1]), s[|s| - 1])
  }

  ghost predicate Sorted<T>(s: seq<Packet<T>>) {
    forall i, j | 0 <= i < j < |s| :: s[i].num <= s[j].num
  }

  /** The packets with one number, in the order they have in s. */
  function Numbered<T>(s: seq<Packet<T>>, n: int): seq<Packet<T>> {
    if s == [] then []
    else Numbered(s[..|s| - 1], n) + if s[|s| - 1].num == n then [s[|s| - 1]] else []
  }

  lemma InsertSorts<T>(s: seq<Packet<T>>, p: Packet<T>)
    requires Sorted(s)
    ensures Sorted(Insert(s, p))
  {
  }

  lemma InsertMembers<T>(s: seq<Packet<T>>, p: Packet<T>)
    ensures forall x :: x in Insert(s, p) <==> x == p || x in s
  {
    assert s == s[..Place(s, p.num)] + s[Place(s, p.num)..];
  }

  lemma {:induction false} NumberedAppend<T>(s: seq<Packet<T>>, t: seq<Packet<T>>, n: int)
    ensures Numbered(s + t, n) == Numbered(s, n) + Numbered(t, n)
  {
    if t == [] {
      assert s + t == s;
    } else {
      var k := |t| - 1;
      NumberedAppend(s, t[..k], n);
      assert (s + t)[..|s| + k] == s + t[..k];
      Associative(Numbered(s, n), Numbered(t[..k], n), if t[k].num == n then [t[k]] else []);
    }
  }

  lemma {:induction false} NoneNumbered<T>(s: seq<Packet<T>>, n: int)
    requires forall i | 0 <= i < |s| :: s[i].num > n
    ensures Numbered(s, n) == []
  {
    if s != [] { NoneNumbered(s[..|s| - 1], n); }
  }

  lemma NumberedOne<T>(p: Packet<T>, n: int)
    ensures Numbered([p], n) == if p.num == n then [p] else []
  {
    assert [p][..0] == [];
  }

  lemma InsertParts<T>(s: seq<Packet<T>>, p: Packet<T>, k: nat, n: int)
    requires k <= |s|
    ensures Numbered(s, n) == Numbered(s[..k], n) + Numbered(s[k..], n)
    ensures Numbered(s[..k] + [p] + s[k..], n) == (Numbered(s[..k], n) + Numbered([p], n)) + Numbered(s[k..], n)
  {
    assert s == s[..k] + s[k..];
    NumberedAppend(s[..k], s[k..], n);
    NumberedAppend(s[..k] + [p], s[k..], n);
    NumberedAppend(s[..k], [p], n);
  }

  lemma LaterPlace<T>(a: seq<T>, one: seq<T>, b: seq<T>)
    requires one == [] || b == []
    ensures (a + one) + b == (a + b) + one
  {
    assert a + [] == a;
  }

  lemma InsertIsStable<T>(s: seq<Packet<T>>, p: Packet<T>, n: int)
    ensures Numbered(Insert(s, p), n) == Numbered(s, n) + if p.num == n then [p] else []
  {
    var k := Place(s, p.num);
    InsertParts(s, p, k, n);
    NumberedOne(p, n);
    if p.num == n { NoneNumbered(s[k..], n); }
    LaterPlace(Numbered(s[..k], n), Numbered([p], n), Numbered(s[k..], n));
  }

  /** The sort is a stable sort: the result is ordered, and packets with the same number
      keep their order. */
  lemma {:induction false} SortIsStable<T>(s: seq<Packet<T>>, n: int)
    ensures Sorted(Sort(s)) && Numbered(Sort(s), n) == Numbered(s, n)
  {
    if s != [] {
      var front, last := s[..|s| - 1], s[|s| - 1];
      SortIsStable(front, n);
      InsertSorts(Sort(front), last);
      InsertIsStable(Sort(front), last, n);
    }
  }

  lemma SortNext<T>(s: seq<Packet<T>>, i: nat)
    requires i < |s|
    ensures Sort(s[..i + 1]) == Insert(Sort(s[..i]), s[i])
  {
    assert s[..i + 1][..i] == s[..i];
  }

  lemma {:induction false} SortOfSorted<T>(s: seq<Packet<T>>)
    requires Sorted(s)
    ensures Sort(s) == s
  {
    if s != [] {
      SortOfSorted(s[..|s| - 1]);
      assert s == s[..|s| - 1] + [s[|s| - 1]];
    }
  }

  // ----- The queue --------------------------------------------------------------------------

  /** What the queue holds back, the number it waits for, and what it has delivered. */
  datatype Queue<T> = Queue(next: Option<int>, held: seq<Packet<T>>, out: seq<Packet<T>>)

  function Fresh<T>(): Queue<T> { Queue(None, [], []) }

  /** Deliver held packets as long as the first one is the expected one. */
  function Drain<T>(q: Queue<T>): Queue<T>
    decreases |q.held|
  {
    if q.held == [] || (q.next.Some? && q.held[0].num != q.next.value) then q
    else Drain(Queue(Some(q.held[0].num + 1), q.held[1..], q.out + [q.held[0]]))
  }

  /** How many held packets can be delivered. */
  function Ready<T>(next: Option<int>, held: seq<Packet<T>>): (m: nat)
    ensures m <= |held|
    ensures forall i | 0 <= i < m :: held[i].num == held[0].num + i
    ensures m > 0 && next.Some? ==> held[0].num == next.value
    ensures m < |held| ==> if m > 0 then held[m].num != held[0].num + m else next.Some? && held[0].num != next.value
    decreases |held|
  {
    if held == [] || (next.Some? && held[0].num != next.value) then 0
    else
      var rest := held[1..];
      var m := Ready(Some(held[0].num + 1), rest);
      assert forall i | 0 < i < m + 1 :: held[i] == rest[i - 1];
      m + 1
  }

  /** Draining delivers the first packets, with numbers that follow each other, and stops
      at a gap. */
  lemma {:induction false} DrainSplits<T>(q: Queue<T>)
    ensures var m := Ready(q.next, q.held);
            Drain(q) == Queue(if m == 0 then q.next else Some(q.held[0].num + m), q.held[m..], q.out + q.held[..m])
    decreases |q.held|
  {
    var m := Ready(q.next, q.held);
    if m == 0 {
      assert q.held[0..] == q.held && q.out + q.held[..0] == q.out;
    } else {
      var p, rest := q.held[0], q.held[1..];
      DrainSplits(Queue(Some(p.num + 1), rest, q.out + [p]));
      DeliveredFirst(q.out, q.held, m);
      assert m > 1 ==> rest[0].num == p.num + 1;
    }
  }

  lemma DeliveredFirst<T>(out: seq<T>, held: seq<T>, m: nat)
    requires 0 < m <= |held|
    ensures (out + [held[0]]) + held[1..][..m - 1] == out + held[..m] && held[1..][m - 1..] == held[m..]
  {
  }

  function Received<T>(q: Queue<T>, p: Packet<T>): Queue<T> {
    if q.next.Some? && p.num < q.next.value then q
    else Drain(q.(held := Sort(q.held + [p])))
  }

  function Forget<T>(q: Queue<T>): Queue<T> { q.(next := None) }

  datatype Op<T> = Arrive(p: Packet<T>) | ResetNumber

  function Apply<T>(q: Queue<T>, op: Op<T>): Queue<T> {
    match op
    case Arrive(p) => Received(q, p)
    case ResetNumber => Forget(q)
  }

  function Run<T>(ops: seq<Op<T>>): Queue<T> {
    if ops == [] then Fresh() else Apply(Run(ops[..|ops| - 1]), ops[|ops| - 1])
  }

  // ----- Whatever arrives, numbers between resets are consecutive -----------------------------

  predicate Consecutive<T>(s: seq<Packet<T>>) {
    forall i | 0 <= i < |s| :: s[i].num == s[0].num + i
  }

  /** What was delivered after the first `from` packets is consecutive and ends just before
      the number expected next. */
  predicate InStep<T>(q: Queue<T>, from: nat) {
    && from <= |q.out|
    && Consecutive(q.out[from..])
    && (q.next.Some? && |q.out| > from ==> q.out[|q.out| - 1].num + 1 == q.next.value)
    && (q.next.None? ==> from == |q.out|)
  }

  lemma ConsecutiveJoin<T>(s: seq<Packet<T>>, t: seq<Packet<T>>)
    requires Consecutive(s) && Consecutive(t)
    requires s != [] && t != [] ==> t[0].num == s[|s| - 1].num + 1
    ensures Consecutive(s + t)
  {
    if s != [] && t != [] {
      assert forall i | 0 <= i < |t| :: t[i].num == s[0].num + |s| + i;
    }
  }

  lemma ConsecutiveSince<T>(out: seq<Packet<T>>, from: nat, now: seq<Packet<T>>)
    requires from <= |out| && Consecutive(out[from..]) && Consecutive(now)
    requires |out| > from && now != [] ==> now[0].num == out[|out| - 1].num + 1
    ensures Consecutive((out + now)[from..])
  {
    assert (out + now)[from..] == out[from..] + now;
    LastOfRest(out, from);
    ConsecutiveJoin(out[from..], now);
  }

  lemma LastOfConsecutive<T>(out: seq<Packet<T>>, now: seq<Packet<T>>)
    requires Consecutive(now) && now != []
    ensures (out + now)[|out + now| - 1].num == now[0].num + |now| - 1
  {
  }

  lemma DrainInStep<T>(q: Queue<T>, from: nat)
    requires InStep(q, from)
    ensures InStep(Drain(q), from)
  {
    var now := q.held[..Ready(q.next, q.held)];
    DrainSplits(q);
    ConsecutiveFront(q.next, q.held);
    if now == [] {
      assert q.out + now == q.out;
    } else {
      ConsecutiveSince(q.out, from, now);
      LastOfConsecutive(q.out, now);
    }
  }

  lemma ConsecutiveFront<T>(next: Option<int>, held: seq<Packet<T>>)
    ensures Consecutive(held[..Ready(next, held)])
  {
  }

  lemma LastOfRest<T>(s: seq<T>, from: nat)
    requires from <= |s|
    ensures s[from..] != [] ==> s[from..][|s[from..]| - 1] == s[|s| - 1]
  {
  }

  /** How many packets had been delivered when the number was last reset. */
  function LastReset<T>(ops: seq<Op<T>>): nat {
    if ops == [] then 0
    else if ops[|ops| - 1].ResetNumber? then |Run(ops[..|ops| - 1]).out|
    else LastReset(ops[..|ops| - 1])
  }

  /** Any arrivals, repeated, missing or out of order, and any resets: what was delivered
      since the last reset carries consecutive numbers. */
  lemma {:induction false} DeliveredInStep<T>(ops: seq<Op<T>>)
    ensures InStep(Run(ops), LastReset(ops))
  {
    if ops != [] {
      var q, from := Run(ops[..|ops| - 1]), LastReset(ops[..|ops| - 1]);
      DeliveredInStep(ops[..|ops| - 1]);
      match ops[|ops| - 1]
      case Arrive(p) =>
        assert InStep(q.(held := Sort(q.held + [p])), from);
        DrainInStep(q.(held := Sort(q.held + [p])), from);
      case ResetNumber =>
    }
  }

  // ----- When everything is delivered ------------------------------------------------------------

  /** The queue after these packets arrived and no reset. */
  function Take<T>(arr: seq<Packet<T>>): Queue<T> {
    if arr == [] then Fresh() else Received(Take(arr[..|arr| - 1]), arr[|arr| - 1])
  }

  ghost predicate Has<T>(s: seq<Packet<T>>, n: int) { exists i :: 0 <= i < |s| && s[i].num == n }

  /** Packet j repeats a number that came before while a smaller number that is still to be
      delivered had not come; `top` bounds the numbers that matter. */
  ghost predicate EarlyAt<T>(arr: seq<Packet<T>>, j: nat, top: int)
    requires j < |arr|
  {
    && arr[0].num < arr[j].num < top - 1
    && Has(arr[..j], arr[j].num)
    && exists e | arr[0].num < e < arr[j].num :: !Has(arr[..j], e)
  }

  ghost predicate RepeatedEarly<T>(arr: seq<Packet<T>>, top: int) {
    exists j: nat | j < |arr| :: EarlyAt(arr, j, top)
  }

  /** Sorted, without repeated numbers below the last one that matters. */
  ghost predicate Strict<T>(s: seq<Packet<T>>, top: int) {
    forall i, j | 0 <= i < j < |s| :: MayPrecede(s[i], s[j], top)
  }

  predicate MayPrecede<T>(p: Packet<T>, p': Packet<T>, top: int) {
    p.num < p'.num || (p.num == p'.num && p.num >= top - 1)
  }

  lemma StrictJoin<T>(s: seq<Packet<T>>, t: seq<Packet<T>>, top: int)
    requires Strict(s, top) && Strict(t, top)
    requires forall i, j | 0 <= i < |s| && 0 <= j < |t| :: MayPrecede(s[i], t[j], top)
    ensures Strict(s + t, top)
  {
  }

  lemma MayPrecedePlace<T>(s: seq<Packet<T>>, p: Packet<T>, i: nat, top: int)
    requires Strict(s, top) && (p.num >= top - 1 || !Has(s, p.num)) && i < Place(s, p.num)
    ensures MayPrecede(s[i], p, top)
  {
    assert s[i].num <= s[Place(s, p.num) - 1].num by {
      if i < Place(s, p.num) - 1 { assert MayPrecede(s[i], s[Place(s, p.num) - 1], top); }
    }
    if s[i].num == p.num { assert Has(s, p.num); }
  }

  lemma InsertStrict<T>(s: seq<Packet<T>>, p: Packet<T>, top: int)
    requires Strict(s, top) && (p.num >= top - 1 || !Has(s, p.num))
    ensures Strict(Insert(s, p), top)
  {
    var k := Place(s, p.num);
    var before, after := s[..k], s[k..];
    forall i | 0 <= i < k ensures MayPrecede(before[i], p, top) { MayPrecedePlace(s, p, i, top); }
    StrictJoin(before, [p], top);
    StrictJoin(before + [p], after, top);
  }

  /** Only later numbers are held back, as far as they matter. */
  ghost predicate Ahead<T>(q: Queue<T>, top: int)
    requires q.next.Some?
  {
    q.next.value < top ==> forall i | 0 <= i < |q.held| :: q.held[i].num > q.next.value
  }

  /** Everything that arrived was delivered or is held, and there is no gap in what was. */
  ghost predicate Flowing<T>(q: Queue<T>, arr: seq<Packet<T>>, top: int)
    requires arr != []
  {
    && q.next.Some? && q.next.value > arr[0].num
    && Strict(q.held, top) && Ahead(q, top)
    && (forall x | arr[0].num <= x < q.next.value :: Has(arr, x))
    && (forall x | x >= q.next.value :: Has(arr, x) ==> Has(q.held, x))
    && (forall x :: Has(q.held, x) ==> Has(arr, x))
  }

  /** Packets n, n + 1, … at the front, then a gap. */
  ghost predicate Split<T>(held: seq<Packet<T>>, m: nat, n: int) {
    && m <= |held|
    && (forall i | 0 <= i < m :: held[i].num == n + i)
    && (m < |held| ==> held[m].num != n + m)
  }

  lemma SplitFront<T>(held: seq<Packet<T>>, m: nat, n: int, x: int)
    requires Split(held, m, n)
    ensures n <= x < n + m ==> Has(held, x)
    ensures Has(held, x) && x >= n + m ==> Has(held[m..], x)
    ensures Has(held[m..], x) ==> Has(held, x)
  {
    if n <= x < n + m { assert held[x - n].num == x; }
    if Has(held, x) && x >= n + m {
      var i :| 0 <= i < |held| && held[i].num == x;
      assert held[m..][i - m].num == x;
    }
  }

  lemma SplitBack<T>(held: seq<Packet<T>>, m: nat, n: int, top: int, i: nat)
    requires Split(held, m, n) && Strict(held, top) && n + m < top && m <= i < |held|
    requires held[0].num >= n
    ensures held[i].num > n + m
  {
    if m > 0 { assert held[m - 1].num < held[m].num; }
  }

  lemma StrictBack<T>(held: seq<Packet<T>>, m: nat, top: int)
    requires m <= |held| && Strict(held, top)
    ensures Strict(held[m..], top)
  {
  }

  /** What draining does to a queue whose held numbers start no earlier than expected. */
  lemma DrainFlows<T>(q: Queue<T>, top: int)
    requires q.next.Some? && Strict(q.held, top)
    requires q.next.value < top && q.held != [] ==> q.held[0].num >= q.next.value
    ensures var q' := Drain(q);
            && q'.next.Some? && q'.next.value >= q.next.value && Strict(q'.held, top) && Ahead(q', top)
            && (forall x :: Has(q'.held, x) ==> Has(q.held, x))
            && (forall x | x >= q'.next.value :: Has(q.held, x) ==> Has(q'.held, x))
            && (forall x | q.next.value <= x < q'.next.value :: Has(q.held, x))
  {
    var m, held, n := Ready(q.next, q.held), q.held, q.next.value;
    DrainSplits(q);
    assert Split(held, m, n);
    StrictBack(held, m, top);
    forall x
      ensures (n <= x < n + m ==> Has(held, x)) && (Has(held[m..], x) ==> Has(held, x))
      ensures Has(held, x) && x >= n + m ==> Has(held[m..], x)
    {
      SplitFront(held, m, n, x);
    }
    forall i | 0 <= i < |held[m..]| && n + m < top ensures held[m..][i].num > n + m {
      SplitBack(held, m, n, top, m + i);
    }
  }

  lemma HasInserted<T>(s: seq<Packet<T>>, p: Packet<T>, x: int)
    ensures Has(Insert(s, p), x) <==> p.num == x || Has(s, x)
  {
    var k, r := Place(s, p.num), Insert(s, p);
    assert r[k] == p;
    if Has(s, x) {
      var i :| 0 <= i < |s| && s[i].num == x;
      assert r[if i < k then i else i + 1] == s[i];
    }
    if Has(r, x) && p.num != x {
      var i :| 0 <= i < |r| && r[i].num == x;
      assert s[if i < k then i else i - 1] == r[i];
    }
  }

  lemma HasOneMore<T>(s: seq<Packet<T>>, p: Packet<T>, x: int)
    ensures Has(s + [p], x) <==> p.num == x || Has(s, x)
  {
    assert (s + [p])[|s|] == p;
    if Has(s, x) {
      var i :| 0 <= i < |s| && s[i].num == x;
      assert (s + [p])[i] == s[i];
    }
  }

  lemma StrictSorted<T>(s: seq<Packet<T>>, top: int)
    requires Strict(s, top)
    ensures Sorted(s)
  {
  }

  /** Appending and sorting puts the packet into its place. */
  lemma ReceiveInserts<T>(q: Queue<T>, p: Packet<T>)
    requires Sorted(q.held) && (q.next.Some? ==> p.num >= q.next.value)
    ensures Received(q, p) == Drain(q.(held := Insert(q.held, p)))
  {
    SortOfSorted(q.held);
    assert (q.held + [p])[..|q.held|] == q.held;
  }

  /** As long as no number is repeated early, every packet that matters flows. */
  lemma ReceiveFlows<T>(q: Queue<T>, arr: seq<Packet<T>>, p: Packet<T>, top: int)
    requires arr != [] && Flowing(q, arr, top)
    requires q.next.value <= p.num < top - 1 ==> !Has(q.held, p.num)
    ensures Flowing(Received(q, p), arr + [p], top)
  {
    forall x ensures Has(arr + [p], x) <==> p.num == x || Has(arr, x) { HasOneMore(arr, p, x); }
    if p.num >= q.next.value {
      forall x ensures Has(Insert(q.held, p), x) <==> p.num == x || Has(q.held, x) { HasInserted(q.held, p, x); }
      StrictSorted(q.held, top);
      ReceiveInserts(q, p);
      InsertStrict(q.held, p, top);
      DrainFlows(q.(held := Insert(q.held, p)), top);
    }
  }

  lemma DrainFirst<T>(q: Queue<T>, p: Packet<T>, rest: seq<Packet<T>>)
    requires q.held == [p] + rest
    ensures Drain(q) ==
            if q.next.Some? && p.num != q.next.value then q else Drain(Queue(Some(p.num + 1), rest, q.out + [p]))
  {
    assert q.held[1..] == rest;
  }

  lemma FirstReceived<T>(p: Packet<T>)
    ensures Received(Fresh(), p) == Queue(Some(p.num + 1), [], [p])
  {
    SortOfSorted([p]);
    DrainFirst(Queue(None, [p], []), p, []);
    assert [] + [p] == [p] && [p] + [] == [p];
  }

  lemma FirstFlows<T>(p: Packet<T>, top: int)
    ensures Flowing(Take([p]), [p], top) && Take([p]) == Queue(Some(p.num + 1), [], [p])
  {
    assert [p][..0] == [];
    FirstReceived(p);
    assert [p][0].num == p.num;
  }

  /** Number d is stuck: it is held twice, or it was delivered and is held again. */
  ghost predicate Blocked<T>(q: Queue<T>, d: int) {
    && q.next.Some? && q.next.value <= d + 1 && Sorted(q.held)
    && |Numbered(q.held, d)| >= if q.next.value <= d then 2 else 1
  }

  lemma {:induction false} NumberedHas<T>(s: seq<Packet<T>>, d: int)
    ensures Numbered(s, d) != [] <==> Has(s, d)
  {
    if s != [] {
      NumberedHas(s[..|s| - 1], d);
      HasOneMore(s[..|s| - 1], s[|s| - 1], d);
      assert s == s[..|s| - 1] + [s[|s| - 1]];
    }
  }

  lemma {:induction false} NumberedFollowing<T>(s: seq<Packet<T>>, first: int, d: int)
    requires forall i | 0 <= i < |s| :: s[i].num == first + i
    ensures |Numbered(s, d)| == if first <= d < first + |s| then 1 else 0
  {
    if s != [] { NumberedFollowing(s[..|s| - 1], first, d); }
  }

  lemma BackIsLater<T>(held: seq<Packet<T>>, m: nat, n: int, d: int)
    requires Split(held, m, n) && Sorted(held)
    ensures m > 0 && n + m > d + 1 ==> Numbered(held[m..], d) == []
  {
    if m > 0 && n + m > d + 1 {
      var back := held[m..];
      forall i | 0 <= i < |back| ensures back[i].num > d {
        assert held[m - 1].num <= held[m + i].num;
      }
      NoneNumbered(back, d);
    }
  }

  lemma SortedBack<T>(held: seq<Packet<T>>, m: nat)
    requires m <= |held| && Sorted(held)
    ensures Sorted(held[m..])
  {
  }

  lemma SplitCount<T>(held: seq<Packet<T>>, m: nat, n: int, d: int)
    requires Split(held, m, n)
    ensures |Numbered(held, d)| == |Numbered(held[m..], d)| + if n <= d < n + m then 1 else 0
  {
    assert held == held[..m] + held[m..];
    NumberedAppend(held[..m], held[m..], d);
    NumberedFollowing(held[..m], n, d);
  }

  /** A stuck number never gets unstuck, and nothing after it is delivered. */
  lemma BlockedStays<T>(q: Queue<T>, d: int)
    requires Blocked(q, d)
    ensures Blocked(Drain(q), d)
  {
    var m := Ready(q.next, q.held);
    DrainSplits(q);
    BackIsLater(q.held, m, q.next.value, d);
    SplitCount(q.held, m, q.next.value, d);
    SortedBack(q.held, m);
  }

  lemma ReceiveBlocked<T>(q: Queue<T>, p: Packet<T>, d: int)
    requires Blocked(q, d)
    ensures Blocked(Received(q, p), d)
  {
    if p.num >= q.next.value {
      ReceiveInserts(q, p);
      InsertSorts(q.held, p);
      InsertIsStable(q.held, p, d);
      BlockedStays(q.(held := Insert(q.held, p)), d);
    }
  }

  /** An early repetition of number d makes it stuck. */
  lemma EarlyBlocks<T>(q: Queue<T>, p: Packet<T>, top: int)
    requires q.next.Some? && Strict(q.held, top) && q.next.value <= p.num && Has(q.held, p.num)
    ensures Blocked(Received(q, p), p.num)
  {
    StrictSorted(q.held, top);
    ReceiveInserts(q, p);
    InsertSorts(q.held, p);
    InsertIsStable(q.held, p, p.num);
    NumberedHas(q.held, p.num);
    BlockedStays(q.(held := Insert(q.held, p)), p.num);
  }

  /** Under a flowing queue, a packet comes early again exactly when its number is held. */
  lemma EarlyIsHeld<T>(q: Queue<T>, arr: seq<Packet<T>>, p: Packet<T>, top: int)
    requires arr != [] && Flowing(q, arr, top)
    ensures EarlyAt(arr + [p], |arr|, top) ==> q.next.value <= p.num && Has(q.held, p.num)
    ensures q.next.value <= p.num < top - 1 && Has(q.held, p.num) ==> EarlyAt(arr + [p], |arr|, top)
  {
    var b, n := arr[0].num, q.next.value;
    assert (arr + [p])[..|arr|] == arr;
    if n <= p.num < top - 1 && Has(q.held, p.num) {
      assert Ahead(q, top);
      assert b < n < p.num && !Has(q.held, n);
      assert !Has(arr, n);
    }
  }

  lemma RepeatedSplits<T>(arr: seq<Packet<T>>, p: Packet<T>, top: int)
    requires arr != []
    ensures RepeatedEarly(arr + [p], top) <==> RepeatedEarly(arr, top) || EarlyAt(arr + [p], |arr|, top)
  {
    var all := arr + [p];
    forall j | 0 <= j < |arr| ensures EarlyAt(all, j, top) <==> EarlyAt(arr, j, top) {
      assert all[..j] == arr[..j];
    }
  }

  lemma {:induction false} FlowingOrBlocked<T>(arr: seq<Packet<T>>, top: int)
    requires arr != []
    ensures if RepeatedEarly(arr, top) then exists d | arr[0].num < d < top - 1 :: Blocked(Take(arr), d)
            else Flowing(Take(arr), arr, top)
  {
    if |arr| == 1 {
      assert arr == [arr[0]];
      FirstFlows(arr[0], top);
    } else {
      var front, p := arr[..|arr| - 1], arr[|arr| - 1];
      assert arr == front + [p];
      FlowingOrBlocked(front, top);
      RepeatedSplits(front, p, top);
      if RepeatedEarly(front, top) {
        var d :| front[0].num < d < top - 1 && Blocked(Take(front), d);
        ReceiveBlocked(Take(front), p, d);
        assert arr[0].num < d < top - 1 && Blocked(Take(arr), d);
      } else {
        EarlyIsHeld(Take(front), front, p, top);
        if EarlyAt(arr, |front|, top) {
          EarlyBlocks(Take(front), p, top);
          assert arr[0].num < p.num < top - 1 && Blocked(Take(arr), p.num);
        } else { ReceiveFlows(Take(front), front, p, top); }
      }
    }
  }

  /** All packets of s are among the arrivals. */
  ghost predicate From<T>(s: seq<Packet<T>>, arr: seq<Packet<T>>) {
    forall i | 0 <= i < |s| :: s[i] in arr
  }

  ghost predicate Counts<T>(q: Queue<T>, first: int) {
    && q.next == Some(first + |q.out|)
    && forall i | 0 <= i < |q.out| :: q.out[i].num == first + i
  }

  /** What is delivered came in, carries the numbers from the first one on, and ends just
      before the expected one. */
  lemma {:induction false} DeliveredNumbers<T>(arr: seq<Packet<T>>)
    requires arr != []
    ensures var q := Take(arr);
            Counts(q, arr[0].num) && q.out != [] && From(q.out, arr) && From(q.held, arr)
  {
    var front, p := arr[..|arr| - 1], arr[|arr| - 1];
    assert arr == front + [p];
    if front == [] {
      FirstDelivered(p);
    } else {
      DeliveredNumbers(front);
      ReceiveCounts(Take(front), p, arr[0].num);
      ReceiveMembers(Take(front), front, p);
    }
  }

  lemma FirstDelivered<T>(p: Packet<T>)
    ensures var q := Received(Fresh(), p);
            Counts(q, p.num) && q.out != [] && From(q.out, [p]) && From(q.held, [p])
  {
    FirstReceived(p);
  }

  lemma ReceiveCounts<T>(q: Queue<T>, p: Packet<T>, first: int)
    requires Counts(q, first)
    ensures Counts(Received(q, p), first) && q.out <= Received(q, p).out
  {
    if p.num >= q.next.value { DrainSplits(q.(held := Sort(q.held + [p]))); }
  }

  lemma ReceiveMembers<T>(q: Queue<T>, arr: seq<Packet<T>>, p: Packet<T>)
    requires From(q.out, arr) && From(q.held, arr)
    ensures From(Received(q, p).out, arr + [p]) && From(Received(q, p).held, arr + [p])
  {
    if q.next.None? || p.num >= q.next.value {
      var held := Sort(q.held + [p]);
      var m := Ready(q.next, held);
      SortMembers(q.held + [p]);
      DrainSplits(q.(held := held));
      forall i | 0 <= i < |held| ensures held[i] in arr + [p] {
        assert held[i] in held;
      }
    }
  }

  lemma {:induction false} SortMembers<T>(s: seq<Packet<T>>)
    ensures forall x :: x in Sort(s) <==> x in s
  {
    if s != [] {
      SortMembers(s[..|s| - 1]);
      InsertMembers(Sort(s[..|s| - 1]), s[|s| - 1]);
      assert s == s[..|s| - 1] + [s[|s| - 1]];
    }
  }

  lemma FlowingReaches<T>(q: Queue<T>, arr: seq<Packet<T>>, top: int)
    requires arr != [] && Flowing(q, arr, top) && forall x | arr[0].num <= x < top :: Has(arr, x)
    ensures q.next.value >= top
  {
    var n := q.next.value;
    assert n < top ==> Has(arr, n);
    assert n < top ==> !Has(q.held, n);
  }

  /** When all numbers from the first arrival up to `top` arrive, in any order and with any
      repetitions, then all of them are delivered exactly when none of them but the last is
      repeated while it is held back. */
  lemma CompleteIff<T>(arr: seq<Packet<T>>, top: int)
    requires arr != [] && arr[0].num < top && forall x | arr[0].num <= x < top :: Has(arr, x)
    ensures |Take(arr).out| >= top - arr[0].num <==> !RepeatedEarly(arr, top)
  {
    DeliveredNumbers(arr);
    FlowingOrBlocked(arr, top);
    if !RepeatedEarly(arr, top) { FlowingReaches(Take(arr), arr, top); }
  }

  ghost predicate DistinctNumbers<T>(arr: seq<Packet<T>>) {
    forall i, j | 0 <= i < j < |arr| :: arr[i].num != arr[j].num
  }

  lemma DistinctIsNeverEarly<T>(arr: seq<Packet<T>>, top: int)
    requires DistinctNumbers(arr)
    ensures !RepeatedEarly(arr, top)
  {
    forall j: nat | j < |arr| ensures !Has(arr[..j], arr[j].num) {
      assert forall i | 0 <= i < j :: arr[..j][i] == arr[i];
    }
  }

  /** When each number comes once and the first one comes first, every packet is delivered
      exactly once and in order. */
  lemma InOrderExactlyOnce<T>(arr: seq<Packet<T>>, sent: seq<Packet<T>>)
    requires arr != [] && sent != [] && arr[0] == sent[0] && Consecutive(sent) && DistinctNumbers(arr)
    requires forall p :: p in arr <==> p in sent
    ensures Take(arr).out == sent
  {
    var b, top := sent[0].num, sent[0].num + |sent|;
    forall x | b <= x < top ensures Has(arr, x) {
      assert sent[x - b] in sent;
      var i :| 0 <= i < |arr| && arr[i] == sent[x - b];
      assert arr[i].num == x;
    }
    DistinctIsNeverEarly(arr, top);
    CompleteIff(arr, top);
    DeliveredNumbers(arr);
    OutIsSent(Take(arr).out, arr, sent);
  }

  lemma OutIsSent<T>(out: seq<Packet<T>>, arr: seq<Packet<T>>, sent: seq<Packet<T>>)
    requires sent != [] && Consecutive(sent) && From(arr, sent) && From(out, arr)
    requires forall i | 0 <= i < |out| :: out[i].num == sent[0].num + i
    requires |out| >= |sent|
    ensures out == sent
  {
    forall i | 0 <= i < |out| ensures i < |sent| && out[i] == sent[i] {
      assert out[i] in arr;
      var k :| 0 <= k < |arr| && arr[k] == out[i];
      assert arr[k] in sent;
      var j :| 0 <= j < |sent| && sent[j] == arr[k];
    }
    var last := |out| - 1;
    assert out[last] in arr && last < |sent|;
  }

  // ----- What a reset leaves behind -----------------------------------------------------------------

  /** A reset forgets the expected number but not the packets held back.  The first packet
      delivered after it is the one that arrives exactly when no smaller or equal number is
      still held from before; else it is that old packet. */
  lemma FirstAfterReset<T>(q: Queue<T>, p: Packet<T>)
    requires Sorted(q.held)
    ensures var q' := Received(Forget(q), p);
            && |q'.out| > |q.out|
            && q'.out[|q.out|] == if q.held == [] || p.num < q.held[0].num then p else q.held[0]
  {
    ReceiveInserts(Forget(q), p);
    DrainSplits(Forget(q).(held := Insert(q.held, p)));
  }

  lemma ReceivedSorted<T>(q: Queue<T>, p: Packet<T>)
    requires Sorted(q.held)
    ensures Sorted(Received(q, p).held)
  {
    if q.next.None? || p.num >= q.next.value {
      ReceiveInserts(q, p);
      InsertSorts(q.held, p);
      DrainSplits(q.(held := Insert(q.held, p)));
    }
  }

  lemma {:induction false} AlwaysSorted<T>(ops: seq<Op<T>>)
    ensures Sorted(Run(ops).held)
  {
    if ops != [] {
      AlwaysSorted(ops[..|ops| - 1]);
      if ops[|ops| - 1].Arrive? { ReceivedSorted(Run(ops[..|ops| - 1]), ops[|ops| - 1].p); }
    }
  }

  // ----- The queue as code ------------------------------------------------------------------------------

  class PacketQueue<T> {
    var outOfOrder: seq<Packet<T>>
    var nextExpected: Option<int>
    var delivered: seq<Packet<T>>
    const callback: nat
    const reorder: bool

    constructor (callback: nat, reorder: bool)
      ensures View() == Fresh() && this.callback == callback && this.reorder == reorder
    {
      outOfOrder, nextExpected, delivered := [], None, [];
      this.callback, this.reorder := callback, reorder;
    }

    ghost function View(): Queue<T>
      reads this
    {
      Queue(nextExpected, outOfOrder, delivered)
    }

    /** Sort the packets held back, keeping the order of equal numbers. */
    method SortHeld()
      modifies this`outOfOrder
      ensures outOfOrder == Sort(old(outOfOrder))
    {
      var todo := outOfOrder;
      outOfOrder := [];
      for i := 0 to |todo|
        invariant outOfOrder == Sort(todo[..i])
      {
        SortNext(todo, i);
        outOfOrder := PutInPlace(outOfOrder, todo[i]);
      }
      assert todo[..|todo|] == todo;
    }

    method PutInPlace(s: seq<Packet<T>>, p: Packet<T>) returns (r: seq<Packet<T>>)
      ensures r == Insert(s, p)
    {
      var k := |s|;
      assert s[..k] == s;
      while k > 0 && s[k - 1].num > p.num
        invariant k <= |s| && Place(s, p.num) == Place(s[..k], p.num)
      {
        assert s[..k][..k - 1] == s[..k - 1];
        k := k - 1;
      }
      return s[..k] + [p] + s[k..];
    }

    method Receive(sequence: int, args: T)
      modifies this
      ensures reorder ==> View() == Received(old(View()), Packet(sequence, args))
      ensures !reorder ==> View() == old(View()).(out := old(delivered) + [Packet(sequence, args)])
    {
      if !reorder {
        delivered := delivered + [Packet(sequence, args)];
        return;
      }
      if nextExpected.Some? && sequence < nextExpected.value { return; }
      outOfOrder := outOfOrder + [Packet(sequence, args)];
      SortHeld();
      ghost var sorted := View();
      while |outOfOrder| > 0
        invariant Drain(View()) == Drain(sorted)
        decreases |outOfOrder|
      {
        var packet := outOfOrder[0];
        if nextExpected.Some? && packet.num != nextExpected.value { return; }
        delivered := delivered + [packet];
        outOfOrder := outOfOrder[1..];
        nextExpected := Some(packet.num + 1);
      }
    }

    method Reset()
      modifies this`nextExpected
      ensures View() == Forget(old(View()))
    {
      nextExpected := None;
    }
  }
}
