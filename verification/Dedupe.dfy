/** The filter that drops repeated broadcasts, one small memory per sender and stream. */
module Dedupe {
  import opened Bytes
  import opened Basics

  const MAX_DEDUPERS: nat := 500

  /** A received packet and the two clock readings its handling takes. */
  datatype Sighting = Sighting(packet: seq<byte>, now: real, later: real)

  predicate IsBroadcast(packet: seq<byte>) {
    && |packet| == 46
    && packet[0] == 0x80 && packet[2] == 6 && packet[3] == 0
    && packet[18] == 0x1b && packet[19] == 0x16 && packet[20] == 0xdd && packet[21] == 0xfd
  }

  datatype Key = Key(uuid: seq<byte>, stream: seq<byte>)

  function KeyOf(packet: seq<byte>): Key
    requires |packet| == 46
  {
    Key(packet[22..26], packet[36..38])
  }

  function DataOf(packet: seq<byte>): (data: seq<byte>)
    requires |packet| == 46
    ensures data != []
  {
    packet[22..]
  }

  /** What is remembered for a key: the packet forwarded last and when. */
  datatype Deduper = Deduper(key: Key, last: real, data: seq<byte>)

  /** Memories in the order in which they were made. */
  type Table = seq<Deduper>

  function Find(table: Table, key: Key): (i: nat)
    ensures i <= |table|
    ensures i < |table| ==> table[i].key == key
    ensures forall j | 0 <= j < i :: table[j].key != key
  {
    if table == [] || table[0].key == key then 0
    else
      var i := Find(table[1..], key);
      assert forall j | 1 <= j < i + 1 :: table[j] == table[1..][j - 1];
      i + 1
  }

  /** Make room for a new memory by forgetting the oldest one. */
  function Evict(table: Table): Table {
    if |table| == MAX_DEDUPERS then table[1..] else table
  }

  /** The table with a memory for the key. */
  function Prepared(table: Table, key: Key): (t: Table)
    ensures Find(t, key) < |t|
  {
    if Find(table, key) < |table| then table
    else
      var t := Evict(table) + [Deduper(key, 0.0, [])];
      assert t[|t| - 1].key == key;
      t
  }

  predicate Passes(d: Deduper, data: seq<byte>, now: real, interval: real) {
    now > d.last + interval || d.data != data
  }

  /** Whether a packet is forwarded, and what is remembered after it. */
  function Allow(table: Table, s: Sighting, interval: real): (Table, bool) {
    if !IsBroadcast(s.packet) then (table, true)
    else
      var key, data := KeyOf(s.packet), DataOf(s.packet);
      var t := Prepared(table, key);
      var i := Find(t, key);
      if Passes(t[i], data, s.now, interval) then (t[i := Deduper(key, s.later, data)], true) else (t, false)
  }

  // ----- Runs --------------------------------------------------------------------------------

  function TableAfter(seen: seq<Sighting>, interval: real): Table {
    if seen == [] then [] else Allow(TableAfter(seen[..|seen| - 1], interval), seen[|seen| - 1], interval).0
  }

  function Forwards(seen: seq<Sighting>, i: nat, interval: real): bool
    requires i < |seen|
  {
    Allow(TableAfter(seen[..i], interval), seen[i], interval).1
  }

  /** The packets that are forwarded. */
  function Forwarded(seen: seq<Sighting>, interval: real): seq<seq<byte>> {
    if seen == [] then []
    else
      var n := |seen| - 1;
      Forwarded(seen[..n], interval) + if Forwards(seen, n, interval) then [seen[n].packet] else []
  }

  /** Packet i is the last one with this key that was forwarded. */
  ghost predicate LastForwarded(seen: seq<Sighting>, key: Key, i: nat, interval: real) {
    && i < |seen| && IsBroadcast(seen[i].packet) && KeyOf(seen[i].packet) == key && Forwards(seen, i, interval)
    && forall j | i < j < |seen| && IsBroadcast(seen[j].packet) && KeyOf(seen[j].packet) == key ::
         !Forwards(seen, j, interval)
  }

  /** The memory is that of the last packet forwarded for its key. */
  ghost predicate Remembers(seen: seq<Sighting>, d: Deduper, interval: real) {
    exists i: nat ::
      LastForwarded(seen, d.key, i, interval) && DataOf(seen[i].packet) == d.data && seen[i].later == d.last
  }

  ghost predicate DistinctKeys(table: Table) {
    forall i, j | 0 <= i < j < |table| :: table[i].key != table[j].key
  }

  ghost predicate Faithful(seen: seq<Sighting>, table: Table, interval: real) {
    && |table| <= MAX_DEDUPERS
    && DistinctKeys(table)
    && (forall k | 0 <= k < |table| :: Remembers(seen, table[k], interval))
  }

  lemma ForwardsSame(seen: seq<Sighting>, s: Sighting, i: nat, interval: real)
    requires i < |seen|
    ensures Forwards(seen + [s], i, interval) == Forwards(seen, i, interval)
  {
    assert (seen + [s])[..i] == seen[..i];
  }

  lemma ForwardsLast(seen: seq<Sighting>, s: Sighting, interval: real)
    ensures Forwards(seen + [s], |seen|, interval) == Allow(TableAfter(seen, interval), s, interval).1
    ensures TableAfter(seen + [s], interval) == Allow(TableAfter(seen, interval), s, interval).0
  {
    assert (seen + [s])[..|seen|] == seen;
  }

  /** A memory stays right when a packet of another key comes, or one that is dropped. */
  lemma StillRemembers(seen: seq<Sighting>, s: Sighting, d: Deduper, interval: real)
    requires Remembers(seen, d, interval)
    requires IsBroadcast(s.packet) && KeyOf(s.packet) == d.key ==> !Forwards(seen + [s], |seen|, interval)
    ensures Remembers(seen + [s], d, interval)
  {
    var i: nat :|
      LastForwarded(seen, d.key, i, interval) && DataOf(seen[i].packet) == d.data && seen[i].later == d.last;
    var all := seen + [s];
    forall j: nat | j < |seen| ensures Forwards(all, j, interval) == Forwards(seen, j, interval) && all[j] == seen[j] {
      ForwardsSame(seen, s, j, interval);
    }
    assert LastForwarded(all, d.key, i, interval);
  }

  lemma NowRemembers(seen: seq<Sighting>, s: Sighting, interval: real)
    requires IsBroadcast(s.packet) && Forwards(seen + [s], |seen|, interval)
    ensures Remembers(seen + [s], Deduper(KeyOf(s.packet), s.later, DataOf(s.packet)), interval)
  {
    assert LastForwarded(seen + [s], KeyOf(s.packet), |seen|, interval);
  }

  /** Each memory after a broadcast is right: the one of its key is new or untouched. */
  lemma EachRemembers(seen: seq<Sighting>, s: Sighting, k: nat, interval: real)
    requires Faithful(seen, TableAfter(seen, interval), interval) && IsBroadcast(s.packet)
    requires k < |TableAfter(seen + [s], interval)|
    ensures Remembers(seen + [s], TableAfter(seen + [s], interval)[k], interval)
  {
    var table, key := TableAfter(seen, interval), KeyOf(s.packet);
    var t := Prepared(table, key);
    ForwardsLast(seen, s, interval);
    PreparedKeys(table, key);
    if k == Find(t, key) && Forwards(seen + [s], |seen|, interval) {
      NowRemembers(seen, s, interval);
    } else {
      assert t[k] in table;
      StillRemembers(seen, s, t[k], interval);
    }
  }

  lemma AllowDistinct(table: Table, s: Sighting, interval: real)
    requires |table| <= MAX_DEDUPERS && DistinctKeys(table)
    ensures |Allow(table, s, interval).0| <= MAX_DEDUPERS && DistinctKeys(Allow(table, s, interval).0)
  {
    if IsBroadcast(s.packet) { PreparedKeys(table, KeyOf(s.packet)); }
  }

  lemma AllowKeeps(seen: seq<Sighting>, s: Sighting, interval: real)
    requires Faithful(seen, TableAfter(seen, interval), interval)
    ensures Faithful(seen + [s], TableAfter(seen + [s], interval), interval)
  {
    var table := TableAfter(seen, interval);
    ForwardsLast(seen, s, interval);
    AllowDistinct(table, s, interval);
    if IsBroadcast(s.packet) {
      forall k | 0 <= k < |TableAfter(seen + [s], interval)|
        ensures Remembers(seen + [s], TableAfter(seen + [s], interval)[k], interval)
      {
        EachRemembers(seen, s, k, interval);
      }
    } else {
      forall k | 0 <= k < |table| ensures Remembers(seen + [s], table[k], interval) {
        StillRemembers(seen, s, table[k], interval);
      }
    }
  }

  lemma PreparedKeys(table: Table, key: Key)
    requires |table| <= MAX_DEDUPERS && DistinctKeys(table)
    ensures var t := Prepared(table, key);
            && |t| <= MAX_DEDUPERS && DistinctKeys(t)
            && (forall k | 0 <= k < |t| && t[k].key != key :: t[k] in table)
            && (t[Find(t, key)] in table || t[Find(t, key)] == Deduper(key, 0.0, []))
  {
  }

  lemma {:induction false} AlwaysFaithful(seen: seq<Sighting>, interval: real)
    ensures Faithful(seen, TableAfter(seen, interval), interval)
  {
    if seen != [] {
      var front := seen[..|seen| - 1];
      AlwaysFaithful(front, interval);
      assert seen == front + [seen[|seen| - 1]];
      AllowKeeps(front, seen[|seen| - 1], interval);
    }
  }

  /** The packet repeats the one of its sender and stream that was forwarded last, no more
      than the interval before. */
  ghost predicate Repeats(seen: seq<Sighting>, s: Sighting, interval: real)
    requires IsBroadcast(s.packet)
  {
    exists i: nat ::
      && LastForwarded(seen, KeyOf(s.packet), i, interval)
      && DataOf(seen[i].packet) == DataOf(s.packet) && s.now <= seen[i].later + interval
  }

  lemma RepeatsWhen(seen: seq<Sighting>, s: Sighting, d: Deduper, interval: real)
    requires IsBroadcast(s.packet) && Remembers(seen, d, interval) && d.key == KeyOf(s.packet)
    ensures Repeats(seen, s, interval) <==> !Passes(d, DataOf(s.packet), s.now, interval)
  {
    var i: nat :|
      LastForwarded(seen, d.key, i, interval) && DataOf(seen[i].packet) == d.data && seen[i].later == d.last;
    forall j: nat | LastForwarded(seen, d.key, j, interval) ensures j == i {
      LastForwardedIsOne(seen, d.key, i, j, interval);
    }
  }

  /** A packet is only dropped if it repeats, byte for byte from offset 22 on, the packet of
      its sender and stream that was forwarded last, no more than the interval before,
      whatever was evicted meanwhile; the table stays bounded. */
  lemma DroppedRepeatsForwarded(seen: seq<Sighting>, n: nat, interval: real)
    requires n < |seen| && !Forwards(seen, n, interval)
    ensures IsBroadcast(seen[n].packet)
    ensures Repeats(seen[..n], seen[n], interval)
    ensures |TableAfter(seen, interval)| <= MAX_DEDUPERS
  {
    AlwaysFaithful(seen, interval);
    AlwaysFaithful(seen[..n], interval);
    var table, key := TableAfter(seen[..n], interval), KeyOf(seen[n].packet);
    var t := Prepared(table, key);
    PreparedKeys(table, key);
    assert t[Find(t, key)] in table;
    RepeatsWhen(seen[..n], seen[n], t[Find(t, key)], interval);
  }

  lemma LastForwardedIsOne(seen: seq<Sighting>, key: Key, i: nat, j: nat, interval: real)
    requires LastForwarded(seen, key, i, interval) && LastForwarded(seen, key, j, interval)
    ensures i == j
  {
  }

  // ----- Which keys are remembered ---------------------------------------------------------

  function LastOf(keys: seq<Key>, n: nat): seq<Key> {
    if |keys| <= n then keys else keys[|keys| - n..]
  }

  /** The keys for which a memory has been made, in order: one is made for every broadcast
      whose key is not among the 500 for which one was made last. */
  function MadeKeys(seen: seq<Sighting>): seq<Key> {
    if seen == [] then []
    else
      var made, p := MadeKeys(seen[..|seen| - 1]), seen[|seen| - 1].packet;
      if IsBroadcast(p) && KeyOf(p) !in LastOf(made, MAX_DEDUPERS) then made + [KeyOf(p)] else made
  }

  function Keys(table: Table): (keys: seq<Key>)
    ensures |keys| == |table| && forall i | 0 <= i < |table| :: keys[i] == table[i].key
  {
    seq(|table|, i requires 0 <= i < |table| => table[i].key)
  }

  lemma FoundAmongKeys(table: Table, key: Key)
    ensures Find(table, key) < |table| <==> key in Keys(table)
  {
    if key in Keys(table) {
      var k :| 0 <= k < |table| && Keys(table)[k] == key;
    }
  }

  lemma AllowedKeys(table: Table, s: Sighting, interval: real)
    requires IsBroadcast(s.packet)
    ensures Keys(Allow(table, s, interval).0) == Keys(Prepared(table, KeyOf(s.packet)))
  {
  }

  lemma PreparedIsLast(table: Table, key: Key, made: seq<Key>)
    requires Keys(table) == LastOf(made, MAX_DEDUPERS)
    ensures Keys(Prepared(table, key)) ==
            LastOf(if key in LastOf(made, MAX_DEDUPERS) then made else made + [key], MAX_DEDUPERS)
  {
    FoundAmongKeys(table, key);
    if key !in Keys(table) {
      assert Keys(Prepared(table, key)) == Keys(Evict(table)) + [key];
      if |table| == MAX_DEDUPERS { assert Keys(table[1..]) == Keys(table)[1..]; }
    }
  }

  /** However packets came, the keys remembered are the last 500 for which a memory was made;
      a key is forgotten exactly when 500 more memories have been made since its own. */
  lemma {:induction false} RemembersLastMade(seen: seq<Sighting>, interval: real)
    ensures Keys(TableAfter(seen, interval)) == LastOf(MadeKeys(seen), MAX_DEDUPERS)
  {
    if seen != [] {
      var front, s := seen[..|seen| - 1], seen[|seen| - 1];
      RemembersLastMade(front, interval);
      if IsBroadcast(s.packet) {
        AllowedKeys(TableAfter(front, interval), s, interval);
        PreparedIsLast(TableAfter(front, interval), KeyOf(s.packet), MadeKeys(front));
      }
    }
  }

  /** A broadcast is dropped exactly when fewer than 500 memories were made since that of its
      sender and stream, and it repeats the packet last forwarded for them within the
      interval. */
  lemma DroppedExactlyWhen(seen: seq<Sighting>, n: nat, interval: real)
    requires n < |seen| && IsBroadcast(seen[n].packet)
    ensures !Forwards(seen, n, interval) <==>
            KeyOf(seen[n].packet) in LastOf(MadeKeys(seen[..n]), MAX_DEDUPERS) && Repeats(seen[..n], seen[n], interval)
  {
    var table, key := TableAfter(seen[..n], interval), KeyOf(seen[n].packet);
    RemembersLastMade(seen[..n], interval);
    FoundAmongKeys(table, key);
    AlwaysFaithful(seen[..n], interval);
    if Find(table, key) < |table| {
      RepeatsWhen(seen[..n], seen[n], table[Find(table, key)], interval);
    } else {
      NewKeyPasses(table, seen[n], interval);
    }
  }

  lemma NewKeyPasses(table: Table, s: Sighting, interval: real)
    requires IsBroadcast(s.packet) && Find(table, KeyOf(s.packet)) == |table|
    requires |table| <= MAX_DEDUPERS && DistinctKeys(table)
    ensures Allow(table, s, interval).1
  {
    PreparedKeys(table, KeyOf(s.packet));
  }

  // ----- Without evictions ----------------------------------------------------------------------

  /** The senders and streams seen so far. */
  function KeysSeen(seen: seq<Sighting>): set<Key> {
    if seen == [] then {}
    else
      var p := seen[|seen| - 1].packet;
      KeysSeen(seen[..|seen| - 1]) + if IsBroadcast(p) then {KeyOf(p)} else {}
  }

  function KeysIn(table: Table): set<Key> { set k | 0 <= k < |table| :: table[k].key }

  lemma FoundInTable(table: Table, key: Key)
    ensures key in KeysIn(table) <==> Find(table, key) < |table|
  {
  }

  lemma {:induction false} KeyCount(table: Table)
    requires DistinctKeys(table)
    ensures |KeysIn(table)| == |table|
  {
    if table != [] {
      var front, last := table[..|table| - 1], table[|table| - 1];
      KeyCount(front);
      assert KeysIn(table) == KeysIn(front) + {last.key};
    }
  }

  /** As long as no more than 500 keys were seen, every one of them is remembered. */
  lemma {:induction false} AllRemembered(seen: seq<Sighting>, interval: real)
    requires |KeysSeen(seen)| <= MAX_DEDUPERS
    ensures KeysIn(TableAfter(seen, interval)) == KeysSeen(seen)
  {
    if seen != [] {
      var front, s := seen[..|seen| - 1], seen[|seen| - 1];
      SubsetSize(KeysSeen(front), KeysSeen(seen));
      AllRemembered(front, interval);
      AlwaysFaithful(front, interval);
      if IsBroadcast(s.packet) { KeysAfter(TableAfter(front, interval), s, interval); }
    }
  }

  lemma KeysAppend(table: Table, d: Deduper)
    ensures KeysIn(table + [d]) == KeysIn(table) + {d.key}
  {
    var t := table + [d];
    assert t[|table|] == d;
    assert forall k | 0 <= k < |table| :: t[k] == table[k];
  }

  lemma OneMore(keys: set<Key>, key: Key)
    requires key !in keys
    ensures |keys + {key}| == |keys| + 1
  {
  }

  lemma KeysPrepared(table: Table, key: Key)
    requires |table| <= MAX_DEDUPERS && DistinctKeys(table) && |KeysIn(table) + {key}| <= MAX_DEDUPERS
    ensures KeysIn(Prepared(table, key)) == KeysIn(table) + {key}
  {
    FoundInTable(table, key);
    if key !in KeysIn(table) {
      KeyCount(table);
      OneMore(KeysIn(table), key);
      KeysAppend(table, Deduper(key, 0.0, []));
    }
  }

  lemma KeysAfter(table: Table, s: Sighting, interval: real)
    requires IsBroadcast(s.packet) && |table| <= MAX_DEDUPERS && DistinctKeys(table)
    requires |KeysIn(table) + {KeyOf(s.packet)}| <= MAX_DEDUPERS
    ensures KeysIn(Allow(table, s, interval).0) == KeysIn(table) + {KeyOf(s.packet)}
  {
    KeysPrepared(table, KeyOf(s.packet));
    var t, after := Prepared(table, KeyOf(s.packet)), Allow(table, s, interval).0;
    assert |after| == |t| && forall k | 0 <= k < |t| :: after[k].key == t[k].key;
  }

  // ----- The filter as code ----------------------------------------------------------------------

  class BroadcastV2Deduper {
    const key: Key
    const interval: real
    var last: real
    var data: seq<byte>

    constructor (key: Key, interval: real)
      ensures View() == Deduper(key, 0.0, []) && this.interval == interval
    {
      this.key, this.interval := key, interval;
      last, data := 0.0, [];
    }

    ghost function View(): Deduper
      reads this
    {
      Deduper(key, last, data)
    }

    method AllowPacket(broadcast: seq<byte>, now: real, later: real) returns (allowed: bool)
      modifies this
      ensures allowed == Passes(old(View()), broadcast, now, interval)
      ensures View() == if allowed then Deduper(key, later, broadcast) else old(View())
    {
      if now > last + interval || data != broadcast {
        data := broadcast;
        last := later;
        return true;
      }
      return false;
    }
  }

  class BroadcastV2DeduperCollection {
    const interval: real
    var dedupers: seq<BroadcastV2Deduper>

    /** The table that the objects stand for. */
    ghost var view: Table

    ghost predicate Valid()
      reads this, dedupers
    {
      && |view| == |dedupers|
      && (forall i | 0 <= i < |dedupers| :: dedupers[i].View() == view[i] && dedupers[i].interval == interval)
      && (forall i, j | 0 <= i < j < |dedupers| :: dedupers[i] != dedupers[j])
    }

    constructor (interval: real)
      ensures Valid() && view == [] && this.interval == interval && dedupers == []
    {
      this.interval := interval;
      dedupers, view := [], [];
    }

    method Get(key: Key) returns (i: nat)
      requires Valid()
      ensures i == Find(view, key)
    {
      i := 0;
      assert view[0..] == view;
      while i < |dedupers| && dedupers[i].key != key
        invariant i <= |dedupers| && i + Find(view[i..], key) == Find(view, key)
      {
        assert dedupers[i].View() == view[i] && view[i..][1..] == view[i + 1..];
        i := i + 1;
      }
      if i < |dedupers| { assert dedupers[i].View() == view[i]; }
    }

    method EvictOldestDeduper()
      requires Valid() && dedupers != []
      modifies this
      ensures Valid() && view == old(view)[1..] && dedupers == old(dedupers)[1..]
    {
      dedupers, view := dedupers[1..], view[1..];
    }

    method Append(deduper: BroadcastV2Deduper)
      requires Valid() && deduper !in dedupers && deduper.interval == interval
      modifies this
      ensures Valid() && view == old(view) + [deduper.View()] && dedupers == old(dedupers) + [deduper]
    {
      dedupers, view := dedupers + [deduper], view + [deduper.View()];
    }

    /** Add a memory for a new key, and forget the oldest one when there are too many. */
    method Add(key: Key)
      requires Valid() && Find(view, key) == |view|
      modifies this
      ensures Valid() && view == Prepared(old(view), key) && dedupers != []
      ensures forall i | 0 <= i < |dedupers| :: fresh(dedupers[i]) || dedupers[i] in old(dedupers)
    {
      var deduper := new BroadcastV2Deduper(key, interval);
      if |dedupers| == MAX_DEDUPERS { EvictOldestDeduper(); }
      Append(deduper);
    }

    /** Find the memory for the key, or make it. */
    method Prepare(key: Key) returns (i: nat)
      requires Valid()
      modifies this
      ensures Valid() && view == Prepared(old(view), key) && i == Find(view, key)
      ensures forall i | 0 <= i < |dedupers| :: fresh(dedupers[i]) || dedupers[i] in old(dedupers)
    {
      i := Get(key);
      if i == |dedupers| { Add(key); }
      i := Get(key);
    }

    method AllowPacket(s: Sighting) returns (allowed: bool)
      requires Valid()
      modifies this, dedupers
      ensures Valid() && (view, allowed) == Allow(old(view), s, interval)
      ensures forall i | 0 <= i < |dedupers| :: fresh(dedupers[i]) || dedupers[i] in old(dedupers)
    {
      if !IsBroadcast(s.packet) { return true; }
      var i := Prepare(KeyOf(s.packet));
      allowed := Pass(i, DataOf(s.packet), s);
    }

    method Pass(i: nat, data: seq<byte>, s: Sighting) returns (allowed: bool)
      requires Valid() && i < |dedupers|
      modifies dedupers[i], this`view
      ensures Valid() && allowed == Passes(old(view)[i], data, s.now, interval)
      ensures view == if allowed then old(view)[i := Deduper(old(view)[i].key, s.later, data)] else old(view)
    {
      assert dedupers[i].View() == view[i];
      allowed := dedupers[i].AllowPacket(data, s.now, s.later);
      if allowed { view := view[i := Deduper(view[i].key, s.later, data)]; }
    }
  }
}
