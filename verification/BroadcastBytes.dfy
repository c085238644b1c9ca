/** The filter for repeated broadcasts, stated on the bytes of the packets. */
module BroadcastBytes {
  import opened Bytes
  import opened Basics
  import opened Dedupe

  // ----- Which bytes count ----------------------------------------------------------------------

  /** What makes a packet a broadcast of the second version. */
  predicate Broadcast(p: seq<byte>) {
    && |p| == 46
    && p[0] == 128 && p[2] == 6 && p[3] == 0
    && p[18] == 27 && p[19] == 22 && p[20] == 221 && p[21] == 253
  }

  /** Two broadcasts come from the same sender and carry the same stream. */
  predicate SameSource(p: seq<byte>, q: seq<byte>)
    requires |p| == 46 && |q| == 46
  {
    && (forall k | 22 <= k < 26 :: p[k] == q[k])
    && p[36] == q[36] && p[37] == q[37]
  }

  /** They agree from byte 22 to the end. */
  predicate SameFrom22(p: seq<byte>, q: seq<byte>)
    requires |p| == 46 && |q| == 46
  {
    forall k | 22 <= k < 46 :: p[k] == q[k]
  }

  lemma BytesThatCount(p: seq<byte>, q: seq<byte>)
    ensures IsBroadcast(p) <==> Broadcast(p)
    ensures |p| == 46 && |q| == 46 ==> (KeyOf(p) == KeyOf(q) <==> SameSource(p, q))
    ensures |p| == 46 && |q| == 46 ==> (DataOf(p) == DataOf(q) <==> SameFrom22(p, q))
  {
    if |p| == 46 && |q| == 46 {
      KeysByIndex(p, q);
      DataByIndex(p, q);
    }
  }

  lemma KeysByIndex(p: seq<byte>, q: seq<byte>)
    requires |p| == 46 && |q| == 46
    ensures KeyOf(p) == KeyOf(q) <==> SameSource(p, q)
  {
    if KeyOf(p) == KeyOf(q) {
      assert p[36] == p[36..38][0] && q[36] == q[36..38][0] && p[37] == p[36..38][1] && q[37] == q[36..38][1];
      forall k | 22 <= k < 26 ensures p[k] == q[k] { assert p[k] == p[22..26][k - 22] && q[k] == q[22..26][k - 22]; }
    }
    if SameSource(p, q) { assert p[22..26] == q[22..26] && p[36..38] == q[36..38]; }
  }

  lemma DataByIndex(p: seq<byte>, q: seq<byte>)
    requires |p| == 46 && |q| == 46
    ensures DataOf(p) == DataOf(q) <==> SameFrom22(p, q)
  {
    if DataOf(p) == DataOf(q) {
      forall k | 22 <= k < 46 ensures p[k] == q[k] { assert p[k] == p[22..][k - 22] && q[k] == q[22..][k - 22]; }
    }
    if SameFrom22(p, q) { assert p[22..] == q[22..]; }
  }

  // ----- What is dropped ---------------------------------------------------------------------------

  /** Packet i is the last forwarded broadcast of the same source before packet n. */
  ghost predicate ForwardedLast(seen: seq<Sighting>, i: nat, n: nat, interval: real)
    requires n < |seen| && |seen[n].packet| == 46
  {
    && i < n && Forwards(seen, i, interval)
    && Broadcast(seen[i].packet) && SameSource(seen[i].packet, seen[n].packet)
    && forall j | i < j < n && Broadcast(seen[j].packet) && SameSource(seen[j].packet, seen[n].packet) ::
         !Forwards(seen, j, interval)
  }

  lemma ForwardsInPrefix(seen: seq<Sighting>, n: nat, i: nat, interval: real)
    requires i < n <= |seen|
    ensures Forwards(seen[..n], i, interval) == Forwards(seen, i, interval)
  {
    assert seen[..n][..i] == seen[..i];
  }

  lemma ForwardedLastIff(seen: seq<Sighting>, i: nat, n: nat, interval: real)
    requires n < |seen| && Broadcast(seen[n].packet)
    ensures LastForwarded(seen[..n], KeyOf(seen[n].packet), i, interval) <==> ForwardedLast(seen, i, n, interval)
  {
    var before, p := seen[..n], seen[n].packet;
    forall j | 0 <= j < n
      ensures before[j] == seen[j] && Forwards(before, j, interval) == Forwards(seen, j, interval)
      ensures IsBroadcast(seen[j].packet) <==> Broadcast(seen[j].packet)
      ensures Broadcast(seen[j].packet) ==>
                (KeyOf(seen[j].packet) == KeyOf(p) <==> SameSource(seen[j].packet, p))
    {
      ForwardsInPrefix(seen, n, j, interval);
      BytesThatCount(seen[j].packet, p);
    }
  }

  /** The packet repeats packet i from byte 22 on, no later than the interval after that was
      forwarded. */
  ghost predicate RepeatsInTime(seen: seq<Sighting>, i: nat, n: nat, interval: real)
    requires n < |seen| && |seen[n].packet| == 46
  {
    && ForwardedLast(seen, i, n, interval)
    && SameFrom22(seen[i].packet, seen[n].packet) && seen[n].now <= seen[i].later + interval
  }

  lemma RepeatsByBytes(seen: seq<Sighting>, n: nat, interval: real)
    requires n < |seen| && IsBroadcast(seen[n].packet) && Broadcast(seen[n].packet)
    ensures Repeats(seen[..n], seen[n], interval) <==> exists i: nat :: RepeatsInTime(seen, i, n, interval)
  {
    var s := seen[n];
    if Repeats(seen[..n], s, interval) {
      var i: nat :|
        && LastForwarded(seen[..n], KeyOf(s.packet), i, interval)
        && DataOf(seen[..n][i].packet) == DataOf(s.packet) && s.now <= seen[..n][i].later + interval;
      ForwardedLastIff(seen, i, n, interval);
      DataByIndex(seen[i].packet, s.packet);
      assert RepeatsInTime(seen, i, n, interval);
    }
    if i: nat :| RepeatsInTime(seen, i, n, interval) {
      ForwardedLastIff(seen, i, n, interval);
      DataByIndex(seen[i].packet, s.packet);
      assert seen[..n][i] == seen[i];
    }
  }

  /** A dropped packet is a broadcast, and an earlier one of the same sender and stream, the last that
      was forwarded, has the same bytes from 22 on and was forwarded no longer ago than the interval. */
  lemma DroppedBytes(seen: seq<Sighting>, n: nat, interval: real)
    requires n < |seen| && !Forwards(seen, n, interval)
    ensures Broadcast(seen[n].packet) && exists i: nat :: RepeatsInTime(seen, i, n, interval)
  {
    DroppedRepeatsForwarded(seen, n, interval);
    BytesThatCount(seen[n].packet, seen[n].packet);
    RepeatsByBytes(seen, n, interval);
  }

  /** So a broadcast with any byte from 22 on that differs from the one last forwarded for its sender
      and stream is always forwarded, and so is the first one of a sender and stream. */
  lemma NewBytesPass(seen: seq<Sighting>, n: nat, interval: real)
    requires n < |seen| && Broadcast(seen[n].packet)
    requires forall i: nat | ForwardedLast(seen, i, n, interval) ::
               exists k | 22 <= k < 46 :: seen[i].packet[k] != seen[n].packet[k]
    ensures Forwards(seen, n, interval)
  {
    forall i: nat ensures !RepeatsInTime(seen, i, n, interval) {
      if ForwardedLast(seen, i, n, interval) {
        var k :| 22 <= k < 46 && seen[i].packet[k] != seen[n].packet[k];
      }
    }
    if !Forwards(seen, n, interval) { DroppedBytes(seen, n, interval); }
  }

  /** Conversely, a repetition in time is dropped, as long as no more than 500 senders and streams
      have been seen. */
  lemma RepetitionDropped(seen: seq<Sighting>, n: nat, i: nat, interval: real)
    requires n < |seen| && Broadcast(seen[n].packet) && RepeatsInTime(seen, i, n, interval)
    requires |KeysSeen(seen[..n])| <= 500
    ensures !Forwards(seen, n, interval)
  {
    var key, table := KeyOf(seen[n].packet), TableAfter(seen[..n], interval);
    BytesThatCount(seen[n].packet, seen[n].packet);
    RepeatsByBytes(seen, n, interval);
    AllRemembered(seen[..n], interval);
    BytesThatCount(seen[i].packet, seen[n].packet);
    SeenKey(seen[..n], i);
    FoundInTable(table, key);
    FoundAmongKeys(table, key);
    RemembersLastMade(seen[..n], interval);
    DroppedExactlyWhen(seen, n, interval);
  }

  lemma {:induction false} SeenKey(seen: seq<Sighting>, i: nat)
    requires i < |seen| && IsBroadcast(seen[i].packet)
    ensures KeyOf(seen[i].packet) in KeysSeen(seen)
  {
    if i < |seen| - 1 { SeenKey(seen[..|seen| - 1], i); }
  }
}
