/** Cutting the byte stream of a serial port into packets, however the port splits it. */
module Framing {
  import opened Bytes
  import opened Basics
  import opened Streams
  import opened Dedupe

  const HEADER_LENGTH: nat := 4

  /** What is queued when the port fails. */
  const FAILURE: seq<byte> := [0x80, 0, 255, 255]

  /** The payload length that a header announces. */
  function PacketLength(header: seq<byte>): (n: nat)
    requires |header| >= 2
    ensures n < 1024
  {
    var high: nat, low: nat := header[0] % 4, header[1];
    high * 256 + low
  }

  predicate Framed(p: seq<byte>) { |p| >= HEADER_LENGTH && |p| == HEADER_LENGTH + PacketLength(p) }

  predicate Partial(p: seq<byte>) { |p| < HEADER_LENGTH || |p| < HEADER_LENGTH + PacketLength(p) }

  predicate AllFramed(packets: seq<seq<byte>>) { forall i | 0 <= i < |packets| :: Framed(packets[i]) }

  function Joined(packets: seq<seq<byte>>): seq<byte> {
    if packets == [] then [] else packets[0] + Joined(packets[1..])
  }

  // ----- What the stream means -----------------------------------------------------------

  datatype Parsed = Parsed(packets: seq<seq<byte>>, rest: seq<byte>)

  /** Packets cut off the front as long as there is a whole one. */
  function Parse(input: seq<byte>): Parsed
    decreases |input|
  {
    if Partial(input) then Parsed([], input)
    else
      var n := HEADER_LENGTH + PacketLength(input);
      var more := Parse(input[n..]);
      Parsed([input[..n]] + more.packets, more.rest)
  }

  lemma {:induction false} JoinedOneMore(packets: seq<seq<byte>>, p: seq<byte>)
    ensures Joined(packets + [p]) == Joined(packets) + p
  {
    if packets == [] {
      assert [p][1..] == [] && p + [] == p;
    } else {
      assert (packets + [p])[1..] == packets[1..] + [p];
      JoinedOneMore(packets[1..], p);
      Associative(packets[0], Joined(packets[1..]), p);
    }
  }

  lemma ParseOneMore(p: seq<byte>, tail: seq<byte>)
    requires Framed(p)
    ensures Parse(p + tail) == Parsed([p] + Parse(tail).packets, Parse(tail).rest)
  {
    var all := p + tail;
    assert all[0] == p[0] && all[1] == p[1];
    assert all[..|p|] == p && all[|p|..] == tail;
  }

  /** Whole packets and an incomplete one are parsed back. */
  lemma {:induction false} ParseJoined(packets: seq<seq<byte>>, rest: seq<byte>)
    requires AllFramed(packets) && Partial(rest)
    ensures Parse(Joined(packets) + rest) == Parsed(packets, rest)
  {
    if packets == [] {
      assert Joined(packets) + rest == rest;
    } else {
      Associative(packets[0], Joined(packets[1..]), rest);
      ParseJoined(packets[1..], rest);
      ParseOneMore(packets[0], Joined(packets[1..]) + rest);
      assert [packets[0]] + packets[1..] == packets;
    }
  }

  // ----- The reader ----------------------------------------------------------------------------

  /** One read of the port: it gives at most so many bytes, and maybe none; the reader may be
      told to stop meanwhile, or afterwards while the filter looks at the packet that this read
      completes; the clock is read twice. */
  datatype Read = Bytes(limit: nat, stopped: bool, late: bool, now: real, later: real) | Broken

  datatype Status = Running | Stopped | Failed

  /** The bytes still to come, the bytes of the current packet, the packets seen, the packets
      queued, and the one that was ready to be queued when the reader was stopped. */
  datatype Reader = Reader(
    left: seq<byte>, partial: seq<byte>, late: bool, now: real, later: real,
    seen: seq<Sighting>, queued: seq<seq<byte>>, unsent: seq<seq<byte>>, status: Status)

  function Need(partial: seq<byte>): (n: int)
    ensures Partial(partial) ==> n > 0
  {
    if |partial| < HEADER_LENGTH then HEADER_LENGTH - |partial|
    else HEADER_LENGTH + PacketLength(partial) - |partial|
  }

  /** How many bytes a read gives when n are asked for. */
  function Given(n: nat, limit: nat, left: nat): nat { Min(n, Min(limit, left)) }

  function Take(r: Reader, read: Read): Reader
    requires Partial(r.partial)
  {
    match read
    case Broken => r.(queued := r.queued + [FAILURE], status := Failed)
    case Bytes(limit, stopped, late, now, later) =>
      var n := Given(Need(r.partial), limit, |r.left|);
      r.(left := r.left[n..], partial := r.partial + r.left[..n], late := late, now := now, later := later,
         status := if stopped then Stopped else Running)
  }

  predicate Admits(seen: seq<Sighting>, s: Sighting, dedupe: Option<real>) {
    dedupe.None? || Allow(TableAfter(seen, dedupe.value), s, dedupe.value).1
  }

  /** Queue the packet unless it is dropped as a repetition or the reader was stopped. */
  function Emit(r: Reader, dedupe: Option<real>): Reader {
    var s := Sighting(r.partial, r.now, r.later);
    var out := if Admits(r.seen, s, dedupe) then [r.partial] else [];
    var r' := r.(partial := [], seen := r.seen + [s], status := if r.late then Stopped else Running);
    if r.late then r'.(unsent := r.unsent + out) else r'.(queued := r.queued + out)
  }

  function Settle(r: Reader, dedupe: Option<real>): Reader {
    if r.status == Running && Framed(r.partial) then Emit(r, dedupe) else r
  }

  lemma TakeFits(r: Reader, read: Read)
    requires Partial(r.partial)
    ensures Partial(Take(r, read).partial) || Framed(Take(r, read).partial)
  {
    if read.Bytes? && |r.partial| >= HEADER_LENGTH {
      assert Take(r, read).partial[..2] == r.partial[..2];
    }
  }

  function Fresh(input: seq<byte>): Reader { Reader(input, [], false, 0.0, 0.0, [], [], [], Running) }

  function Run(input: seq<byte>, answers: seq<Read>, dedupe: Option<real>): (r: Reader)
    ensures r.status == Running ==> Partial(r.partial)
  {
    if answers == [] then Fresh(input)
    else
      var r := Run(input, answers[..|answers| - 1], dedupe);
      if r.status != Running then r
      else
        TakeFits(r, answers[|answers| - 1]);
        Settle(Take(r, answers[|answers| - 1]), dedupe)
  }

  // ----- What the reader gives --------------------------------------------------------------------

  function Packets(seen: seq<Sighting>): seq<seq<byte>> {
    seq(|seen|, i requires 0 <= i < |seen| => seen[i].packet)
  }

  function Delivered(seen: seq<Sighting>, dedupe: Option<real>): seq<seq<byte>> {
    if dedupe.None? then Packets(seen) else Forwarded(seen, dedupe.value)
  }

  predicate Accounted(input: seq<byte>, r: Reader, dedupe: Option<real>) {
    && input == Joined(Packets(r.seen)) + (r.partial + r.left)
    && AllFramed(Packets(r.seen))
    && (r.status == Running ==> Partial(r.partial))
    && HandedOut(r, dedupe)
  }

  /** All packets that pass the filter are queued, but for the last one if the reader was
      stopped before queuing it. */
  predicate HandedOut(r: Reader, dedupe: Option<real>) {
    if r.unsent == [] then r.queued == Delivered(r.seen, dedupe) + if r.status == Failed then [FAILURE] else []
    else r.status == Stopped && |r.unsent| == 1 && r.queued + r.unsent == Delivered(r.seen, dedupe)
  }

  lemma DeliveredOneMore(seen: seq<Sighting>, s: Sighting, dedupe: Option<real>)
    ensures Delivered(seen + [s], dedupe) ==
            Delivered(seen, dedupe) + if Admits(seen, s, dedupe) then [s.packet] else []
  {
    if dedupe.Some? {
      assert (seen + [s])[..|seen|] == seen;
    }
  }

  lemma EmitJoined(input: seq<byte>, seen: seq<Sighting>, s: Sighting, left: seq<byte>)
    requires input == Joined(Packets(seen)) + (s.packet + left)
    ensures input == Joined(Packets(seen + [s])) + ([] + left)
  {
    assert Packets(seen + [s]) == Packets(seen) + [s.packet];
    JoinedOneMore(Packets(seen), s.packet);
    Associative(Joined(Packets(seen)), s.packet, left);
    assert [] + left == left;
  }

  lemma FramedOneMore(seen: seq<Sighting>, s: Sighting)
    requires AllFramed(Packets(seen)) && Framed(s.packet)
    ensures AllFramed(Packets(seen + [s]))
  {
    assert Packets(seen + [s]) == Packets(seen) + [s.packet];
  }

  lemma EmitAccounted(input: seq<byte>, r: Reader, dedupe: Option<real>)
    requires input == Joined(Packets(r.seen)) + (r.partial + r.left) && AllFramed(Packets(r.seen))
    requires r.status == Running && Framed(r.partial) && r.unsent == [] && r.queued == Delivered(r.seen, dedupe)
    ensures Accounted(input, Emit(r, dedupe), dedupe)
  {
    var s := Sighting(r.partial, r.now, r.later);
    EmitJoined(input, r.seen, s, r.left);
    FramedOneMore(r.seen, s);
    DeliveredOneMore(r.seen, s, dedupe);
  }

  lemma TakeAccounted(input: seq<byte>, r: Reader, read: Read, dedupe: Option<real>)
    requires r.status == Running && Accounted(input, r, dedupe)
    ensures Accounted(input, Settle(Take(r, read), dedupe), dedupe)
  {
    TakeFits(r, read);
    TakeSame(r, read);
    var r' := Take(r, read);
    if r'.status == Running && Framed(r'.partial) { EmitAccounted(input, r', dedupe); }
  }

  lemma TakeSame(r: Reader, read: Read)
    requires Partial(r.partial)
    ensures Take(r, read).partial + Take(r, read).left == r.partial + r.left
    ensures Take(r, read).seen == r.seen && Take(r, read).unsent == r.unsent
  {
    if read.Bytes? {
      var n := Given(Need(r.partial), read.limit, |r.left|);
      assert (r.partial + r.left[..n]) + r.left[n..] == r.partial + r.left;
    }
  }

  /** However the port splits its bytes, with empty reads, a failure or a stop at any time:
      the packets seen, the bytes of an unfinished one and the unread bytes are the input,
      and the packets that pass the filter are queued, but for the one that a stop may find
      between the filter and the queue. */
  lemma {:induction false} NothingLost(input: seq<byte>, answers: seq<Read>, dedupe: Option<real>)
    ensures Accounted(input, Run(input, answers, dedupe), dedupe)
  {
    if answers == [] {
      assert Joined(Packets([])) + ([] + input) == input;
    } else {
      var r := Run(input, answers[..|answers| - 1], dedupe);
      NothingLost(input, answers[..|answers| - 1], dedupe);
      if r.status == Running { TakeAccounted(input, r, answers[|answers| - 1], dedupe); }
    }
  }

  /** When all bytes were read, the packets are those that the stream means, so any two ways
      of splitting it give the same ones. */
  lemma ReadsAsParsed(input: seq<byte>, answers: seq<Read>, dedupe: Option<real>)
    requires Run(input, answers, dedupe).left == [] && Run(input, answers, dedupe).status == Running
    ensures var r := Run(input, answers, dedupe);
            Parse(input) == Parsed(Packets(r.seen), r.partial) && r.queued == Delivered(r.seen, dedupe)
  {
    var r := Run(input, answers, dedupe);
    NothingLost(input, answers, dedupe);
    assert r.partial + r.left == r.partial;
    ParseJoined(Packets(r.seen), r.partial);
  }

  /** A stream of packets comes out as exactly these packets. */
  lemma PacketsComeOut(packets: seq<seq<byte>>, answers: seq<Read>)
    requires AllFramed(packets)
    requires Run(Joined(packets), answers, None).left == [] && Run(Joined(packets), answers, None).status == Running
    ensures Run(Joined(packets), answers, None).queued == packets
  {
    ReadsAsParsed(Joined(packets), answers, None);
    ParseJoined(packets, []);
    assert Joined(packets) + [] == Joined(packets);
  }

  /** With the filter on, every packet that does not come out is one that repeats the last
      one queued of its sender and stream. */
  lemma OnlyRepetitionsDropped(input: seq<byte>, answers: seq<Read>, interval: real, n: nat)
    requires n < |Run(input, answers, Some(interval)).seen|
    requires !Forwards(Run(input, answers, Some(interval)).seen, n, interval)
    ensures var seen := Run(input, answers, Some(interval)).seen;
            && IsBroadcast(seen[n].packet)
            && exists i: nat ::
                 && LastForwarded(seen[..n], KeyOf(seen[n].packet), i, interval)
                 && DataOf(seen[i].packet) == DataOf(seen[n].packet) && seen[n].now <= seen[i].later + interval
  {
    DroppedRepeatsForwarded(Run(input, answers, Some(interval)).seen, n, interval);
  }

  lemma OneMoreRead(input: seq<byte>, answers: seq<Read>, n: nat, dedupe: Option<real>, r: Reader)
    requires n < |answers| && r == Run(input, answers[..n], dedupe) && r.status == Running && Partial(r.partial)
    ensures Run(input, answers[..n + 1], dedupe) == Settle(Take(r, answers[n]), dedupe)
    ensures Partial(Take(r, answers[n]).partial) || Framed(Take(r, answers[n]).partial)
  {
    TakeFits(r, answers[n]);
    assert answers[..n + 1][..n] == answers[..n];
  }

  // ----- The reader as code -------------------------------------------------------------------------

  class PacketReader {
    const dedupe: Option<real>
    const script: seq<Read>
    ghost const input: seq<byte>

    /** How many reads were made, the bytes to come, and the clock after the last read. */
    var turn: nat
    var left: seq<byte>
    var late: bool
    var now: real
    var later: real
    var status: Status
    var queue: seq<seq<byte>>
    ghost var seen: seq<Sighting>
    ghost var unsent: seq<seq<byte>>

    constructor (input: seq<byte>, script: seq<Read>, dedupe: Option<real>)
      ensures this.dedupe == dedupe && this.script == script && this.input == input
      ensures turn == 0 && View([]) == Fresh(input)
    {
      this.dedupe, this.script, this.input := dedupe, script, input;
      turn, left, late, now, later, status, queue := 0, input, false, 0.0, 0.0, Running, [];
      seen, unsent := [], [];
    }

    ghost function View(partial: seq<byte>): Reader
      reads this
    {
      Reader(left, partial, late, now, later, seen, queue, unsent, status)
    }

    /** With these bytes in hand the reader is where the reads so far lead. */
    ghost predicate At(partial: seq<byte>)
      reads this
    {
      turn <= |script| && (Partial(partial) || Framed(partial)) &&
      Settle(View(partial), dedupe) == Run(input, script[..turn], dedupe)
    }

    /** What a read of the port does to the reader: some bytes, or a failure that is queued. */
    method Receive(partial: seq<byte>, read: Read) returns (chunk: seq<byte>)
      requires Partial(partial) && status == Running
      modifies this`left, this`late, this`now, this`later, this`status, this`queue
      ensures View(partial + chunk) == Take(old(View(partial)), read) && |chunk| <= Need(partial)
      ensures status != Failed ==> queue == old(queue)
    {
      match read {
        case Broken =>
          chunk := [];
          queue := queue + [FAILURE];
          status := Failed;
          assert partial + [] == partial;
        case Bytes(limit, stopped, l, t, u) =>
          var n := Given(Need(partial), limit, |left|);
          chunk := left[..n];
          left := left[n..];
          late, now, later := l, t, u;
          if stopped { status := Stopped; }
      }
    }

    /** Read at most n bytes from the port; a failure is queued and ends the reader. */
    method Read(partial: seq<byte>) returns (chunk: seq<byte>)
      requires At(partial) && status == Running && turn < |script| && Partial(partial)
      modifies this
      ensures At(partial + chunk) && turn == old(turn) + 1 && |chunk| <= Need(partial)
      ensures seen == old(seen) && (status != Failed ==> queue == old(queue))
    {
      OneMoreRead(input, script, turn, dedupe, View(partial));
      chunk := Receive(partial, script[turn]);
      turn := turn + 1;
    }

    /** Read until there are `total` bytes, or the reader stops, or nothing more happens. */
    method Fill(start: seq<byte>, total: nat) returns (bytes: seq<byte>)
      requires At(start) && status == Running && |start| <= total
      requires total == if |start| < HEADER_LENGTH then HEADER_LENGTH else HEADER_LENGTH + PacketLength(start)
      modifies this
      ensures At(bytes) && start <= bytes && |bytes| <= total && turn >= old(turn) && seen == old(seen)
      ensures status == Running && |bytes| < total ==> turn == |script|
      ensures |start| < total && |bytes| == total ==> turn > old(turn)
    {
      bytes := start;
      while |bytes| < total && status == Running && turn < |script|
        invariant At(bytes) && start <= bytes && |bytes| <= total && turn >= old(turn) && seen == old(seen)
        invariant |bytes| > |start| ==> turn > old(turn)
        invariant |bytes| >= HEADER_LENGTH && |start| >= HEADER_LENGTH ==> PacketLength(bytes) == PacketLength(start)
        decreases |script| - turn
      {
        var chunk := Read(bytes);
        bytes := bytes + chunk;
      }
    }

    /** A packet that was looked at is queued if it may and the reader has not been told to
        stop. */
    method Enqueue(packet: seq<byte>, allowed: bool)
      requires At(packet) && status == Running && Framed(packet)
      requires allowed == Admits(seen, Sighting(packet, now, later), dedupe)
      modifies this`queue, this`status, this`seen, this`unsent
      ensures At([]) && seen == old(seen) + [Sighting(packet, now, later)]
    {
      if allowed && !late {
        queue := queue + [packet];
      } else if allowed {
        unsent := unsent + [packet];
      }
      if late { status := Stopped; }
      seen := seen + [Sighting(packet, now, later)];
    }

    /** A whole packet goes to the queue, unless the filter drops it or the reader has been
        told to stop. */
    method Process(packet: seq<byte>, dedupers: BroadcastV2DeduperCollection?)
      requires At(packet) && status == Running && Framed(packet) && Filters(dedupers, seen)
      modifies this`queue, this`status, this`seen, this`unsent
      modifies dedupers, if dedupers == null then [] else dedupers.dedupers
      ensures At([]) && Filters(dedupers, seen)
      ensures dedupers != null ==>
        forall i | 0 <= i < |dedupers.dedupers| ::
          fresh(dedupers.dedupers[i]) || dedupers.dedupers[i] in old(dedupers.dedupers)
    {
      var s := Sighting(packet, now, later);
      var allowed := true;
      if dedupers != null { allowed := dedupers.AllowPacket(s); }
      assert dedupers != null ==> (seen + [s])[..|seen|] == seen;
      Enqueue(packet, allowed);
    }

    /** The filter is on when it should be and remembers what it has seen. */
    ghost predicate Filters(dedupers: BroadcastV2DeduperCollection?, seen: seq<Sighting>)
      reads dedupers, if dedupers == null then [] else dedupers.dedupers
    {
      && (dedupers == null <==> dedupe.None?)
      && (dedupers != null ==>
            dedupers.Valid() && dedupers.interval == dedupe.value && dedupers.view == TableAfter(seen, dedupe.value))
    }

    /** Read a header and then what it announces. */
    method ReadWhole() returns (packet: seq<byte>)
      requires At([]) && status == Running && turn < |script|
      modifies this
      ensures At(packet) && turn > old(turn) && seen == old(seen)
      ensures status == Running && Partial(packet) ==> turn == |script|
    {
      packet := Fill([], HEADER_LENGTH);
      if status == Running && |packet| == HEADER_LENGTH {
        packet := Fill(packet, HEADER_LENGTH + PacketLength(packet));
      }
    }

    /** Read one packet and process it; what is left over is nothing, or there is no more. */
    method ReadPacket(dedupers: BroadcastV2DeduperCollection?) returns (partial: seq<byte>)
      requires At([]) && status == Running && turn < |script| && Filters(dedupers, seen)
      modifies this, dedupers, if dedupers == null then [] else dedupers.dedupers
      ensures At(partial) && turn > old(turn) && Filters(dedupers, seen)
      ensures status == Running && turn < |script| ==> partial == []
      ensures dedupers != null ==>
        forall i | 0 <= i < |dedupers.dedupers| ::
          fresh(dedupers.dedupers[i]) || dedupers.dedupers[i] in old(dedupers.dedupers)
    {
      partial := ReadWhole();
      if status == Running && Framed(partial) {
        Process(partial, dedupers);
        partial := [];
      }
    }

    /** Read packets until told to stop, or the port fails, or nothing more happens; the bytes
        of an unfinished packet remain. */
    method ReaderThread() returns (partial: seq<byte>)
      requires turn == 0 && View([]) == Fresh(input)
      modifies this
      ensures Settle(View(partial), dedupe) == Run(input, script, dedupe)
    {
      var dedupers: BroadcastV2DeduperCollection? := null;
      if dedupe.Some? { dedupers := new BroadcastV2DeduperCollection(dedupe.value); }
      partial := [];
      while status == Running && turn < |script|
        invariant At(partial) && (status == Running && turn < |script| ==> partial == [])
        invariant Filters(dedupers, seen)
        invariant dedupers != null ==>
                  fresh(dedupers) && forall i | 0 <= i < |dedupers.dedupers| :: fresh(dedupers.dedupers[i])
        decreases |script| - turn
      {
        partial := ReadPacket(dedupers);
      }
      if status == Running { assert script[..turn] == script; } else { StaysStopped(input, script, turn, dedupe); }
    }
  }

  /** Once stopped or failed the reader reads no more. */
  lemma {:induction false} StaysStopped(input: seq<byte>, answers: seq<Read>, k: nat, dedupe: Option<real>)
    requires k <= |answers| && Run(input, answers[..k], dedupe).status != Running
    ensures Run(input, answers, dedupe) == Run(input, answers[..k], dedupe)
  {
    if k == |answers| {
      assert answers[..k] == answers;
    } else {
      assert answers[..|answers| - 1][..k] == answers[..k];
      StaysStopped(input, answers[..|answers| - 1], k, dedupe);
    }
  }
}
