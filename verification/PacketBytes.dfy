/** The packets of the serial port, byte by byte, and what one read does. */
module PacketBytes {
  import opened Bytes
  import opened Basics
  import opened Streams
  import opened Dedupe
  import opened Framing

  /** A header is four bytes; the length of what follows is in the two low bits of the first byte and
      in the second. */
  lemma LengthInHeader(p: seq<byte>)
    requires |p| >= 2
    ensures var high: nat, low: nat := p[0], p[1];
            && PacketLength(p) == high % 4 * 256 + low
            && (Framed(p) <==> |p| >= 4 && |p| == 4 + high % 4 * 256 + low)
            && (Partial(p) <==> |p| < 4 + high % 4 * 256 + low)
  {
  }

  lemma ShortIsPartial(p: seq<byte>)
    requires |p| < 4
    ensures Partial(p) && !Framed(p)
  {
  }

  // ----- Packets made by a device -----------------------------------------------------------------

  datatype Message = Message(flags: nat, kind: byte, command: byte, payload: seq<byte>)

  predicate Fits(m: Message) { m.flags < 64 && |m.payload| < 1024 }

  function PacketOf(m: Message): seq<byte>
    requires Fits(m)
  {
    [m.flags * 4 + |m.payload| / 256, |m.payload| % 256, m.kind, m.command] + m.payload
  }

  predicate AllFit(messages: seq<Message>) { forall i | 0 <= i < |messages| :: Fits(messages[i]) }

  function PacketsFor(messages: seq<Message>): (packets: seq<seq<byte>>)
    requires AllFit(messages)
    ensures |packets| == |messages| && forall i | 0 <= i < |packets| :: packets[i] == PacketOf(messages[i])
  {
    seq(|messages|, i requires 0 <= i < |messages| => PacketOf(messages[i]))
  }

  lemma PacketIsFramed(m: Message)
    requires Fits(m)
    ensures Framed(PacketOf(m))
  {
    LengthInHeader(PacketOf(m));
    assert (m.flags * 4 + |m.payload| / 256) % 4 == |m.payload| / 256;
  }

  /** The packets of any messages come out as they were made, however the port splits their bytes. */
  lemma MessagesComeOut(messages: seq<Message>, answers: seq<Read>)
    requires AllFit(messages)
    requires var r := Run(Joined(PacketsFor(messages)), answers, None); r.left == [] && r.status == Running
    ensures Run(Joined(PacketsFor(messages)), answers, None).queued == PacketsFor(messages)
  {
    forall i | 0 <= i < |messages| ensures Framed(PacketsFor(messages)[i]) { PacketIsFramed(messages[i]); }
    PacketsComeOut(PacketsFor(messages), answers);
  }

  // ----- One read -----------------------------------------------------------------------------------

  /** How many bytes the current packet still needs, as far as it is known. */
  function Missing(partial: seq<byte>): int {
    if |partial| < 4 then 4 - |partial|
    else
      var high: nat, low: nat := partial[0], partial[1];
      4 + high % 4 * 256 + low - |partial|
  }

  /** A read moves the next bytes from the port into the packet: as many as are missing, but no more
      than the port gives at once or has. */
  lemma ReadMoves(r: Reader, limit: nat, stopped: bool, late: bool, now: real, later: real)
    requires Partial(r.partial)
    ensures var n := Min(Missing(r.partial), Min(limit, |r.left|));
            && 0 <= n <= |r.left|
            && Take(r, Read.Bytes(limit, stopped, late, now, later)) ==
               Reader(r.left[n..], r.partial + r.left[..n], late, now, later, r.seen, r.queued, r.unsent,
                 if stopped then Stopped else Running)
  {
    if |r.partial| >= 4 { LengthInHeader(r.partial); }
  }

  /** A port that fails ends the reader, which queues a packet that says so. */
  lemma BrokenRead(r: Reader)
    requires Partial(r.partial)
    ensures Take(r, Broken) == r.(queued := r.queued + [[128, 0, 255, 255]], status := Failed)
  {
  }

  /** A whole packet is looked at once; it is queued unless it is dropped or the reader was told to
      stop meanwhile. */
  lemma PacketSettled(r: Reader, dedupe: Option<real>)
    requires r.status == Running && Framed(r.partial)
    ensures var s, r' := Sighting(r.partial, r.now, r.later), Settle(r, dedupe);
            var passes := dedupe == None || Forwards(r.seen + [s], |r.seen|, dedupe.value);
            && r'.left == r.left && r'.partial == [] && r'.seen == r.seen + [s]
            && r'.status == (if r.late then Stopped else Running)
            && r'.queued == r.queued + (if passes && !r.late then [r.partial] else [])
            && r'.unsent == r.unsent + (if passes && r.late then [r.partial] else [])
  {
    if dedupe.Some? { ForwardsLast(r.seen, Sighting(r.partial, r.now, r.later), dedupe.value); }
    assert r.queued + [] == r.queued && r.unsent + [] == r.unsent;
  }

  lemma NothingSettled(r: Reader, dedupe: Option<real>)
    requires r.status != Running || Partial(r.partial)
    ensures Settle(r, dedupe) == r
  {
  }
}
