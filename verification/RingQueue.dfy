/** The circular queue in a device's memory through which it sends trace and stream
    frames to the host over J-Link.  Addresses count from the control structure's base. */
module RingQueue {
  import opened Bytes
  import opened Basics

  const QUEUE_OFFSET: nat := 68
  const FRAME_SIZE: nat := 21

  // ----- The layout of the queue ------------------------------------------------------

  function HeaderAddress(slot: nat): nat { QUEUE_OFFSET + 4 + slot * 21 }

  function ReadIndex(mem: seq<byte>): nat
    requires |mem| > QUEUE_OFFSET
  {
    mem[QUEUE_OFFSET]
  }

  function WriteIndex(mem: seq<byte>): nat
    requires |mem| > QUEUE_OFFSET + 1
  {
    mem[QUEUE_OFFSET + 1]
  }

  function Size(mem: seq<byte>): nat
    requires |mem| > QUEUE_OFFSET + 3
  {
    var low: nat, high: nat := mem[QUEUE_OFFSET + 2], mem[QUEUE_OFFSET + 3];
    low + high * 256
  }

  /** A queue that the device has set up: indices are single bytes that name slots. */
  predicate Shaped(mem: seq<byte>) {
    && |mem| >= HeaderAddress(0)
    && Size(mem) <= 256
    && |mem| == HeaderAddress(Size(mem))
    && ReadIndex(mem) < Size(mem) && WriteIndex(mem) < Size(mem)
  }

  function Slot(mem: seq<byte>, i: nat): (frame: seq<byte>)
    requires |mem| >= HeaderAddress(i + 1)
    ensures |frame| == FRAME_SIZE
  {
    mem[HeaderAddress(i)..HeaderAddress(i + 1)]
  }

  /** How many slots from r on hold frames when the next free one is w. */
  function Waiting(r: nat, w: nat, size: nat): nat
    requires r < size && w < size
  {
    if r > w then w + size - r else w - r
  }

  /** The slot i places after r, around the end of the queue. */
  function Around(r: nat, i: nat, size: nat): (slot: nat)
    requires r < size && i <= size
    ensures slot < size
  {
    if r + i < size then r + i else r + i - size
  }

  lemma AroundIsModulo(r: nat, i: nat, size: nat)
    requires r < size && i <= size
    ensures Around(r, i, size) == (r + i) % size
  {
    var x := r + i;
    var q, rest := x / size, x % size;
    assert x == q * size + rest;
    assert q >= 2 ==> q * size >= 2 * size;
    if q == 0 { assert q * size == 0; }
    if q == 1 { assert q * size == size; }
  }

  /** The frames of n slots from r on. */
  function Stored(mem: seq<byte>, r: nat, n: nat): (frames: seq<seq<byte>>)
    requires Shaped(mem) && r < Size(mem) && n <= Size(mem)
    ensures Frames(frames) && |frames| == n
  {
    seq(n, i requires 0 <= i < n => Slot(mem, Around(r, i, Size(mem))))
  }

  /** The frames in the queue, oldest first. */
  function Live(mem: seq<byte>): seq<seq<byte>>
    requires Shaped(mem)
  {
    Stored(mem, ReadIndex(mem), Waiting(ReadIndex(mem), WriteIndex(mem), Size(mem)))
  }

  function Span(start: nat, n: nat): seq<nat> { seq(n, i requires 0 <= i < n => start + i) }

  /** The addresses the host reads for the frames from r to w, in one or two blocks. */
  function Addresses(r: nat, w: nat, size: nat): seq<nat>
    requires r < size && w < size
  {
    if r > w then Span(HeaderAddress(r), (size - r) * 21) + Span(HeaderAddress(0), (w + 1) * 21)
    else Span(HeaderAddress(r), (w - r + 1) * 21)
  }

  /** Wrapped or not, byte j of the flattened frame i is byte j of slot (r + i) modulo the
      size; one frame more is read than is waiting. */
  lemma FrameIsSlot(r: nat, w: nat, size: nat, i: nat, j: nat)
    requires r < size && w < size && i <= Waiting(r, w, size) && j < FRAME_SIZE
    ensures |Addresses(r, w, size)| == (Waiting(r, w, size) + 1) * 21
    ensures Addresses(r, w, size)[i * 21 + j] == HeaderAddress((r + i) % size) + j
  {
    AroundIsModulo(r, i, size);
  }

  // ----- Frames ---------------------------------------------------------------------------

  predicate IsTrace(frame: seq<byte>)
    requires frame != []
  {
    (frame[0] / 0x40) % 2 == 1
  }

  predicate IsStream(frame: seq<byte>)
    requires frame != []
  {
    (frame[0] / 0x80) % 2 == 1
  }

  /** The header claims more payload than a frame has room for. */
  predicate Overlong(frame: seq<byte>)
    requires frame != []
  {
    frame[0] % 0x40 > FRAME_SIZE - 1
  }

  function Payload(frame: seq<byte>): seq<byte>
    requires |frame| == FRAME_SIZE && !Overlong(frame)
  {
    frame[1..frame[0] % 0x40 + 1]
  }

  predicate Frames(frames: seq<seq<byte>>) { forall i | 0 <= i < |frames| :: |frames[i]| == FRAME_SIZE }

  predicate Good(frames: seq<seq<byte>>)
    requires Frames(frames)
  {
    forall i | 0 <= i < |frames| :: !Overlong(frames[i])
  }

  /** The frames that the host gets to before an overlong one makes it give up. */
  function UpToLong(frames: seq<seq<byte>>): (f: seq<seq<byte>>)
    requires Frames(frames)
    ensures f <= frames && Good(f)
    ensures f == frames <==> Good(frames)
  {
    if frames == [] || Overlong(frames[0]) then []
    else
      assert frames == [frames[0]] + frames[1..];
      [frames[0]] + UpToLong(frames[1..])
  }

  /** A frame that the host has looked at, and the interfaces that were open then. */
  datatype Handed = Handed(frame: seq<byte>, tracing: bool, streaming: bool)

  predicate Looked(h: Handed) { |h.frame| == FRAME_SIZE && !Overlong(h.frame) }

  predicate ToTrace(h: Handed) { Looked(h) && IsTrace(h.frame) && h.tracing }

  /** A frame marked as both goes to the trace when that is open. */
  predicate ToStream(h: Handed) { Looked(h) && !ToTrace(h) && IsStream(h.frame) && h.streaming }

  predicate LogOk(log: seq<Handed>) { forall i | 0 <= i < |log| :: Looked(log[i]) }

  function TraceOf(h: Handed): seq<byte> { if ToTrace(h) then Payload(h.frame) else [] }

  function StreamOf(h: Handed): seq<byte> { if ToStream(h) then Payload(h.frame) else [] }

  function Traced(log: seq<Handed>): seq<byte> {
    if log == [] then [] else Traced(log[..|log| - 1]) + TraceOf(log[|log| - 1])
  }

  function Streamed(log: seq<Handed>): seq<byte> {
    if log == [] then [] else Streamed(log[..|log| - 1]) + StreamOf(log[|log| - 1])
  }

  function FramesOf(log: seq<Handed>): seq<seq<byte>> {
    seq(|log|, i requires 0 <= i < |log| => log[i].frame)
  }

  /** The frames looked at so far and the bytes that the two sinks got. */
  datatype Sinks = Sinks(log: seq<Handed>, traces: seq<byte>, reports: seq<byte>)

  function HandOne(k: Sinks, h: Handed): Sinks {
    Sinks(k.log + [h], k.traces + TraceOf(h), k.reports + StreamOf(h))
  }

  /** Go through the frames, and give up at an overlong one. */
  function HandOut(k: Sinks, frames: seq<seq<byte>>, tracing: bool, streaming: bool): Sinks
    requires Frames(frames)
    decreases |frames|
  {
    if frames == [] || Overlong(frames[0]) then k
    else HandOut(HandOne(k, Handed(frames[0], tracing, streaming)), frames[1..], tracing, streaming)
  }

  // ----- The device and the host side by side ------------------------------------------------

  /** Where the host is in a poll: between polls, reading the bytes for the frames up to
      the write index it saw, or about to write that back as the read index. */
  datatype Host = Resting | Reading(w: nat, got: seq<byte>) | Finished(w: nat)

  /** The shared memory, the host, and what came of it: every frame the device has queued,
      every frame that has left the queue, what the host made of them, and how many polls
      failed to read the memory. */
  datatype System = System(
    mem: seq<byte>, host: Host, tracing: bool, streaming: bool,
    sent: seq<seq<byte>>, taken: seq<seq<byte>>, sinks: Sinks, failed: nat)

  datatype Step =
    | Fill(j: nat, b: byte)                     // the device writes a byte of the free slot
    | Publish                                   // the device moves the write index
    | Poll                                      // the host reads the indices
    | ReadByte                                  // the host reads one more byte
    | Deliver                                   // the host goes through the frames it read
    | FailRead                                  // reading the memory fails
    | Acknowledge                               // the host writes the read index
    | SetOpen(tracing: bool, streaming: bool)   // a client opens or closes interfaces

  /** The bytes read so far, cut into frames, without the one in the free slot. */
  function Cut(got: seq<byte>, n: nat): (frames: seq<seq<byte>>)
    requires |got| >= n * 21
    ensures Frames(frames) && |frames| == n
  {
    seq(n, i requires 0 <= i < n => CutOne(got, i, n))
  }

  function CutOne(got: seq<byte>, i: nat, n: nat): (frame: seq<byte>)
    requires i < n && |got| >= n * 21
    ensures |frame| == FRAME_SIZE
  {
    got[i * 21..i * 21 + FRAME_SIZE]
  }

  function Next(s: System, step: Step): (s': System)
    requires Shaped(s.mem)
    ensures Shaped(s'.mem)
  {
    match step
    case Fill(j, b) => DoFill(s, j, b)
    case Publish => DoPublish(s)
    case Poll =>
      if s.host.Resting? && ReadIndex(s.mem) != WriteIndex(s.mem) then s.(host := Reading(WriteIndex(s.mem), [])) else s
    case ReadByte => DoReadByte(s)
    case Deliver => DoDeliver(s)
    case FailRead => DoFail(s)
    case Acknowledge => DoAcknowledge(s)
    case SetOpen(tracing, streaming) => s.(tracing := tracing, streaming := streaming)
  }

  function DoFill(s: System, j: nat, b: byte): System
    requires Shaped(s.mem)
  {
    if j < FRAME_SIZE then s.(mem := Filled(s.mem, j, b)) else s
  }

  function Filled(mem: seq<byte>, j: nat, b: byte): (mem': seq<byte>)
    requires Shaped(mem) && j < FRAME_SIZE
    ensures Shaped(mem') && Size(mem') == Size(mem)
    ensures ReadIndex(mem') == ReadIndex(mem) && WriteIndex(mem') == WriteIndex(mem)
  {
    mem[HeaderAddress(WriteIndex(mem)) + j := b]
  }

  function Published(mem: seq<byte>): (mem': seq<byte>)
    requires Shaped(mem)
    ensures Shaped(mem') && Size(mem') == Size(mem) && ReadIndex(mem') == ReadIndex(mem)
    ensures WriteIndex(mem') == Around(WriteIndex(mem), 1, Size(mem))
  {
    mem[QUEUE_OFFSET + 1 := Around(WriteIndex(mem), 1, Size(mem))]
  }

  /** The device never overruns the queue: one slot stays free. */
  function DoPublish(s: System): System
    requires Shaped(s.mem)
  {
    var w := WriteIndex(s.mem);
    if Around(w, 1, Size(s.mem)) == ReadIndex(s.mem) then s
    else s.(mem := Published(s.mem), sent := s.sent + [Slot(s.mem, w)])
  }

  function DoReadByte(s: System): System
    requires Shaped(s.mem)
  {
    if !s.host.Reading? || s.host.w >= Size(s.mem) then s
    else
      var at := Addresses(ReadIndex(s.mem), s.host.w, Size(s.mem));
      if |s.host.got| < |at| && at[|s.host.got|] < |s.mem|
      then s.(host := s.host.(got := s.host.got + [s.mem[at[|s.host.got|]]])) else s
  }

  /** The host has all bytes and goes through the frames. */
  function DoDeliver(s: System): System
    requires Shaped(s.mem)
  {
    if !s.host.Reading? || s.host.w >= Size(s.mem) then s
    else
      var r := ReadIndex(s.mem);
      var n := Waiting(r, s.host.w, Size(s.mem));
      if |s.host.got| < (n + 1) * 21 then s
      else
        s.(host := Finished(s.host.w), taken := s.taken + Stored(s.mem, r, n),
           sinks := HandOut(s.sinks, Cut(s.host.got, n), s.tracing, s.streaming))
  }

  function DoFail(s: System): System
    requires Shaped(s.mem)
  {
    if !s.host.Reading? || s.host.w >= Size(s.mem) then s
    else
      var r := ReadIndex(s.mem);
      s.(host := Finished(s.host.w), failed := s.failed + 1,
         taken := s.taken + Stored(s.mem, r, Waiting(r, s.host.w, Size(s.mem))))
  }

  function DoAcknowledge(s: System): System
    requires Shaped(s.mem)
  {
    if !s.host.Finished? || s.host.w >= Size(s.mem) then s
    else s.(host := Resting, mem := s.mem[QUEUE_OFFSET := s.host.w])
  }

  // ----- What every run keeps ------------------------------------------------------------

  /** The frames that have not been taken are in the queue. */
  function Rest(s: System): seq<seq<byte>>
    requires Shaped(s.mem) && (s.host.Finished? ==> s.host.w < Size(s.mem))
  {
    if s.host.Finished? then Stored(s.mem, s.host.w, Waiting(s.host.w, WriteIndex(s.mem), Size(s.mem)))
    else Live(s.mem)
  }

  /** The host saw a write index that the device has since only moved on from. */
  predicate Behind(mem: seq<byte>, w: nat)
    requires Shaped(mem)
  {
    && w < Size(mem) && w != ReadIndex(mem)
    && Waiting(ReadIndex(mem), w, Size(mem)) <= Waiting(ReadIndex(mem), WriteIndex(mem), Size(mem))
  }

  /** What was read of the flattened frame i is what the frame is. */
  predicate Agrees(got: seq<byte>, i: nat, frame: seq<byte>)
    requires |frame| == FRAME_SIZE
  {
    forall j | 0 <= j < FRAME_SIZE && i * 21 + j < |got| :: got[i * 21 + j] == frame[j]
  }

  /** What was read of the frames is what they are. */
  predicate AllAgree(got: seq<byte>, frames: seq<seq<byte>>)
    requires Frames(frames)
  {
    forall i | 0 <= i < |frames| :: Agrees(got, i, frames[i])
  }

  /** The queue holds what was sent and not taken, and the host's view of it is current. */
  ghost predicate QueueInv(s: System) {
    && Shaped(s.mem)
    && (!s.host.Resting? ==> Behind(s.mem, s.host.w))
    && (s.host.Reading? ==> AllAgree(s.host.got, Seen(s.mem, s.host.w)))
    && s.taken + Rest(s) == s.sent
  }

  /** The frames from the read index to the write index that the host saw. */
  function Seen(mem: seq<byte>, w: nat): (frames: seq<seq<byte>>)
    requires Shaped(mem) && w < Size(mem)
    ensures Frames(frames)
  {
    Stored(mem, ReadIndex(mem), Waiting(ReadIndex(mem), w, Size(mem)))
  }

  /** The sinks got what the log says, and the log has every frame taken exactly when no
      read failed and no frame was overlong. */
  ghost predicate LogInv(s: System) {
    && SinksOk(s.sinks) && Frames(s.taken)
    && |FramesOf(s.sinks.log)| <= |s.taken|
    && (FramesOf(s.sinks.log) == s.taken <==> s.failed == 0 && Good(s.taken))
  }

  predicate SinksOk(k: Sinks) { LogOk(k.log) && k.traces == Traced(k.log) && k.reports == Streamed(k.log) }

  ghost predicate Inv(s: System) { QueueInv(s) && LogInv(s) }

  lemma SlotsApart(mem: seq<byte>, at: nat, b: byte, i: nat)
    requires Shaped(mem) && i < Size(mem) && at < |mem|
    requires at < HeaderAddress(i) || HeaderAddress(i + 1) <= at
    ensures Slot(mem[at := b], i) == Slot(mem, i)
  {
  }

  /** A write to a slot that is none of the n from r on leaves their frames alone. */
  lemma StoredApart(mem: seq<byte>, free: nat, j: nat, b: byte, r: nat, n: nat)
    requires Shaped(mem) && free < Size(mem) && j < FRAME_SIZE && r < Size(mem) && n <= Size(mem)
    requires forall i | 0 <= i < n :: Around(r, i, Size(mem)) != free
    ensures Shaped(mem[HeaderAddress(free) + j := b])
    ensures Stored(mem[HeaderAddress(free) + j := b], r, n) == Stored(mem, r, n)
  {
    var at := HeaderAddress(free) + j;
    forall i | 0 <= i < n ensures Stored(mem[at := b], r, n)[i] == Stored(mem, r, n)[i] {
      SlotsApart(mem, at, b, Around(r, i, Size(mem)));
    }
  }

  lemma StoredSplits(mem: seq<byte>, r: nat, m: nat, n: nat)
    requires Shaped(mem) && r < Size(mem) && m + n <= Size(mem)
    ensures Stored(mem, r, m + n) == Stored(mem, r, m) + Stored(mem, Around(r, m, Size(mem)), n)
  {
    forall i | 0 <= i < n ensures Around(r, m + i, Size(mem)) == Around(Around(r, m, Size(mem)), i, Size(mem)) {
    }
  }

  // ----- The steps ------------------------------------------------------------------------------

  /** When the frames in the queue and the host's view of them are the same as before, the
      invariant only asks for the books to balance. */
  lemma SameFrames(s: System, s': System)
    requires QueueInv(s) && Shaped(s'.mem) && s'.host == s.host
    requires !s.host.Resting? ==> Behind(s'.mem, s.host.w) && Seen(s'.mem, s.host.w) == Seen(s.mem, s.host.w)
    requires s'.taken + Rest(s') == s'.sent
    ensures QueueInv(s')
  {
  }

  /** The device fills a slot that no one else looks at. */
  lemma FillApart(mem: seq<byte>, j: nat, b: byte, from: nat, n: nat)
    requires Shaped(mem) && j < FRAME_SIZE && from < Size(mem) && n <= Waiting(from, WriteIndex(mem), Size(mem))
    ensures Stored(Filled(mem, j, b), from, n) == Stored(mem, from, n)
  {
    StoredApart(mem, WriteIndex(mem), j, b, from, n);
  }

  lemma FillKeeps(s: System, j: nat, b: byte)
    requires QueueInv(s) && j < FRAME_SIZE
    ensures QueueInv(DoFill(s, j, b))
  {
    var r, w, size := ReadIndex(s.mem), WriteIndex(s.mem), Size(s.mem);
    FillApart(s.mem, j, b, r, Waiting(r, w, size));
    if !s.host.Resting? {
      FillApart(s.mem, j, b, r, Waiting(r, s.host.w, size));
      FillApart(s.mem, j, b, s.host.w, Waiting(s.host.w, w, size));
    }
    SameFrames(s, DoFill(s, j, b));
  }

  /** Moving an index leaves every frame where it is. */
  lemma IndexMoves(mem: seq<byte>, at: nat, b: byte, r: nat, n: nat)
    requires Shaped(mem) && QUEUE_OFFSET <= at < QUEUE_OFFSET + 2 && b < Size(mem) && r < Size(mem) && n <= Size(mem)
    ensures Shaped(mem[at := b]) && Stored(mem[at := b], r, n) == Stored(mem, r, n)
  {
    forall i | 0 <= i < n ensures Stored(mem[at := b], r, n)[i] == Stored(mem, r, n)[i] {
      SlotsApart(mem, at, b, Around(r, i, Size(mem)));
    }
  }

  /** Publishing adds the filled slot and leaves every frame where it is. */
  lemma PublishAdds(mem: seq<byte>, from: nat, n: nat)
    requires Shaped(mem) && from < Size(mem) && n <= Size(mem)
    ensures Stored(Published(mem), from, n) == Stored(mem, from, n)
    ensures var w := WriteIndex(mem);
            n == Waiting(from, w, Size(mem)) && Around(w, 1, Size(mem)) != from ==>
              && Waiting(from, Around(w, 1, Size(mem)), Size(mem)) == n + 1
              && Stored(Published(mem), from, n + 1) == Stored(mem, from, n) + [Slot(mem, w)]
  {
    var w := WriteIndex(mem);
    IndexMoves(mem, QUEUE_OFFSET + 1, Around(w, 1, Size(mem)), from, n);
    if n < Size(mem) { IndexMoves(mem, QUEUE_OFFSET + 1, Around(w, 1, Size(mem)), from, n + 1); }
  }

  lemma RestGrows(s: System)
    requires QueueInv(s) && Around(WriteIndex(s.mem), 1, Size(s.mem)) != ReadIndex(s.mem)
    ensures Rest(DoPublish(s)) == Rest(s) + [Slot(s.mem, WriteIndex(s.mem))]
  {
    var from := if s.host.Finished? then s.host.w else ReadIndex(s.mem);
    PublishAdds(s.mem, from, Waiting(from, WriteIndex(s.mem), Size(s.mem)));
  }

  lemma PublishKeeps(s: System)
    requires QueueInv(s)
    ensures QueueInv(DoPublish(s))
  {
    var r, w, size := ReadIndex(s.mem), WriteIndex(s.mem), Size(s.mem);
    if Around(w, 1, size) != r {
      RestGrows(s);
      assert s.taken + (Rest(s) + [Slot(s.mem, w)]) == (s.taken + Rest(s)) + [Slot(s.mem, w)];
      if !s.host.Resting? { PublishAdds(s.mem, r, Waiting(r, s.host.w, size)); }
      SameFrames(s, DoPublish(s));
    }
  }

  lemma AgreesGrows(got: seq<byte>, b: byte, i: nat, frame: seq<byte>)
    requires |frame| == FRAME_SIZE && Agrees(got, i, frame)
    requires i == |got| / 21 ==> b == frame[|got| % 21]
    ensures Agrees(got + [b], i, frame)
  {
    forall j | 0 <= j < FRAME_SIZE && i * 21 + j < |got| + 1 ensures (got + [b])[i * 21 + j] == frame[j] {
      if i * 21 + j == |got| { assert i == |got| / 21 && j == |got| % 21; }
    }
  }

  lemma AllAgreeGrows(got: seq<byte>, b: byte, frames: seq<seq<byte>>)
    requires Frames(frames) && AllAgree(got, frames)
    requires |got| / 21 < |frames| ==> b == frames[|got| / 21][|got| % 21]
    ensures AllAgree(got + [b], frames)
  {
    forall i | 0 <= i < |frames| ensures Agrees(got + [b], i, frames[i]) { AgreesGrows(got, b, i, frames[i]); }
  }

  /** The byte that the host reads next is where the flattened frame says. */
  lemma NextByte(mem: seq<byte>, w: nat, k: nat)
    requires Shaped(mem) && w < Size(mem) && k / 21 < |Seen(mem, w)|
    ensures var addresses := Addresses(ReadIndex(mem), w, Size(mem));
            k < |addresses| && addresses[k] < |mem| && mem[addresses[k]] == Seen(mem, w)[k / 21][k % 21]
  {
    var r, size, i, j := ReadIndex(mem), Size(mem), k / 21, k % 21;
    FrameIsSlot(r, w, size, i, j);
    AroundIsModulo(r, i, size);
    assert Seen(mem, w)[i] == Slot(mem, Around(r, i, size));
    assert i * 21 + j == k;
  }

  lemma ReadKeeps(s: System)
    requires QueueInv(s)
    ensures QueueInv(DoReadByte(s))
  {
    var s' := DoReadByte(s);
    if s.host.Reading? && s' != s {
      var k := |s.host.got|;
      if k / 21 < |Seen(s.mem, s.host.w)| { NextByte(s.mem, s.host.w, k); }
      AllAgreeGrows(s.host.got, s.mem[Addresses(ReadIndex(s.mem), s.host.w, Size(s.mem))[k]], Seen(s.mem, s.host.w));
    }
  }

  /** What the host cuts out of the bytes it read are the frames in the queue. */
  lemma CutIsSeen(s: System)
    requires QueueInv(s) && s.host.Reading?
    requires |s.host.got| >= (Waiting(ReadIndex(s.mem), s.host.w, Size(s.mem)) + 1) * 21
    ensures Cut(s.host.got, Waiting(ReadIndex(s.mem), s.host.w, Size(s.mem))) == Seen(s.mem, s.host.w)
  {
    var n := Waiting(ReadIndex(s.mem), s.host.w, Size(s.mem));
    forall i | 0 <= i < n ensures Cut(s.host.got, n)[i] == Seen(s.mem, s.host.w)[i] {
      assert Agrees(s.host.got, i, Seen(s.mem, s.host.w)[i]);
    }
  }

  lemma SeenThenRest(mem: seq<byte>, w: nat)
    requires Shaped(mem) && Behind(mem, w)
    ensures Live(mem) == Seen(mem, w) + Stored(mem, w, Waiting(w, WriteIndex(mem), Size(mem)))
  {
    StoredSplits(mem, ReadIndex(mem), Waiting(ReadIndex(mem), w, Size(mem)), Waiting(w, WriteIndex(mem), Size(mem)));
  }

  /** Taking frames moves them from the front of the queue to the books. */
  lemma TakeKeeps(s: System, s': System)
    requires QueueInv(s) && s.host.Reading? && s'.host == Finished(s.host.w)
    requires s'.mem == s.mem && s'.sent == s.sent && s'.taken == s.taken + Seen(s.mem, s.host.w)
    ensures QueueInv(s')
  {
    SeenThenRest(s.mem, s.host.w);
    assert s.taken + (Seen(s.mem, s.host.w) + Rest(s')) == (s.taken + Seen(s.mem, s.host.w)) + Rest(s');
  }

  lemma AcknowledgeKeeps(s: System)
    requires QueueInv(s)
    ensures QueueInv(DoAcknowledge(s))
  {
    if s.host.Finished? {
      var w := s.host.w;
      IndexMoves(s.mem, QUEUE_OFFSET, w, w, Waiting(w, WriteIndex(s.mem), Size(s.mem)));
      assert Rest(DoAcknowledge(s)) == Rest(s);
    }
  }

  lemma HandOneKeeps(k: Sinks, h: Handed)
    requires SinksOk(k) && Looked(h)
    ensures SinksOk(HandOne(k, h)) && FramesOf(HandOne(k, h).log) == FramesOf(k.log) + [h.frame]
  {
    assert HandOne(k, h).log[..|k.log|] == k.log;
  }

  lemma {:induction false} HandOutKeeps(k: Sinks, frames: seq<seq<byte>>, tracing: bool, streaming: bool)
    requires SinksOk(k) && Frames(frames)
    ensures var k' := HandOut(k, frames, tracing, streaming);
            SinksOk(k') && FramesOf(k'.log) == FramesOf(k.log) + UpToLong(frames)
    decreases |frames|
  {
    if frames != [] && !Overlong(frames[0]) {
      var h := Handed(frames[0], tracing, streaming);
      HandOneKeeps(k, h);
      HandOutKeeps(HandOne(k, h), frames[1..], tracing, streaming);
      Associative(FramesOf(k.log), [frames[0]], UpToLong(frames[1..]));
    }
  }

  /** A log that has at most what was taken, and now gets at most what is taken, equals
      what was taken exactly when it did before and gets all. */
  lemma EqualParts<T>(x: seq<T>, xs: seq<T>, y: seq<T>, ys: seq<T>)
    requires |x| <= |y| && |xs| <= |ys|
    ensures x + xs == y + ys <==> x == y && xs == ys
  {
    if x + xs == y + ys {
      assert x == (x + xs)[..|x|] && y == (y + ys)[..|y|];
      assert xs == (x + xs)[|x|..] && ys == (y + ys)[|y|..];
    }
  }

  lemma GoodAppend(frames: seq<seq<byte>>, more: seq<seq<byte>>)
    requires Frames(frames) && Frames(more)
    ensures Frames(frames + more) && (Good(frames + more) <==> Good(frames) && Good(more))
  {
    assert forall i | 0 <= i < |frames| :: frames[i] == (frames + more)[i];
    assert forall i | 0 <= i < |more| :: more[i] == (frames + more)[|frames| + i];
  }

  /** A poll adds to the log at most what it takes, and all of it exactly when the read went
      well and no frame is overlong; a log that was short stays short. */
  lemma LogGrows(s: System, s': System, batch: seq<seq<byte>>, more: seq<seq<byte>>)
    requires LogInv(s) && Frames(batch) && more <= batch && SinksOk(s'.sinks)
    requires s'.taken == s.taken + batch && s'.failed >= s.failed
    requires FramesOf(s'.sinks.log) == FramesOf(s.sinks.log) + more
    requires more == batch <==> s'.failed == s.failed && Good(batch)
    ensures LogInv(s')
  {
    GoodAppend(s.taken, batch);
    EqualParts(FramesOf(s.sinks.log), more, s.taken, batch);
  }

  lemma DeliverKeeps(s: System)
    requires Inv(s)
    ensures Inv(DoDeliver(s))
  {
    var s' := DoDeliver(s);
    if s' != s {
      CutIsSeen(s);
      var batch := Seen(s.mem, s.host.w);
      TakeKeeps(s, s');
      HandOutKeeps(s.sinks, batch, s.tracing, s.streaming);
      LogGrows(s, s', batch, UpToLong(batch));
    }
  }

  lemma FailKeeps(s: System)
    requires Inv(s)
    ensures Inv(DoFail(s))
  {
    var s' := DoFail(s);
    if s.host.Reading? {
      TakeKeeps(s, s');
      LogGrows(s, s', Seen(s.mem, s.host.w), []);
    }
  }

  lemma NextKeeps(s: System, step: Step)
    requires Inv(s)
    ensures Inv(Next(s, step))
  {
    match step
    case Fill(j, b) => if j < FRAME_SIZE { FillKeeps(s, j, b); }
    case Publish => PublishKeeps(s);
    case Poll =>
    case ReadByte => ReadKeeps(s);
    case Deliver => DeliverKeeps(s);
    case FailRead => FailKeeps(s);
    case Acknowledge => AcknowledgeKeeps(s);
    case SetOpen(_, _) =>
  }

  // ----- Runs -------------------------------------------------------------------------------------

  /** A queue as the host finds it, whatever it already holds. */
  function Start(mem: seq<byte>, tracing: bool, streaming: bool): System
    requires Shaped(mem)
  {
    System(mem, Resting, tracing, streaming, Live(mem), [], Sinks([], [], []), 0)
  }

  function Run(s: System, steps: seq<Step>): (s': System)
    requires Shaped(s.mem)
    ensures Shaped(s'.mem)
  {
    if steps == [] then s else Next(Run(s, steps[..|steps| - 1]), steps[|steps| - 1])
  }

  lemma {:induction false} AlwaysInv(s: System, steps: seq<Step>)
    requires Inv(s)
    ensures Inv(Run(s, steps))
  {
    if steps != [] {
      AlwaysInv(s, steps[..|steps| - 1]);
      NextKeeps(Run(s, steps[..|steps| - 1]), steps[|steps| - 1]);
    }
  }

  /** However the device and the host interleave, down to single bytes, the frames that left
      the queue and the ones still in it are the frames that were sent, in order; the host
      looked at all that left exactly when no read failed and none was overlong. */
  lemma NoneLostOrRepeated(mem: seq<byte>, tracing: bool, streaming: bool, steps: seq<Step>)
    requires Shaped(mem)
    ensures var s := Run(Start(mem, tracing, streaming), steps);
            && Inv(s) && s.taken + Rest(s) == s.sent && s.taken <= s.sent
            && (FramesOf(s.sinks.log) == s.taken <==> s.failed == 0 && Good(s.taken))
            && s.sinks.traces == Traced(s.sinks.log) && s.sinks.reports == Streamed(s.sinks.log)
  {
    AlwaysInv(Start(mem, tracing, streaming), steps);
  }

  /** The bytes of the trace frames, and of the frames that are only stream frames. */
  function TraceBytes(frames: seq<seq<byte>>): seq<byte>
    requires Frames(frames) && Good(frames)
  {
    if frames == [] then []
    else
      var f := frames[|frames| - 1];
      TraceBytes(frames[..|frames| - 1]) + if IsTrace(f) then Payload(f) else []
  }

  function StreamBytes(frames: seq<seq<byte>>): seq<byte>
    requires Frames(frames) && Good(frames)
  {
    if frames == [] then []
    else
      var f := frames[|frames| - 1];
      StreamBytes(frames[..|frames| - 1]) + if IsStream(f) && !IsTrace(f) then Payload(f) else []
  }

  predicate AllOpen(log: seq<Handed>) { forall i | 0 <= i < |log| :: log[i].tracing && log[i].streaming }

  lemma {:induction false} OpenSinks(log: seq<Handed>)
    requires LogOk(log) && AllOpen(log)
    ensures Good(FramesOf(log))
    ensures Traced(log) == TraceBytes(FramesOf(log)) && Streamed(log) == StreamBytes(FramesOf(log))
  {
    if log != [] {
      OpenSinks(log[..|log| - 1]);
      assert FramesOf(log)[..|log| - 1] == FramesOf(log[..|log| - 1]);
    }
  }

  lemma {:induction false} HandOutOpen(k: Sinks, frames: seq<seq<byte>>)
    requires AllOpen(k.log) && Frames(frames)
    ensures AllOpen(HandOut(k, frames, true, true).log)
    decreases |frames|
  {
    if frames != [] && !Overlong(frames[0]) { HandOutOpen(HandOne(k, Handed(frames[0], true, true)), frames[1..]); }
  }

  lemma NextStaysOpen(s: System, step: Step)
    requires Shaped(s.mem) && s.tracing && s.streaming && AllOpen(s.sinks.log) && !step.SetOpen?
    ensures Next(s, step).tracing && Next(s, step).streaming && AllOpen(Next(s, step).sinks.log)
  {
    if step.Deliver? && DoDeliver(s) != s {
      HandOutOpen(s.sinks, Cut(s.host.got, Waiting(ReadIndex(s.mem), s.host.w, Size(s.mem))));
    }
  }

  lemma {:induction false} StaysOpen(s: System, steps: seq<Step>)
    requires Shaped(s.mem) && s.tracing && s.streaming && AllOpen(s.sinks.log)
    requires forall i | 0 <= i < |steps| :: !steps[i].SetOpen?
    ensures Run(s, steps).tracing && Run(s, steps).streaming && AllOpen(Run(s, steps).sinks.log)
  {
    if steps != [] {
      StaysOpen(s, steps[..|steps| - 1]);
      NextStaysOpen(Run(s, steps[..|steps| - 1]), steps[|steps| - 1]);
    }
  }

  /** With both interfaces open all along, no failed read and no overlong frame, the sinks
      get the payload bytes that the device sent, as far as it has been polled. */
  lemma SinksGetWhatWasSent(mem: seq<byte>, steps: seq<Step>)
    requires Shaped(mem) && forall i | 0 <= i < |steps| :: !steps[i].SetOpen?
    ensures var s := Run(Start(mem, true, true), steps);
            s.failed == 0 && Frames(s.sent) && Good(s.sent) ==>
              && s.taken <= s.sent && Frames(s.taken) && Good(s.taken)
              && s.sinks.traces == TraceBytes(s.taken) && s.sinks.reports == StreamBytes(s.taken)
  {
    NoneLostOrRepeated(mem, true, true, steps);
    StaysOpen(Start(mem, true, true), steps);
    OpenSinks(Run(Start(mem, true, true), steps).sinks.log);
  }

  // ----- The host's side as code --------------------------------------------------------------

  /** The bytes of the frames from r to w, one more than is waiting, as the host joins them. */
  function FrameBytes(mem: seq<byte>): seq<byte>
    requires Shaped(mem)
  {
    var r, w := ReadIndex(mem), WriteIndex(mem);
    if r > w then mem[HeaderAddress(r)..HeaderAddress(Size(mem))] + mem[HeaderAddress(0)..HeaderAddress(w + 1)]
    else mem[HeaderAddress(r)..HeaderAddress(w + 1)]
  }

  lemma SliceOfSlice<T>(s: seq<T>, a: nat, b: nat, x: nat, y: nat)
    requires a <= b <= |s| && x <= y <= b - a
    ensures s[a..b][x..y] == s[a + x..a + y]
  {
    forall k | 0 <= k < y - x ensures s[a..b][x..y][k] == s[a + x..a + y][k] {
      assert s[a..b][x + k] == s[a + x + k];
    }
  }

  lemma SliceOfSum<T>(p: seq<T>, q: seq<T>, x: nat, y: nat)
    requires x <= y <= |p| + |q| && (y <= |p| || x >= |p|)
    ensures (p + q)[x..y] == if y <= |p| then p[x..y] else q[x - |p|..y - |p|]
  {
  }

  lemma FrameOfSpan(mem: seq<byte>, from: nat, to: nat, i: nat)
    requires from + i < to && |mem| >= HeaderAddress(to)
    ensures mem[HeaderAddress(from)..HeaderAddress(to)][i * 21..i * 21 + 21] == Slot(mem, from + i)
  {
    SliceOfSlice(mem, HeaderAddress(from), HeaderAddress(to), i * 21, i * 21 + 21);
  }

  lemma CutOfSpan(mem: seq<byte>, bytes: seq<byte>, from: nat, to: nat, i: nat, n: nat)
    requires from + i < to && |mem| >= HeaderAddress(to) && i < n <= to - from
    requires bytes == mem[HeaderAddress(from)..HeaderAddress(to)]
    ensures CutOne(bytes, i, n) == Slot(mem, from + i)
  {
    FrameOfSpan(mem, from, to, i);
  }

  lemma CutOfTwoSpans(mem: seq<byte>, bytes: seq<byte>, from: nat, size: nat, to: nat, i: nat, n: nat)
    requires from < size && to <= size && i < n <= size - from + to && |mem| >= HeaderAddress(size)
    requires bytes == mem[HeaderAddress(from)..HeaderAddress(size)] + mem[HeaderAddress(0)..HeaderAddress(to)]
    ensures CutOne(bytes, i, n) == Slot(mem, if i < size - from then from + i else i - (size - from))
  {
    SliceOfSum(
      mem[HeaderAddress(from)..HeaderAddress(size)], mem[HeaderAddress(0)..HeaderAddress(to)], i * 21, i * 21 + 21);
    if i < size - from { FrameOfSpan(mem, from, size, i); } else { FrameOfSpan(mem, 0, to, i - (size - from)); }
  }

  lemma FrameBytesLength(mem: seq<byte>)
    requires Shaped(mem)
    ensures |FrameBytes(mem)| == (|Live(mem)| + 1) * 21
  {
  }

  lemma UnwrappedBytes(mem: seq<byte>, r: nat, w: nat)
    requires Shaped(mem) && r == ReadIndex(mem) && w == WriteIndex(mem) && r <= w
    ensures |Live(mem)| == w - r && FrameBytes(mem) == mem[HeaderAddress(r)..HeaderAddress(w + 1)]
  {
  }

  lemma WrappedBytes(mem: seq<byte>, r: nat, w: nat, size: nat)
    requires Shaped(mem) && r == ReadIndex(mem) && w == WriteIndex(mem) && size == Size(mem) && r > w
    ensures |Live(mem)| == size - r + w
    ensures FrameBytes(mem) == mem[HeaderAddress(r)..HeaderAddress(size)] + mem[HeaderAddress(0)..HeaderAddress(w + 1)]
  {
  }

  lemma CutOfWrapped(mem: seq<byte>, bytes: seq<byte>, r: nat, w: nat, size: nat, i: nat, n: nat)
    requires w < r < size && n == size - r + w && i < n && |mem| == HeaderAddress(size)
    requires bytes == mem[HeaderAddress(r)..HeaderAddress(size)] + mem[HeaderAddress(0)..HeaderAddress(w + 1)]
    ensures CutOne(bytes, i, n) == Slot(mem, Around(r, i, size))
  {
    CutOfTwoSpans(mem, bytes, r, size, w + 1, i, n);
  }

  lemma CutOfBytes(mem: seq<byte>, i: nat, n: nat)
    requires Shaped(mem) && i < n == |Live(mem)| && |FrameBytes(mem)| == (n + 1) * 21
    ensures CutOne(FrameBytes(mem), i, n) == Slot(mem, Around(ReadIndex(mem), i, Size(mem)))
  {
    var r, w, size := ReadIndex(mem), WriteIndex(mem), Size(mem);
    if r <= w {
      UnwrappedBytes(mem, r, w);
      CutOfSpan(mem, FrameBytes(mem), r, w + 1, i, n);
    } else {
      WrappedBytes(mem, r, w, size);
      CutOfWrapped(mem, FrameBytes(mem), r, w, size, i, n);
    }
  }

  lemma FrameBytesAreLive(mem: seq<byte>)
    requires Shaped(mem)
    ensures |FrameBytes(mem)| == (|Live(mem)| + 1) * 21 && Cut(FrameBytes(mem), |Live(mem)|) == Live(mem)
  {
    FrameBytesLength(mem);
    forall i | 0 <= i < |Live(mem)| ensures Cut(FrameBytes(mem), |Live(mem)|)[i] == Live(mem)[i] {
      CutOfBytes(mem, i, |Live(mem)|);
    }
  }

  class AsyncJLink {
    var mem: seq<byte>
    var tracing: bool
    var streaming: bool
    var traces: seq<byte>
    var reports: seq<byte>
    ghost var log: seq<Handed>

    constructor (mem: seq<byte>, tracing: bool, streaming: bool)
      ensures this.mem == mem && this.tracing == tracing && this.streaming == streaming
      ensures Got() == Sinks([], [], [])
    {
      this.mem, this.tracing, this.streaming := mem, tracing, streaming;
      traces, reports, log := [], [], [];
    }

    ghost function Got(): Sinks
      reads this
    {
      Sinks(log, traces, reports)
    }

    /** Read the frames between the indices, in two pieces when they wrap around. */
    method ReadFrames(readIndex: nat, writeIndex: nat, queueSize: nat) returns (frames: seq<byte>, numberFrames: nat)
      requires Shaped(mem) && readIndex == ReadIndex(mem) && writeIndex == WriteIndex(mem) && queueSize == Size(mem)
      ensures frames == FrameBytes(mem) && numberFrames == |Live(mem)| + 1
    {
      if readIndex > writeIndex {
        WrappedBytes(mem, readIndex, writeIndex, queueSize);
        numberFrames := (writeIndex + 1) + (queueSize - readIndex);
        var preWrapped := queueSize - readIndex;
        var address := HeaderAddress(readIndex);
        frames := mem[address..address + preWrapped * 21];
        address := HeaderAddress(0);
        frames := frames + mem[address..address + (numberFrames - preWrapped) * 21];
      } else {
        UnwrappedBytes(mem, readIndex, writeIndex);
        numberFrames := writeIndex - readIndex + 1;
        var address := HeaderAddress(readIndex);
        frames := mem[address..address + numberFrames * 21];
      }
    }

    /** Hand out the frames between the indices.  An overlong frame ends this with an error. */
    method ReadQueueFrames(readIndex: nat, writeIndex: nat, queueSize: nat) returns (ok: bool)
      requires Shaped(mem) && readIndex == ReadIndex(mem) && writeIndex == WriteIndex(mem) && queueSize == Size(mem)
      modifies this`traces, this`reports, this`log
      ensures ok <==> Good(Live(mem))
      ensures Got() == HandOut(old(Got()), Live(mem), tracing, streaming)
    {
      var frames, numberFrames := ReadFrames(readIndex, writeIndex, queueSize);
      FrameBytesAreLive(mem);
      ok := HandFrames(frames, numberFrames);
    }

    method HandFrames(frames: seq<byte>, numberFrames: nat) returns (ok: bool)
      requires numberFrames > 0 && |frames| == numberFrames * 21
      modifies this`traces, this`reports, this`log
      ensures ok <==> Good(Cut(frames, numberFrames - 1))
      ensures Got() == HandOut(old(Got()), Cut(frames, numberFrames - 1), tracing, streaming)
    {
      ghost var live := Cut(frames, numberFrames - 1);
      for i := 0 to numberFrames - 1
        invariant HandOut(Got(), live[i..], tracing, streaming) == HandOut(old(Got()), live, tracing, streaming)
        invariant forall k | 0 <= k < i :: !Overlong(live[k])
      {
        assert live[i..][1..] == live[i + 1..];
        var frame := frames[i * 21..i * 21 + 21];
        assert frame == live[i];
        if frame[0] % 0x40 > FRAME_SIZE - 1 { return false; }
        HandFrame(frame);
      }
      return true;
    }

    /** Give the frame's payload to the trace or to the report parser, if that is open. */
    method HandFrame(frame: seq<byte>)
      requires |frame| == FRAME_SIZE && !Overlong(frame)
      modifies this`traces, this`reports, this`log
      ensures Got() == HandOne(old(Got()), Handed(frame, tracing, streaming))
    {
      var data := frame[1..frame[0] % 0x40 + 1];
      if (frame[0] / 0x40) % 2 == 1 && tracing {
        traces := traces + data;
      } else if (frame[0] / 0x80) % 2 == 1 && streaming {
        reports := reports + data;
      }
      log := log + [Handed(frame, tracing, streaming)];
    }

    /** One poll that the device does not interrupt: it empties the queue whether or not its
        memory could be read and its frames were all right. */
    method PollQueueStatus(readable: bool) returns (empty: bool)
      requires Shaped(mem)
      modifies this
      ensures empty && tracing == old(tracing) && streaming == old(streaming)
      ensures mem == old(mem)[QUEUE_OFFSET := WriteIndex(old(mem))] && Shaped(mem) && Live(mem) == []
      ensures Got() == if readable then HandOut(old(Got()), Live(old(mem)), tracing, streaming) else old(Got())
    {
      var readIndex: nat, writeIndex: nat := mem[QUEUE_OFFSET], mem[QUEUE_OFFSET + 1];
      var low: nat, high: nat := mem[QUEUE_OFFSET + 2], mem[QUEUE_OFFSET + 3];
      var queueSize := low + high * 256;
      if readIndex == writeIndex { return true; }
      if readable {
        var ok := ReadQueueFrames(readIndex, writeIndex, queueSize);
      }
      if queueSize != 0 { readIndex := writeIndex; }
      mem := mem[QUEUE_OFFSET := readIndex];
      return readIndex == writeIndex;
    }
  }
}
