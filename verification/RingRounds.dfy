/** Whole rounds of the ring queue: a device that sends a message and a host that polls, when the other
    one does nothing meanwhile. */
module RingRounds {
  import opened Bytes
  import opened Basics
  import opened RingQueue
  import opened DeviceFrames

  /** Where things are in the memory: the read index at 68, the write index at 69, the size in two bytes
      from 70 on, the low one first, and slot i of 21 bytes from 72 + 21 i on. */
  lemma MemoryLayout(mem: seq<byte>, i: nat)
    requires |mem| >= 72
    ensures ReadIndex(mem) == mem[68] && WriteIndex(mem) == mem[69]
    ensures var low: nat, high: nat := mem[70], mem[71]; Size(mem) == low + 256 * high
    ensures |mem| >= 72 + 21 * (i + 1) ==> Slot(mem, i) == mem[72 + 21 * i..72 + 21 * (i + 1)]
  {
  }

  lemma RunOneMore(s: System, steps: seq<Step>, step: Step)
    requires Shaped(s.mem)
    ensures Run(s, steps + [step]) == Next(Run(s, steps), step)
  {
    assert (steps + [step])[..|steps|] == steps;
  }

  // ----- The device sends a message ------------------------------------------------------------------

  /** The device writes the first k bytes of a frame. */
  function Fills(frame: seq<byte>, k: nat): seq<Step>
    requires k <= |frame|
  {
    if k == 0 then [] else Fills(frame, k - 1) + [Fill(k - 1, frame[k - 1])]
  }

  /** The first k bytes of the free slot have been written, and nothing else. */
  predicate Written(s: System, s': System, frame: seq<byte>, k: nat)
    requires Shaped(s.mem) && k <= |frame| <= 21
  {
    && Shaped(s'.mem) && |s'.mem| == |s.mem| && s' == s.(mem := s'.mem)
    && ReadIndex(s'.mem) == ReadIndex(s.mem) && WriteIndex(s'.mem) == WriteIndex(s.mem) && Size(s'.mem) == Size(s.mem)
    && forall j | 0 <= j < k :: s'.mem[HeaderAddress(WriteIndex(s.mem)) + j] == frame[j]
  }

  lemma FillWrites(s: System, s': System, frame: seq<byte>, k: nat)
    requires Shaped(s.mem) && k < |frame| <= 21 && Written(s, s', frame, k)
    ensures Written(s, Next(s', Fill(k, frame[k])), frame, k + 1)
  {
  }

  lemma {:induction false} FillsWrite(s: System, frame: seq<byte>, k: nat)
    requires Shaped(s.mem) && k <= |frame| <= 21
    ensures Written(s, Run(s, Fills(frame, k)), frame, k)
  {
    if k > 0 {
      FillsWrite(s, frame, k - 1);
      RunOneMore(s, Fills(frame, k - 1), Fill(k - 1, frame[k - 1]));
      FillWrites(s, Run(s, Fills(frame, k - 1)), frame, k - 1);
    }
  }

  /** Unless the queue is full, a device that writes a message's frame and moves the write index has
      sent the message, and frames sent before are where they were. */
  lemma MessageSent(s: System, m: Message)
    requires Shaped(s.mem) && Fits(m)
    requires (WriteIndex(s.mem) + 1) % Size(s.mem) != ReadIndex(s.mem)
    ensures var s' := Run(s, Fills(FrameOf(m), 21) + [Publish]);
            && s'.sent == s.sent + [FrameOf(m)]
            && WriteIndex(s'.mem) == (WriteIndex(s.mem) + 1) % Size(s.mem) && ReadIndex(s'.mem) == ReadIndex(s.mem)
            && s'.host == s.host && s'.taken == s.taken && s'.sinks == s.sinks && s'.failed == s.failed
  {
    var frame := FrameOf(m);
    FillsWrite(s, frame, 21);
    RunOneMore(s, Fills(frame, 21), Publish);
    FilledSends(s, Run(s, Fills(frame, 21)), frame);
  }

  lemma FilledSends(s: System, filled: System, frame: seq<byte>)
    requires Shaped(s.mem) && |frame| == 21 && Written(s, filled, frame, 21)
    requires (WriteIndex(s.mem) + 1) % Size(s.mem) != ReadIndex(s.mem)
    ensures var s' := Next(filled, Publish);
            && s'.sent == s.sent + [frame]
            && WriteIndex(s'.mem) == (WriteIndex(s.mem) + 1) % Size(s.mem) && ReadIndex(s'.mem) == ReadIndex(s.mem)
            && s'.host == s.host && s'.taken == s.taken && s'.sinks == s.sinks && s'.failed == s.failed
  {
    PublishSends(filled, frame);
  }

  /** The free slot holds this frame. */
  predicate Holds(mem: seq<byte>, frame: seq<byte>)
    requires Shaped(mem) && |frame| == 21
  {
    forall j | 0 <= j < 21 :: mem[HeaderAddress(WriteIndex(mem)) + j] == frame[j]
  }

  lemma PublishSends(s: System, frame: seq<byte>)
    requires Shaped(s.mem) && |frame| == 21 && Holds(s.mem, frame)
    requires (WriteIndex(s.mem) + 1) % Size(s.mem) != ReadIndex(s.mem)
    ensures var s' := Next(s, Publish);
            && s'.sent == s.sent + [frame]
            && WriteIndex(s'.mem) == (WriteIndex(s.mem) + 1) % Size(s.mem) && ReadIndex(s'.mem) == ReadIndex(s.mem)
            && s'.host == s.host && s'.taken == s.taken && s'.sinks == s.sinks && s'.failed == s.failed
  {
    AroundIsModulo(WriteIndex(s.mem), 1, Size(s.mem));
    assert Slot(s.mem, WriteIndex(s.mem)) == frame;
  }

  /** When the queue is full nothing is sent. */
  lemma FullRefuses(s: System)
    requires Shaped(s.mem) && (WriteIndex(s.mem) + 1) % Size(s.mem) == ReadIndex(s.mem)
    ensures Next(s, Publish) == s
  {
    AroundIsModulo(WriteIndex(s.mem), 1, Size(s.mem));
  }

  // ----- The host polls ----------------------------------------------------------------------------

  function Reads(k: nat): seq<Step> { if k == 0 then [] else Reads(k - 1) + [ReadByte] }

  lemma AddressInside(r: nat, w: nat, size: nat, k: nat)
    requires r < size && w < size && k < |Addresses(r, w, size)|
    ensures Addresses(r, w, size)[k] < HeaderAddress(size)
  {
  }

  /** The host goes on reading where it was. */
  predicate ReadOn(s: System, s': System, k: nat)
    requires s.host.Reading?
  {
    && s'.host.Reading? && s'.host.w == s.host.w && |s'.host.got| == |s.host.got| + k
    && s' == s.(host := s'.host)
  }

  lemma ReadsOneMore(s: System, s': System, k: nat)
    requires Shaped(s.mem) && s.host.Reading? && s.host.w < Size(s.mem) && ReadOn(s, s', k)
    requires |s.host.got| + k < |Addresses(ReadIndex(s.mem), s.host.w, Size(s.mem))|
    ensures ReadOn(s, Next(s', ReadByte), k + 1)
  {
    AddressInside(ReadIndex(s.mem), s.host.w, Size(s.mem), |s.host.got| + k);
  }

  lemma {:induction false} ReadsRead(s: System, k: nat, s': System)
    requires Shaped(s.mem) && s.host.Reading? && s.host.w < Size(s.mem)
    requires |s.host.got| + k <= |Addresses(ReadIndex(s.mem), s.host.w, Size(s.mem))|
    requires s' == Run(s, Reads(k))
    ensures ReadOn(s, s', k)
  {
    if k > 0 {
      var before := Run(s, Reads(k - 1));
      ReadsRead(s, k - 1, before);
      LastRead(s, k);
      ReadsOneMore(s, before, k - 1);
    }
  }

  lemma LastRead(s: System, k: nat)
    requires Shaped(s.mem) && k > 0
    ensures Run(s, Reads(k)) == Next(Run(s, Reads(k - 1)), ReadByte)
  {
    RunOneMore(s, Reads(k - 1), ReadByte);
  }

  lemma {:induction false} RunInTwo(s: System, p: seq<Step>, q: seq<Step>, mid: System)
    requires Shaped(s.mem) && mid == Run(s, p)
    ensures Run(s, p + q) == Run(mid, q)
  {
    if q == [] {
      assert p + q == p;
    } else {
      var front, step := q[..|q| - 1], q[|q| - 1];
      RunInTwo(s, p, front, mid);
      Split(p, q, front, step);
      RunOneMore(s, p + front, step);
      RunOneMore(mid, front, step);
    }
  }

  lemma Split<T>(p: seq<T>, q: seq<T>, front: seq<T>, x: T)
    requires q != [] && front == q[..|q| - 1] && x == q[|q| - 1]
    ensures q == front + [x] && p + q == (p + front) + [x]
  {
  }

  lemma RunTwo(s: System, a: Step, b: Step)
    requires Shaped(s.mem)
    ensures Run(s, [a, b]) == Next(Next(s, a), b)
  {
    RunOneMore(s, [], a);
    RunOneMore(s, [a], b);
    assert [] + [a] == [a] && [a] + [b] == [a, b];
  }

  /** How many bytes the host reads: one frame more than is waiting. */
  function BytesToRead(mem: seq<byte>): nat
    requires Shaped(mem)
  {
    (|Live(mem)| + 1) * 21
  }

  lemma PolledAndRead(s: System)
    requires Inv(s) && s.host == Resting && ReadIndex(s.mem) != WriteIndex(s.mem)
    ensures var s' := Run(s, [Poll] + Reads(BytesToRead(s.mem)));
            && Inv(s') && s'.host.Reading? && s'.host.w == WriteIndex(s.mem) && s' == s.(host := s'.host)
            && |s'.host.got| == BytesToRead(s.mem)
  {
    var polled := Next(s, Poll);
    RunOneMore(s, [], Poll);
    assert [] + [Poll] == [Poll];
    RunInTwo(s, [Poll], Reads(BytesToRead(s.mem)), polled);
    FrameIsSlot(ReadIndex(s.mem), WriteIndex(s.mem), Size(s.mem), 0, 0);
    ReadsRead(polled, BytesToRead(s.mem), Run(polled, Reads(BytesToRead(s.mem))));
    AlwaysInv(s, [Poll] + Reads(BytesToRead(s.mem)));
  }

  lemma Delivered(s: System)
    requires Inv(s) && s.host.Reading? && s.host.w == WriteIndex(s.mem) && |s.host.got| == BytesToRead(s.mem)
    ensures Next(s, Deliver) ==
            s.(host := Finished(s.host.w), taken := s.taken + Live(s.mem),
               sinks := HandOut(s.sinks, Live(s.mem), s.tracing, s.streaming))
  {
    CutIsSeen(s);
  }

  lemma DeliveredAndAcknowledged(s: System)
    requires Inv(s) && s.host.Reading? && s.host.w == WriteIndex(s.mem) && |s.host.got| == BytesToRead(s.mem)
    ensures Run(s, [Deliver, Acknowledge]) ==
            s.(host := Resting, mem := s.mem[68 := WriteIndex(s.mem)], taken := s.taken + Live(s.mem),
               sinks := HandOut(s.sinks, Live(s.mem), s.tracing, s.streaming))
  {
    RunTwo(s, Deliver, Acknowledge);
    Delivered(s);
    Acknowledged(Next(s, Deliver));
  }

  lemma Acknowledged(s: System)
    requires Shaped(s.mem) && s.host.Finished? && s.host.w < Size(s.mem)
    ensures Next(s, Acknowledge) == s.(host := Resting, mem := s.mem[68 := s.host.w])
  {
  }

  /** A whole poll takes every frame that is waiting out of the queue, hands them out in order, and
      leaves the queue empty. */
  lemma PollTakesAll(s: System)
    requires Inv(s) && s.host == Resting && ReadIndex(s.mem) != WriteIndex(s.mem)
    ensures var s' := Run(s, [Poll] + Reads(BytesToRead(s.mem)) + [Deliver, Acknowledge]);
            && s' == s.(mem := s.mem[68 := WriteIndex(s.mem)], taken := s.taken + Live(s.mem),
                        sinks := HandOut(s.sinks, Live(s.mem), s.tracing, s.streaming))
            && Live(s'.mem) == []
  {
    var read := Run(s, [Poll] + Reads(BytesToRead(s.mem)));
    PolledAndRead(s);
    RunInTwo(s, [Poll] + Reads(BytesToRead(s.mem)), [Deliver, Acknowledge], read);
    DeliveredAndAcknowledged(read);
  }

  /** A failed read loses what was waiting up to the index that the host saw, and no more. */
  lemma FailedReadLoses(s: System)
    requires Inv(s) && s.host.Reading?
    ensures var s' := Next(Next(s, FailRead), Acknowledge);
            s' == s.(host := Resting, mem := s.mem[68 := s.host.w], failed := s.failed + 1,
                     taken := s.taken + Stored(s.mem, ReadIndex(s.mem),
                       (s.host.w + Size(s.mem) - ReadIndex(s.mem)) % Size(s.mem)))
  {
    WaitingIsModulo(ReadIndex(s.mem), s.host.w, Size(s.mem));
  }

  lemma WaitingIsModulo(r: nat, w: nat, size: nat)
    requires r < size && w < size
    ensures Waiting(r, w, size) == (w + size - r) % size
  {
    AroundIsModulo(w, size - r, size);
  }

  /** An empty queue is not read, and clients open and close interfaces at any time. */
  lemma OtherSteps(s: System, tracing: bool, streaming: bool)
    requires Shaped(s.mem)
    ensures ReadIndex(s.mem) == WriteIndex(s.mem) ==> Next(s, Poll) == s
    ensures Next(s, SetOpen(tracing, streaming)) == s.(tracing := tracing, streaming := streaming)
  {
  }
}
