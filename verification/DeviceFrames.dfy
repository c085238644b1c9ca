/** What the header byte of a frame says, and what comes out of the frames that a device makes. */
module DeviceFrames {
  import opened Bytes
  import opened Basics
  import opened RingQueue

  // ----- One frame, byte by byte ---------------------------------------------------------------

  /** The header's two top bits: 0x40 marks a trace and 0x80 a stream frame. */
  lemma HeaderBits(frame: seq<byte>)
    requires |frame| == 21
    ensures IsTrace(frame) <==> 64 <= frame[0] < 128 || 192 <= frame[0]
    ensures IsStream(frame) <==> 128 <= frame[0]
    ensures Overlong(frame) <==> frame[0] % 64 > 20
    ensures !Overlong(frame) ==> Payload(frame) == frame[1..1 + frame[0] % 64]
  {
  }

  /** The bytes after the header, as many as its lower six bits say, go to the trace, if that is open
      and the frame is marked for it, or else to the report parser, if that is open and the frame is
      marked for it, or else nowhere. */
  lemma HandedByHeader(k: Sinks, frame: seq<byte>, tracing: bool, streaming: bool)
    requires |frame| == 21 && frame[0] % 64 <= 20
    ensures var k', data := HandOut(k, [frame], tracing, streaming), frame[1..1 + frame[0] % 64];
            && k'.log == k.log + [Handed(frame, tracing, streaming)]
            && if tracing && (64 <= frame[0] < 128 || 192 <= frame[0])
               then k'.traces == k.traces + data && k'.reports == k.reports
               else if streaming && 128 <= frame[0]
               then k'.reports == k.reports + data && k'.traces == k.traces
               else k'.traces == k.traces && k'.reports == k.reports
  {
    HeaderBits(frame);
    assert [frame][1..] == [];
    assert k.traces + [] == k.traces && k.reports + [] == k.reports;
  }

  /** A frame that claims more than it can hold is not handed out, nor is any after it. */
  lemma OverlongStops(k: Sinks, frame: seq<byte>, more: seq<seq<byte>>, tracing: bool, streaming: bool)
    requires |frame| == 21 && Frames(more) && frame[0] % 64 > 20
    ensures HandOut(k, [frame] + more, tracing, streaming) == k
  {
    HeaderBits(frame);
  }

  // ----- Frames made by a device ------------------------------------------------------------------

  /** What a device sends in one frame, how it marks it, and what fills the rest of the frame. */
  datatype Message = Message(trace: bool, stream: bool, payload: seq<byte>, filling: seq<byte>)

  predicate Fits(m: Message) { |m.payload| + |m.filling| == 20 }

  predicate AllFit(messages: seq<Message>) { forall i | 0 <= i < |messages| :: Fits(messages[i]) }

  function FrameOf(m: Message): (frame: seq<byte>)
    requires Fits(m)
    ensures |frame| == 21
  {
    [(if m.trace then 64 else 0) + (if m.stream then 128 else 0) + |m.payload|] + m.payload + m.filling
  }

  lemma FrameSays(m: Message)
    requires Fits(m)
    ensures var f := FrameOf(m);
            !Overlong(f) && Payload(f) == m.payload && (IsTrace(f) <==> m.trace) && (IsStream(f) <==> m.stream)
  {
    HeaderBits(FrameOf(m));
    assert FrameOf(m)[1..1 + |m.payload|] == m.payload;
  }

  function FramesFor(messages: seq<Message>): (frames: seq<seq<byte>>)
    requires AllFit(messages)
    ensures |frames| == |messages| && Frames(frames)
    ensures forall i | 0 <= i < |messages| :: frames[i] == FrameOf(messages[i])
  {
    seq(|messages|, i requires 0 <= i < |messages| => FrameOf(messages[i]))
  }

  /** The payloads of the messages marked as trace. */
  function TracePayloads(messages: seq<Message>): seq<byte> {
    if messages == [] then []
    else
      var m := messages[|messages| - 1];
      TracePayloads(messages[..|messages| - 1]) + if m.trace then m.payload else []
  }

  /** The payloads of the messages marked as stream and not as trace. */
  function StreamPayloads(messages: seq<Message>): seq<byte> {
    if messages == [] then []
    else
      var m := messages[|messages| - 1];
      StreamPayloads(messages[..|messages| - 1]) + if m.stream && !m.trace then m.payload else []
  }

  lemma {:induction false} PayloadsOfFrames(messages: seq<Message>)
    requires AllFit(messages)
    ensures Good(FramesFor(messages))
    ensures TraceBytes(FramesFor(messages)) == TracePayloads(messages)
    ensures StreamBytes(FramesFor(messages)) == StreamPayloads(messages)
  {
    forall i | 0 <= i < |messages| ensures !Overlong(FramesFor(messages)[i]) { FrameSays(messages[i]); }
    if messages != [] {
      var n := |messages| - 1;
      PayloadsOfFrames(messages[..n]);
      FrameSays(messages[n]);
      assert FramesFor(messages)[..n] == FramesFor(messages[..n]);
    }
  }

  /** With both interfaces open and no failed read, the trace gets exactly the payloads of the trace
      messages and the report parser those of the other stream messages, joined in order, up to the
      message to which the host has polled. */
  lemma MessagesComeOut(mem: seq<byte>, steps: seq<Step>, messages: seq<Message>)
    requires Shaped(mem) && AllFit(messages) && forall i | 0 <= i < |steps| :: !steps[i].SetOpen?
    requires Run(Start(mem, true, true), steps).sent == FramesFor(messages)
    requires Run(Start(mem, true, true), steps).failed == 0
    ensures var s := Run(Start(mem, true, true), steps);
            && |s.taken| <= |messages|
            && s.sinks.traces == TracePayloads(messages[..|s.taken|])
            && s.sinks.reports == StreamPayloads(messages[..|s.taken|])
  {
    var s := Run(Start(mem, true, true), steps);
    PayloadsOfFrames(messages);
    SinksGetWhatWasSent(mem, steps);
    var came := messages[..|s.taken|];
    PayloadsOfFrames(came);
    assert s.taken == FramesFor(came);
  }
}
