/** The bytes of descriptors, place by place. */
module DescriptorBytes {
  import opened Bytes
  import opened Basics
  import opened Streams
  import opened Codes
  import opened Formats
  import ND = NodeDescriptors
  import SD = StreamerDescriptors
  import NodeText

  function ByteAt(bytes: seq<byte>, at: nat): nat
    requires at < |bytes|
  {
    bytes[at]
  }

  /** Two and four bytes, the lowest first. */
  function Two(bytes: seq<byte>, at: nat): nat
    requires at + 2 <= |bytes|
  {
    ByteAt(bytes, at) + 256 * ByteAt(bytes, at + 1)
  }

  function Four(bytes: seq<byte>, at: nat): nat
    requires at + 4 <= |bytes|
  {
    ByteAt(bytes, at) + 256 * ByteAt(bytes, at + 1) + 65536 * ByteAt(bytes, at + 2) + 16777216 * ByteAt(bytes, at + 3)
  }

  lemma NumberOfTwo(s: seq<byte>)
    requires |s| == 2
    ensures Number(s) == Two(s, 0)
  {
    assert Number(s[1..][1..]) == 0;
    assert Number(s[1..]) == s[1];
  }

  lemma NumberOfFour(s: seq<byte>)
    requires |s| == 4
    ensures Number(s) == Four(s, 0)
  {
    var high := s[2..];
    NumberOfTwo(high);
    assert Number(s) == s[0] + 256 * Number(s[1..]);
    assert s[1..][1..] == high && Number(s[1..]) == s[1] + 256 * Number(high);
  }

  lemma TwoIs(bytes: seq<byte>, at: nat)
    requires at + 2 <= |bytes|
    ensures Number(bytes[at..at + 2]) == Two(bytes, at)
  {
    NumberOfTwo(bytes[at..at + 2]);
  }

  lemma FourIs(bytes: seq<byte>, at: nat)
    requires at + 4 <= |bytes|
    ensures Number(bytes[at..at + 4]) == Four(bytes, at)
  {
    NumberOfFour(bytes[at..at + 4]);
  }

  // ----- Codes of streams and selectors ------------------------------------------------------------

  /** Type in the top four bits, the system flag in bit 11, the id below. */
  function StreamCode(s: DataStream): nat { s.kind * 4096 + (if s.system then 2048 else 0) + s.id }

  lemma StreamsByBits(s: DataStream)
    requires s.Encodable()
    ensures s.Encode() == StreamCode(s)
  {
    EncodedAs(s, StreamCode(s));
  }

  /** Type in bits 12 to 14, bit 15 for streams that mark breaks, bit 11 for system streams, and the id
      or 2047 for all ids. */
  function CodeOfSelector(s: Selector): nat {
    s.kind * 4096
    + (if s.spec in {SystemOnly, Combined} then 2048 else 0)
    + (if s.spec in {UserAndBreaks, Combined} then 32768 else 0)
    + if s.id.Some? then s.id.value else 2047
  }

  lemma SelectorsByBits(s: Selector)
    requires s.kind < 8 && (s.id.Some? ==> s.id.value < 2048)
    ensures EncodeSelector(s) == CodeOfSelector(s)
  {
    SelectorCode(s);
  }

  // ----- Nodes --------------------------------------------------------------------------------

  const OPERATORS: seq<string> := [">", "<", ">=", "<=", "=="]

  const FUNCTIONS: seq<string> := [
    "copy_latest_a", "average_a", "copy_all_a", "sum_a", "copy_count_a", "trigger_streamer", "call_rpc",
    "subtract_afromb"]

  /** A condition's byte: the operator's number or 5 for always, and the low bit for counts. */
  predicate ConditionIs(code: byte, t: ND.Trigger) {
    match t
    case Always => code == 10
    case When(count, op, _) =>
      && code / 2 < 5 && OPERATORS[code / 2] == NodeText.OperatorName(op)
      && code % 2 == if count then 1 else 0
  }

  /** Where the node's parts are among its 20 bytes. */
  predicate NodeAt(bytes: seq<byte>, n: ND.Node) {
    && |bytes| == 20
    && Four(bytes, 0) == (if n.a.trigger.When? then n.a.trigger.reference else 0)
    && Four(bytes, 4) == (if n.b.Some? && n.b.value.trigger.When? then n.b.value.trigger.reference else 0)
    && Two(bytes, 8) == StreamCode(n.stream)
    && Two(bytes, 10) == CodeOfSelector(n.a.selector)
    && Two(bytes, 12) == (if n.b.Some? then CodeOfSelector(n.b.value.selector) else 65535)
    && bytes[14] < 8 && FUNCTIONS[bytes[14]] == NodeText.ProcessingName(n.processing)
    && ConditionIs(bytes[15], n.a.trigger)
    && ConditionIs(bytes[16], if n.b.Some? then n.b.value.trigger else ND.Always)
    && bytes[17] == (if n.any then 1 else 0) && bytes[18] == 0 && bytes[19] == 0
  }

  predicate CodesFit(s: Selector) { s.kind < 8 && (s.id.Some? ==> s.id.value < 2048) }

  lemma ConditionCodes(t: ND.Trigger, code: byte)
    requires code == ND.TriggerCode(t)
    ensures ConditionIs(code, t)
  {
    ND.TriggerCodes(t);
  }

  lemma FunctionCodes(p: ND.Processing)
    requires ND.ProcessingCode(p).Some?
    ensures var code := ND.ProcessingCode(p).value;
            code < 8 && FUNCTIONS[code] == NodeText.ProcessingName(p)
  {
  }

  lemma PackedAt(f: ND.Fields)
    requires ND.Fits(f)
    ensures var bytes := ND.Pack(f);
            && Four(bytes, 0) == f.refA && Four(bytes, 4) == f.refB
            && Two(bytes, 8) == f.stream && Two(bytes, 10) == f.a && Two(bytes, 12) == f.b
            && bytes[14] == f.processing && bytes[15] == f.condA && bytes[16] == f.condB && bytes[17] == f.combiner
            && bytes[18] == 0 && bytes[19] == 0
  {
    var bytes := ND.Pack(f);
    ND.UnpackPack(f);
    FourIs(bytes, 0);
    FourIs(bytes, 4);
    TwoIs(bytes, 8);
    TwoIs(bytes, 10);
    TwoIs(bytes, 12);
  }

  /** Every part of an encoded node is where it should be and says what it should. */
  lemma NodeLayout(n: ND.Node, bytes: seq<byte>)
    requires ND.EncodeNode(n) == Ok(bytes) && n.stream.Encodable() && CodesFit(n.a.selector)
    requires n.b.Some? ==> CodesFit(n.b.value.selector)
    ensures NodeAt(bytes, n)
  {
    var f := ND.FieldsOf(n, ND.ProcessingCode(n.processing).value);
    PackedAt(f);
    StreamsByBits(n.stream);
    SelectorsByBits(n.a.selector);
    if n.b.Some? { SelectorsByBits(n.b.value.selector); }
    FunctionCodes(n.processing);
    ConditionCodes(n.a.trigger, bytes[15]);
    ConditionCodes(if n.b.Some? then n.b.value.trigger else ND.Always, bytes[16]);
  }

  /** A node with ids in range is encoded unless its function is unknown, or a reference does not fit 32 bits. */
  lemma NodesNotEncoded(n: ND.Node)
    requires n.stream.Encodable() && CodesFit(n.a.selector) && (n.b.Some? ==> CodesFit(n.b.value.selector))
    ensures ND.EncodeNode(n).Ok? || ND.EncodeNode(n).error in {ND.UnknownProcessing, ND.FieldTooBig}
    ensures ND.EncodeNode(n) == Err(ND.UnknownProcessing) <==> n.processing.Other?
    ensures ND.EncodeNode(n) == Err(ND.FieldTooBig) <==>
            && !n.processing.Other?
            && (WideReference(n.a.trigger) || (n.b.Some? && WideReference(n.b.value.trigger)))
  {
    if !n.processing.Other? { CodesInRange(n, ND.ProcessingCode(n.processing).value); }
  }

  lemma CodesInRange(n: ND.Node, code: nat)
    requires n.stream.Encodable() && CodesFit(n.a.selector) && (n.b.Some? ==> CodesFit(n.b.value.selector))
    requires code < 8
    ensures var f := ND.FieldsOf(n, code); ND.Fits(f) <==> f.refA < 4294967296 && f.refB < 4294967296
  {
    StreamsByBits(n.stream);
    SelectorsByBits(n.a.selector);
    TriggerFits(n.a.trigger);
    if n.b.Some? {
      SelectorsByBits(n.b.value.selector);
      TriggerFits(n.b.value.trigger);
    }
    TriggerFits(ND.Always);
  }

  lemma TriggerFits(t: ND.Trigger)
    ensures ND.TriggerCode(t) < 256
  {
    ND.TriggerCodes(t);
  }

  predicate WideReference(t: ND.Trigger) { t.When? && t.reference >= 4294967296 }

  /** The bytes that are accepted: a first input, known conditions, function and combiner, and stream
      types below 6; conditions 10 and 11 are both "always". */
  predicate AcceptedNode(bytes: seq<byte>) {
    && |bytes| == 20
    && Two(bytes, 10) != 65535 && bytes[15] < 12 && bytes[14] < 8 && bytes[17] < 2
    && Two(bytes, 8) / 4096 < 6 && Two(bytes, 10) / 4096 % 8 < 6
    && (Two(bytes, 12) != 65535 ==> bytes[16] < 12 && Two(bytes, 12) / 4096 % 8 < 6)
  }

  lemma AcceptedNodes(bytes: seq<byte>)
    ensures ND.DecodeNode(bytes).Ok? <==> AcceptedNode(bytes)
  {
    if |bytes| == 20 {
      TwoIs(bytes, 8);
      TwoIs(bytes, 10);
      TwoIs(bytes, 12);
      AcceptedFields(ND.Unpack(bytes));
    }
  }

  /** Which complaint there is about other bytes: the first of size, missing first input, condition,
      combiner, function and stream type. */
  lemma RefusedNodes(bytes: seq<byte>, e: ND.Error)
    requires |bytes| == 20 && ND.DecodeNode(bytes) == Err(e)
    ensures e == ND.NoFirstInput <==> Two(bytes, 10) == 65535
    ensures e == ND.UnknownOperation <==>
            Two(bytes, 10) != 65535 && (bytes[15] >= 12 || (Two(bytes, 12) != 65535 && bytes[16] >= 12))
    ensures e in {ND.UnknownCombiner, ND.UnknownProcessing, ND.UnknownType} ==>
              && (e == ND.UnknownCombiner <==> bytes[17] >= 2)
              && (e == ND.UnknownProcessing <==> bytes[17] < 2 && bytes[14] >= 8)
              && (e == ND.UnknownType <==> bytes[17] < 2 && bytes[14] < 8)
    ensures e in {ND.NoFirstInput, ND.UnknownOperation, ND.UnknownCombiner, ND.UnknownProcessing, ND.UnknownType}
  {
    TwoIs(bytes, 8);
    TwoIs(bytes, 10);
    TwoIs(bytes, 12);
    var f := ND.Unpack(bytes);
    AcceptedConditions(f.refA, f.condA);
    AcceptedConditions(f.refB, f.condB);
  }

  lemma AcceptedFields(f: ND.Fields)
    requires f.stream < 65536 && f.a < 65536 && f.b < 65536
    ensures ND.DecodeFields(f).Ok? <==>
            && f.a != 65535 && f.condA < 12 && f.processing < 8 && f.combiner < 2
            && f.stream / 4096 < 6 && f.a / 4096 % 8 < 6
            && (f.b != 65535 ==> f.condB < 12 && f.b / 4096 % 8 < 6)
  {
    AcceptedConditions(f.refA, f.condA);
    AcceptedConditions(f.refB, f.condB);
  }

  lemma AcceptedConditions(reference: nat, code: nat)
    ensures ND.TriggerOf(reference, code).Some? <==> code < 12
  {
  }

  // ----- Streamers --------------------------------------------------------------------------------

  /** Where the streamer's parts are among its 14 bytes. */
  predicate StreamerAt(bytes: seq<byte>, s: SD.Streamer) {
    && |bytes| == 14
    && bytes[..8] == (if s.dest.Controller? then [0, 0, 0, 0, 0, 0, 0, 2] else [s.dest.slot % 256, 0, 0, 0, 0, 0, 0, 1])
    && Two(bytes, 8) == CodeOfSelector(s.selector)
    && bytes[10] == (if s.automatic then 1 else if s.withOther.Some? then 128 + s.withOther.value else 0)
    && bytes[11] == (match s.format
                     case Individual => 0
                     case HashedList => 1
                     case SignedListUserKey => 2
                     case SignedListDeviceKey => 3)
    && bytes[12] == (match s.report
                     case Broadcast => 1
                     case Telegram => 2
                     case Synchronous => 4)
    && bytes[13] == 0
  }

  lemma StreamerLayout(s: SD.Streamer, bytes: seq<byte>)
    requires SD.ValidSlot(s.dest) && SD.EncodeStreamer(s) == Ok(bytes) && CodesFit(s.selector)
    requires s.withOther.Some? ==> s.withOther.value < 128
    ensures StreamerAt(bytes, s)
  {
    SelectorsByBits(s.selector);
    Powers256();
    NumberOfLittle(EncodeSelector(s.selector), 2);
    var last := bytes[10..];
    PartsAt(bytes, SD.EncodeSlot(s.dest), Little(EncodeSelector(s.selector), 2), last);
    TwoIs(bytes, 8);
    if s.withOther.Some? { SD.OtherCode(s.withOther.value); }
  }

  lemma PartsAt(bytes: seq<byte>, slot: seq<byte>, code: seq<byte>, last: seq<byte>)
    requires |bytes| == 14 && |slot| == 8 && |code| == 2 && bytes == slot + code + last
    ensures bytes[..8] == slot && bytes[8..10] == code
    ensures bytes[10] == last[0] && bytes[11] == last[1] && bytes[12] == last[2] && bytes[13] == last[3]
  {
  }

  /** A streamer with ids in range is encoded unless the index of another streamer does not fit a byte. */
  lemma StreamersNotEncoded(s: SD.Streamer)
    requires SD.ValidSlot(s.dest) && CodesFit(s.selector)
    ensures SD.EncodeStreamer(s).Ok? || SD.EncodeStreamer(s) == Err(SD.FieldTooBig)
    ensures SD.EncodeStreamer(s).Err? <==> !s.automatic && s.withOther.Some? && s.withOther.value >= 256
  {
    SelectorsByBits(s.selector);
    if s.withOther.Some? { WideOr(128, s.withOther.value, 8); }
    assert Pow2(8) == 256 by { assert Pow2(4) == 16; }
  }

  lemma {:induction false} OrPositive(a: nat, b: nat)
    ensures Or(a, b) > 0 <==> a > 0 || b > 0
  {
    if a > 0 && b > 0 && a % 2 == 0 && b % 2 == 0 { OrPositive(a / 2, b / 2); }
  }

  lemma {:induction false} WideOr(a: nat, b: nat, k: nat)
    ensures Or(a, b) >= Pow2(k) <==> a >= Pow2(k) || b >= Pow2(k)
  {
    if k > 0 { WideOr(a / 2, b / 2, k - 1); } else { OrPositive(a, b); }
  }

  /** The bytes that are accepted: a slot from 1 to 31 or the controller, a known trigger, format and
      report type. */
  predicate AcceptedStreamer(bytes: seq<byte>) {
    && |bytes| == 14
    && (bytes[7] == 2 || (bytes[7] == 1 && 1 <= bytes[0] < 32))
    && (bytes[10] >= 128 || bytes[10] < 2)
    && bytes[11] < 4 && bytes[12] in {1, 2, 4}
  }

  lemma AcceptedStreamers(bytes: seq<byte>)
    ensures SD.DecodeStreamer(bytes).Ok? <==> AcceptedStreamer(bytes)
  {
    if |bytes| == 14 {
      assert bytes[0..8][7] == bytes[7] && bytes[0..8][0] == bytes[0];
    }
  }

  predicate SlotIs(bytes: seq<byte>)
    requires |bytes| == 14
  {
    bytes[7] == 2 || (bytes[7] == 1 && 1 <= bytes[0] < 32)
  }

  /** Which complaint there is about other bytes: the first of slot, format, report type and trigger. */
  lemma RefusedStreamers(bytes: seq<byte>, e: SD.Error)
    requires |bytes| == 14 && SD.DecodeStreamer(bytes) == Err(e)
    ensures e == SD.UnknownMatch <==> bytes[7] > 3
    ensures e == SD.UnsupportedMatch <==> bytes[7] in {0, 3}
    ensures e == SD.BadSlot <==> bytes[7] == 1 && !SlotIs(bytes)
    ensures e == SD.UnknownFormat <==> SlotIs(bytes) && bytes[11] >= 4
    ensures e == SD.UnknownReport <==> SlotIs(bytes) && bytes[11] < 4 && bytes[12] !in {1, 2, 4}
    ensures e == SD.UnknownTrigger <==> SlotIs(bytes) && bytes[11] < 4 && bytes[12] in {1, 2, 4}
  {
    assert bytes[0..8][7] == bytes[7] && bytes[0..8][0] == bytes[0];
  }
}
