/** Nodes of a sensor graph in 20 bytes. */
module NodeDescriptors {
  import opened Basics
  import opened Bytes
  import opened Streams
  import opened Codes

  datatype Operator = Gt | Lt | Ge | Le | Eq

  /** When an input triggers its node: always, or when its count or latest value compares so. */
  datatype Trigger = Always | When(count: bool, op: Operator, reference: nat)

  datatype Input = Input(selector: Selector, trigger: Trigger)

  datatype Processing =
    | CopyLatestA | AverageA | CopyAllA | SumA | CopyCountA | TriggerStreamer | CallRpc | SubtractAFromB
    | Other(name: string)

  /** A node as its description says; `any` tells whether one triggered input is enough. */
  datatype Node = Node(stream: DataStream, a: Input, b: Option<Input>, any: bool, processing: Processing)

  datatype Error =
    | UnknownProcessing | FieldTooBig | WrongSize | NoFirstInput | UnknownOperation | UnknownCombiner | UnknownType
    | Unparsable

  type Result<+T> = Basics.Result<T, Error>

  // ----- Codes of the parts -------------------------------------------------------------

  function ProcessingCode(p: Processing): Option<nat> {
    match p
    case CopyLatestA => Some(0)
    case AverageA => Some(1)
    case CopyAllA => Some(2)
    case SumA => Some(3)
    case CopyCountA => Some(4)
    case TriggerStreamer => Some(5)
    case CallRpc => Some(6)
    case SubtractAFromB => Some(7)
    case Other(_) => None
  }

  function ProcessingOf(code: nat): Option<Processing> {
    match code
    case 0 => Some(CopyLatestA)
    case 1 => Some(AverageA)
    case 2 => Some(CopyAllA)
    case 3 => Some(SumA)
    case 4 => Some(CopyCountA)
    case 5 => Some(TriggerStreamer)
    case 6 => Some(CallRpc)
    case 7 => Some(SubtractAFromB)
    case _ => None
  }

  function OperatorCode(op: Operator): nat {
    match op
    case Gt => 0
    case Lt => 1
    case Ge => 2
    case Le => 3
    case Eq => 4
  }

  function OperatorOf(code: nat): Option<Operator> {
    match code
    case 0 => Some(Gt)
    case 1 => Some(Lt)
    case 2 => Some(Ge)
    case 3 => Some(Le)
    case 4 => Some(Eq)
    case _ => None
  }

  const ALWAYS: nat := 5

  function TriggerCode(t: Trigger): nat {
    match t
    case Always => Or(ALWAYS * 2, 0)
    case When(count, op, _) => Or(OperatorCode(op) * 2, if count then 1 else 0)
  }

  function ReferenceOf(t: Trigger): nat { if t.When? then t.reference else 0 }

  function TriggerOf(reference: nat, code: nat): Option<Trigger> {
    if code / 2 == ALWAYS then Some(Always)
    else if OperatorOf(code / 2).None? then None
    else Some(When(code % 2 == 1, OperatorOf(code / 2).value, reference))
  }

  lemma TriggerCodes(t: Trigger)
    ensures TriggerCode(t) < 12 && TriggerOf(ReferenceOf(t), TriggerCode(t)) == Some(t)
    ensures TriggerCode(t) == if t.When? then OperatorCode(t.op) * 2 + (if t.count then 1 else 0) else 10
  {
    if t.When? { KindAndFlags(OperatorCode(t.op)); }
  }

  lemma CodesOfTrigger(reference: nat, code: nat)
    requires TriggerOf(reference, code).Some?
    ensures var t := TriggerOf(reference, code).value;
            if code / 2 == ALWAYS then t == Always && TriggerCode(t) == 10 && ReferenceOf(t) == 0
            else TriggerCode(t) == code && ReferenceOf(t) == reference
  {
    TriggerCodes(TriggerOf(reference, code).value);
  }

  // ----- The layout -----------------------------------------------------------------------

  datatype Fields = Fields(
    refA: nat, refB: nat, stream: nat, a: nat, b: nat, processing: nat, condA: nat, condB: nat, combiner: nat)

  predicate Fits(f: Fields) {
    && f.refA < 0x1_0000_0000 && f.refB < 0x1_0000_0000
    && f.stream < 65536 && f.a < 65536 && f.b < 65536
    && f.processing < 256 && f.condA < 256 && f.condB < 256 && f.combiner < 256
  }

  function Pack(f: Fields): (bytes: seq<byte>)
    ensures |bytes| == 20
  {
    Little(f.refA, 4) + Little(f.refB, 4) + Little(f.stream, 2) + Little(f.a, 2) + Little(f.b, 2) +
    [f.processing % 256, f.condA % 256, f.condB % 256, f.combiner % 256, 0, 0]
  }

  function Unpack(bytes: seq<byte>): Fields
    requires |bytes| == 20
  {
    Fields(Number(bytes[0..4]), Number(bytes[4..8]), Number(bytes[8..10]), Number(bytes[10..12]), Number(bytes[12..14]),
      bytes[14], bytes[15], bytes[16], bytes[17])
  }

  lemma UnpackPack(f: Fields)
    requires Fits(f)
    ensures Unpack(Pack(f)) == f
  {
    Powers256();
    var p := Pack(f);
    NumberOfLittle(f.refA, 4);
    NumberOfLittle(f.refB, 4);
    NumberOfLittle(f.stream, 2);
    NumberOfLittle(f.a, 2);
    NumberOfLittle(f.b, 2);
    assert p[0..4] == Little(f.refA, 4) && p[4..8] == Little(f.refB, 4);
    assert p[8..10] == Little(f.stream, 2) && p[10..12] == Little(f.a, 2) && p[12..14] == Little(f.b, 2);
  }

  lemma PackUnpack(bytes: seq<byte>)
    requires |bytes| == 20
    ensures Fits(Unpack(bytes)) && Pack(Unpack(bytes)) == bytes[..18] + [0, 0]
  {
    Powers256();
    LittleOfNumber(bytes[0..4]);
    LittleOfNumber(bytes[4..8]);
    LittleOfNumber(bytes[8..10]);
    LittleOfNumber(bytes[10..12]);
    LittleOfNumber(bytes[12..14]);
    assert bytes[..18] == bytes[0..4] + bytes[4..8] + bytes[8..10] + bytes[10..12] + bytes[12..14] + bytes[14..18];
  }

  // ----- Encoding and decoding ----------------------------------------------------------------

  function FieldsOf(n: Node, code: nat): Fields {
    Fields(
      ReferenceOf(n.a.trigger), if n.b.Some? then ReferenceOf(n.b.value.trigger) else 0,
      n.stream.Encode(), EncodeSelector(n.a.selector), if n.b.Some? then EncodeSelector(n.b.value.selector) else 0xFFFF,
      code, TriggerCode(n.a.trigger), TriggerCode(if n.b.Some? then n.b.value.trigger else Always),
      if n.any then 1 else 0)
  }

  function EncodeNode(n: Node): Result<seq<byte>> {
    if ProcessingCode(n.processing).None? then Err(UnknownProcessing)
    else
      var f := FieldsOf(n, ProcessingCode(n.processing).value);
      if Fits(f) then Ok(Pack(f)) else Err(FieldTooBig)
  }

  /** Only the six stream types have a name to print. */
  predicate Named(kind: nat) { kind < 6 }

  /** The description that is printed; a combiner is only printed between two inputs. */
  function DecodeFields(f: Fields): Result<Node> {
    if f.a == 0xFFFF then Err(NoFirstInput)
    else if TriggerOf(f.refA, f.condA).None? then Err(UnknownOperation)
    else if f.b != 0xFFFF && TriggerOf(f.refB, f.condB).None? then Err(UnknownOperation)
    else if f.combiner > 1 then Err(UnknownCombiner)
    else if ProcessingOf(f.processing).None? then Err(UnknownProcessing)
    else
      var stream, a, b := Decode(f.stream), DecodeSelector(f.a), DecodeSelector(f.b);
      if !Named(stream.kind) || !Named(a.kind) || (f.b != 0xFFFF && !Named(b.kind)) then Err(UnknownType)
      else
        Ok(Node(stream, Input(a, TriggerOf(f.refA, f.condA).value),
          if f.b == 0xFFFF then None else Some(Input(b, TriggerOf(f.refB, f.condB).value)),
          f.b != 0xFFFF && f.combiner == 1, ProcessingOf(f.processing).value))
  }

  function DecodeNode(bytes: seq<byte>): Result<Node> {
    if |bytes| != 20 then Err(WrongSize) else DecodeFields(Unpack(bytes))
  }

  // ----- Node to bytes and back ------------------------------------------------------------------

  /** A description of an input names one stream, user or system. */
  predicate Plain(s: Selector) { Named(s.kind) && s.id.Some? && s.spec in {SystemOnly, UserOnly} }

  /** A node that a description can say. */
  predicate Described(n: Node) {
    && Named(n.stream.kind) && Plain(n.a.selector)
    && (n.b.Some? ==> Plain(n.b.value.selector)) && (n.b.None? ==> !n.any)
    && ProcessingCode(n.processing).Some?
  }

  /** Stream ids fit eleven bits, and those of inputs are not the code for all ids. */
  predicate InRange(n: Node) {
    && n.stream.id < 2048 && n.a.selector.id.Some? && n.a.selector.id.value < MATCH_ALL
    && (n.b.Some? ==> n.b.value.selector.id.Some? && n.b.value.selector.id.value < MATCH_ALL)
  }

  predicate ReferencesFit(n: Node) {
    ReferenceOf(n.a.trigger) < 0x1_0000_0000 && (n.b.Some? ==> ReferenceOf(n.b.value.trigger) < 0x1_0000_0000)
  }

  lemma InputCode(s: Selector)
    requires Plain(s) && s.id.value < MATCH_ALL
    ensures EncodeSelector(s) < 0xFFFF && DecodeSelector(EncodeSelector(s)) == s
  {
    SelectorDecodes(s);
    NoSelectorIsMissing(s);
  }

  lemma FieldsDecode(n: Node)
    requires Described(n) && InRange(n) && ReferencesFit(n)
    ensures var f := FieldsOf(n, ProcessingCode(n.processing).value);
            Fits(f) && DecodeFields(f) == Ok(n)
  {
    DecodeEncode(n.stream);
    InputCode(n.a.selector);
    TriggerCodes(n.a.trigger);
    TriggerCodes(Always);
    if n.b.Some? {
      InputCode(n.b.value.selector);
      TriggerCodes(n.b.value.trigger);
    }
  }

  lemma DecodedInRange(f: Fields)
    requires DecodeFields(f).Ok? && DecodeFields(f).value.a.selector.id.Some?
    requires DecodeFields(f).value.b.Some? ==> DecodeFields(f).value.b.value.selector.id.Some?
    ensures InRange(DecodeFields(f).value)
  {
  }

  /** A described node with 32-bit references is encoded; it is decoded to itself exactly when
      its stream ids are in range. */
  lemma NodeRoundTrip(n: Node)
    requires Described(n) && ReferencesFit(n)
    ensures InRange(n) ==> EncodeNode(n).Ok?
    ensures EncodeNode(n).Ok? ==> (DecodeNode(EncodeNode(n).value) == Ok(n) <==> InRange(n))
  {
    var f := FieldsOf(n, ProcessingCode(n.processing).value);
    if InRange(n) { FieldsDecode(n); }
    if Fits(f) {
      UnpackPack(f);
      if DecodeFields(f) == Ok(n) { DecodedInRange(f); }
    }
  }

  // ----- Bytes to node and back --------------------------------------------------------------------

  /** The fields as encoding writes them: nothing in the places that are not used. */
  function Normal(f: Fields): Fields {
    var g := if f.condA / 2 == ALWAYS then f.(refA := 0, condA := 10) else f;
    if f.b == 0xFFFF then g.(refB := 0, condB := 10, combiner := 0)
    else if f.condB / 2 == ALWAYS then g.(refB := 0, condB := 10)
    else g
  }

  lemma FieldsEncode(f: Fields)
    requires Fits(f) && DecodeFields(f).Ok?
    ensures var n := DecodeFields(f).value;
            ProcessingCode(n.processing) == Some(f.processing) && FieldsOf(n, f.processing) == Normal(f)
  {
    EncodeDecode(f.stream);
    SelectorCodes(f.a);
    CodesOfTrigger(f.refA, f.condA);
    TriggerCodes(Always);
    if f.b != 0xFFFF {
      SelectorCodes(f.b);
      CodesOfTrigger(f.refB, f.condB);
    }
  }

  lemma NormalFits(f: Fields)
    requires Fits(f)
    ensures Fits(Normal(f))
  {
  }

  /** The node that bytes are decoded to is encoded as these bytes with all unused places
      cleared; so as exactly the same bytes if and only if these were clear already. */
  lemma NodeBytes(bytes: seq<byte>)
    requires DecodeNode(bytes).Ok?
    ensures EncodeNode(DecodeNode(bytes).value) == Ok(Pack(Normal(Unpack(bytes))))
    ensures EncodeNode(DecodeNode(bytes).value) == Ok(bytes) <==> Clear(bytes)
  {
    var f := Unpack(bytes);
    PackUnpack(bytes);
    FieldsEncode(f);
    NormalFits(f);
    UnpackPack(Normal(f));
    var p := Pack(Normal(f));
    assert p[18] == 0 && p[19] == 0;
    if Clear(bytes) { assert bytes == bytes[..18] + [0, 0]; }
  }

  /** Places that carry no information are as encoding writes them. */
  predicate Clear(bytes: seq<byte>)
    requires |bytes| == 20
  {
    Normal(Unpack(bytes)) == Unpack(bytes) && bytes[18] == 0 && bytes[19] == 0
  }
}
