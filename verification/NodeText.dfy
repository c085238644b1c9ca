/** The text of node descriptions, and the way from 20 bytes to text and back.  White space
    does not matter in it, so a text is the sequence of its tokens. */
module NodeText {
  import opened Basics
  import opened Bytes
  import opened Streams
  import opened Codes
  import opened NodeDescriptors
  import opened StreamText

  // ----- Names ------------------------------------------------------------------------------

  function ProcessingName(p: Processing): string {
    match p
    case CopyLatestA => "copy_latest_a"
    case AverageA => "average_a"
    case CopyAllA => "copy_all_a"
    case SumA => "sum_a"
    case CopyCountA => "copy_count_a"
    case TriggerStreamer => "trigger_streamer"
    case CallRpc => "call_rpc"
    case SubtractAFromB => "subtract_afromb"
    case Other(name) => name
  }

  function ProcessingNamed(name: string): Processing {
    if name == "copy_latest_a" then CopyLatestA
    else if name == "average_a" then AverageA
    else if name == "copy_all_a" then CopyAllA
    else if name == "sum_a" then SumA
    else if name == "copy_count_a" then CopyCountA
    else if name == "trigger_streamer" then TriggerStreamer
    else if name == "call_rpc" then CallRpc
    else if name == "subtract_afromb" then SubtractAFromB
    else Other(name)
  }

  function OperatorName(op: Operator): string {
    match op
    case Gt => ">"
    case Lt => "<"
    case Ge => ">="
    case Le => "<="
    case Eq => "=="
  }

  function OperatorNamed(name: string): Option<Operator> {
    if name == ">" then Some(Gt)
    else if name == "<" then Some(Lt)
    else if name == ">=" then Some(Ge)
    else if name == "<=" then Some(Le)
    else if name == "==" then Some(Eq)
    else None
  }

  // ----- Printing ------------------------------------------------------------------------------

  function PrintTrigger(t: Trigger): seq<string> {
    match t
    case Always => ["always"]
    case When(count, op, reference) =>
      ["when", if count then "count" else "value", OperatorName(op), Decimal(reference)]
  }

  function PrintInput(i: Input): seq<string>
    requires Named(i.selector.kind)
  {
    Split(PrintSelector(i.selector)) + PrintTrigger(i.trigger)
  }

  predicate Printable(n: Node) {
    Named(n.stream.kind) && Named(n.a.selector.kind) && (n.b.Some? ==> Named(n.b.value.selector.kind))
  }

  /** What stands between the first input and the closing parenthesis. */
  function PrintSecond(n: Node): seq<string>
    requires Printable(n)
  {
    if n.b.None? then [] else [if n.any then "||" else "&&"] + PrintInput(n.b.value)
  }

  function PrintTarget(n: Node): seq<string>
    requires Printable(n)
  {
    ["=>"] + (StreamWords(n.stream) + ["using", ProcessingName(n.processing)])
  }

  function PrintNode(n: Node): seq<string>
    requires Printable(n)
  {
    ["("] + (PrintInput(n.a) + (PrintSecond(n) + ([")"] + PrintTarget(n))))
  }

  // ----- Parsing --------------------------------------------------------------------------------

  datatype Took<+T> = Took(value: T, rest: seq<string>) | Fail

  /** Inputs are single streams in this text; "all" is no part of it. */
  function TakeStream(t: seq<string>): Took<DataStream> {
    var system := t != [] && t[0] == "system";
    var u := if system then t[1..] else t;
    if u == [] || TypeNamed(u[0]).None? then Fail
    else
      var v := if |u| > 1 && u[1] == "node" then u[2..] else u[1..];
      if v == [] || ParseNumber(v[0]).None? then Fail
      else Took(DataStream(TypeNamed(u[0]).value, ParseNumber(v[0]).value, system), v[1..])
  }

  function TakeTrigger(t: seq<string>): Took<Trigger> {
    if t != [] && t[0] == "always" then Took(Always, t[1..])
    else if |t| < 4 || t[0] != "when" || (t[1] != "value" && t[1] != "count") then Fail
    else if OperatorNamed(t[2]).None? || ParseNumber(t[3]).None? then Fail
    else Took(When(t[1] == "count", OperatorNamed(t[2]).value, ParseNumber(t[3]).value), t[4..])
  }

  function TakeInput(t: seq<string>): Took<Input> {
    match TakeStream(t)
    case Fail => Fail
    case Took(s, rest) =>
      match TakeTrigger(rest)
      case Fail => Fail
      case Took(trigger, more) =>
        Took(Input(Selector(s.kind, Some(s.id), if s.system then SystemOnly else UserOnly), trigger), more)
  }

  /** A combiner and a second input, if the parenthesis does not close. */
  function TakeSecond(t: seq<string>): Took<(Option<Input>, bool)> {
    if t != [] && t[0] == ")" then Took((None, false), t)
    else if t == [] || (t[0] != "&&" && t[0] != "||") then Fail
    else
      match TakeInput(t[1..])
      case Fail => Fail
      case Took(i, rest) => Took((Some(i), t[0] == "||"), rest)
  }

  function TakeTarget(t: seq<string>): Took<(DataStream, Processing)> {
    if |t| < 2 || t[0] != ")" || t[1] != "=>" then Fail
    else
      match TakeStream(t[2..])
      case Fail => Fail
      case Took(s, rest) =>
        if |rest| < 2 || rest[0] != "using" then Fail else Took((s, ProcessingNamed(rest[1])), rest[2..])
  }

  function ParseNode(t: seq<string>): Option<Node> {
    if t == [] || t[0] != "(" then None
    else
      match TakeInput(t[1..])
      case Fail => None
      case Took(a, afterA) =>
        match TakeSecond(afterA)
        case Fail => None
        case Took(b, afterB) =>
          match TakeTarget(afterB)
          case Fail => None
          case Took(target, _) => Some(Node(target.0, a, b.0, b.1, target.1))
  }

  function EncodeText(t: seq<string>): NodeDescriptors.Result<seq<byte>> {
    match ParseNode(t)
    case None => Err(Unparsable)
    case Some(n) => EncodeNode(n)
  }

  function DecodeText(bytes: seq<byte>): NodeDescriptors.Result<seq<string>> {
    match DecodeNode(bytes)
    case Err(e) => Err(e)
    case Ok(n) => if Printable(n) then Ok(PrintNode(n)) else Err(UnknownType)
  }

  // ----- Reading back what is printed --------------------------------------------------------------

  lemma TakeNamed(s: DataStream, t: seq<string>, u: seq<string>, rest: seq<string>)
    requires Named(s.kind) && u == [TypeName(s.kind), Decimal(s.id)] + rest
    requires t == if s.system then ["system"] + u else u
    ensures TakeStream(t) == Took(s, rest)
  {
    TypeWords(s.kind);
    ParseDecimal(s.id);
    assert Digit(Decimal(s.id)[0]);
    assert s.system ==> t[1..] == u;
    assert u[1..] == [Decimal(s.id)] + rest && u[1..][1..] == rest;
  }

  lemma TakePrintedStream(s: DataStream, rest: seq<string>)
    requires Named(s.kind)
    ensures TakeStream(StreamWords(s) + rest) == Took(s, rest)
  {
    var u := [TypeName(s.kind), Decimal(s.id)] + rest;
    var t := StreamWords(s) + rest;
    assert t == if s.system then ["system"] + u else u;
    TakeNamed(s, t, u, rest);
  }

  lemma TakePrintedTrigger(g: Trigger, rest: seq<string>)
    ensures TakeTrigger(PrintTrigger(g) + rest) == Took(g, rest)
  {
    var t := PrintTrigger(g) + rest;
    if g.When? {
      ParseDecimal(g.reference);
      assert t[4..] == rest;
    } else {
      assert t[1..] == rest;
    }
  }

  /** The selector as the text of a single stream says it. */
  function Simplified(s: Selector): Selector { s.(spec := if s.spec == SystemOnly then SystemOnly else UserOnly) }

  lemma TakeSingle(i: Input, stream: DataStream, t: seq<string>, rest: seq<string>)
    requires Named(stream.kind) && t == StreamWords(stream) + (PrintTrigger(i.trigger) + rest)
    ensures TakeInput(t) ==
            var spec := if stream.system then SystemOnly else UserOnly;
            Took(Input(Selector(stream.kind, Some(stream.id), spec), i.trigger), rest)
  {
    TakePrintedStream(stream, PrintTrigger(i.trigger) + rest);
    TakePrintedTrigger(i.trigger, rest);
  }

  lemma TakeWildcard(t: seq<string>)
    requires t != [] && t[0] == "all"
    ensures TakeInput(t) == Fail
  {
  }

  lemma PrintedSingle(i: Input, rest: seq<string>)
    requires Named(i.selector.kind) && i.selector.id.Some?
    ensures var s := i.selector;
            PrintInput(i) + rest ==
            StreamWords(DataStream(s.kind, s.id.value, s.spec == SystemOnly)) + (PrintTrigger(i.trigger) + rest)
  {
    PrintedWords(DataStream(i.selector.kind, i.selector.id.value, i.selector.spec == SystemOnly));
  }

  lemma TakePrintedInput(i: Input, rest: seq<string>)
    requires Named(i.selector.kind)
    ensures TakeInput(PrintInput(i) + rest) ==
            if i.selector.id.Some? then Took(i.(selector := Simplified(i.selector)), rest) else Fail
  {
    var s := i.selector;
    if s.id.Some? {
      var stream := DataStream(s.kind, s.id.value, s.spec == SystemOnly);
      PrintedSingle(i, rest);
      TakeSingle(i, stream, PrintInput(i) + rest, rest);
    } else {
      WildcardWords(s);
      TakeWildcard(PrintInput(i) + rest);
    }
  }

  lemma ProcessingNames(p: Processing)
    requires ProcessingCode(p).Some?
    ensures ProcessingNamed(ProcessingName(p)) == p
  {
  }

  lemma TakePrintedTarget(n: Node)
    requires Printable(n) && ProcessingCode(n.processing).Some?
    ensures TakeTarget([")"] + PrintTarget(n)) == Took((n.stream, n.processing), [])
  {
    var t := [")"] + PrintTarget(n);
    var last := ["using", ProcessingName(n.processing)];
    TakePrintedStream(n.stream, last);
    ProcessingNames(n.processing);
    assert t[2..] == StreamWords(n.stream) + last;
    assert last[2..] == [];
  }

  lemma TakeCombined(t: seq<string>, any: bool, more: seq<string>)
    requires t == [if any then "||" else "&&"] + more
    ensures TakeSecond(t) ==
            match TakeInput(more)
            case Fail => Fail
            case Took(i, rest) => Took((Some(i), any), rest)
  {
    assert t[1..] == more;
    assert t[0][0] == if any then '|' else '&';
  }

  lemma TakePrintedCombined(i: Input, any: bool, t: seq<string>, rest: seq<string>)
    requires Named(i.selector.kind) && t == [if any then "||" else "&&"] + (PrintInput(i) + rest)
    ensures TakeSecond(t) ==
            if i.selector.id.None? then Fail else Took((Some(i.(selector := Simplified(i.selector))), any), rest)
  {
    TakePrintedInput(i, rest);
    TakeCombined(t, any, PrintInput(i) + rest);
  }

  lemma TakeClosed(t: seq<string>)
    requires t != [] && t[0] == ")"
    ensures TakeSecond(t) == Took((None, false), t)
  {
  }

  lemma SecondPrinted(n: Node, i: Input, rest: seq<string>)
    requires Printable(n) && n.b == Some(i)
    ensures PrintSecond(n) + rest == [if n.any then "||" else "&&"] + (PrintInput(i) + rest)
  {
  }

  lemma TakePrintedSecond(n: Node, rest: seq<string>)
    requires Printable(n) && rest != [] && rest[0] == ")"
    ensures TakeSecond(PrintSecond(n) + rest) ==
            if n.b.None? then Took((None, false), rest)
            else if n.b.value.selector.id.None? then Fail
            else Took((Some(n.b.value.(selector := Simplified(n.b.value.selector))), n.any), rest)
  {
    var t := PrintSecond(n) + rest;
    if n.b.None? {
      assert t == rest;
      TakeClosed(t);
    } else {
      var i := n.b.value;
      SecondPrinted(n, i, rest);
      TakePrintedCombined(i, n.any, t, rest);
    }
  }

  /** All inputs are single streams. */
  predicate Single(n: Node) { n.a.selector.id.Some? && (n.b.Some? ==> n.b.value.selector.id.Some?) }

  /** The node as its text says it. */
  function Said(n: Node): Node {
    Node(n.stream, n.a.(selector := Simplified(n.a.selector)),
      if n.b.None? then None else Some(n.b.value.(selector := Simplified(n.b.value.selector))),
      n.b.Some? && n.any, n.processing)
  }

  /** What is printed is read back, but for what the text does not say: it is refused when an
      input is a wildcard, and every specifier but the system one is read as the user one. */
  lemma ReadBack(n: Node)
    requires Printable(n) && ProcessingCode(n.processing).Some?
    ensures ParseNode(PrintNode(n)) == if Single(n) then Some(Said(n)) else None
  {
    var target := [")"] + PrintTarget(n);
    TakePrintedInput(n.a, PrintSecond(n) + target);
    TakePrintedSecond(n, target);
    TakePrintedTarget(n);
    assert PrintNode(n)[1..] == PrintInput(n.a) + (PrintSecond(n) + target);
  }

  /** So exactly the nodes that a description can say are read back as they are. */
  lemma DescribedIsReadBack(n: Node)
    requires Printable(n) && ProcessingCode(n.processing).Some?
    ensures ParseNode(PrintNode(n)) == Some(n) <==> Described(n)
  {
    ReadBack(n);
  }

  // ----- Text to bytes and back, bytes to text and back ---------------------------------------------

  lemma ParsedIsDescribed(t: seq<string>)
    requires ParseNode(t).Some? && ProcessingCode(ParseNode(t).value.processing).Some?
    ensures Described(ParseNode(t).value) && Printable(ParseNode(t).value)
  {
  }

  /** A description with 32-bit references is decoded to the text of the node it describes
      exactly when its stream ids are in range. */
  lemma TextRoundTrip(t: seq<string>)
    requires ParseNode(t).Some? && ProcessingCode(ParseNode(t).value.processing).Some? &&
             ReferencesFit(ParseNode(t).value)
    ensures var n := ParseNode(t).value;
            && Printable(n)
            && (InRange(n) ==> EncodeText(t).Ok?)
            && (EncodeText(t).Ok? ==> (DecodeText(EncodeText(t).value) == Ok(PrintNode(n)) <==> InRange(n)))
  {
    var n := ParseNode(t).value;
    ParsedIsDescribed(t);
    NodeRoundTrip(n);
    DescribedIsReadBack(n);
    if EncodeText(t).Ok? && DecodeNode(EncodeText(t).value).Ok? {
      DecodedPrintable(EncodeText(t).value);
      var d := DecodeNode(EncodeText(t).value).value;
      if PrintNode(d) == PrintNode(n) {
        ReadBack(d);
        DecodedInRange(Unpack(EncodeText(t).value));
      }
    }
  }

  lemma DecodedPrintable(bytes: seq<byte>)
    requires DecodeNode(bytes).Ok?
    ensures Printable(DecodeNode(bytes).value) && ProcessingCode(DecodeNode(bytes).value.processing).Some?
  {
  }

  /** Both inputs are single streams with the user-only or the system-only specifier. */
  predicate PlainInputs(n: Node) { Plain(n.a.selector) && (n.b.Some? ==> Plain(n.b.value.selector)) }

  lemma DecodedCombiner(bytes: seq<byte>)
    requires DecodeNode(bytes).Ok?
    ensures DecodeNode(bytes).value.b.None? ==> !DecodeNode(bytes).value.any
  {
  }

  lemma SaidInRange(f: Fields)
    requires DecodeFields(f).Ok? && Single(DecodeFields(f).value) && Fits(f)
    ensures var n := Said(DecodeFields(f).value);
            Described(n) && InRange(n) && ReferencesFit(n)
  {
    DecodedInRange(f);
    CodesOfTrigger(f.refA, f.condA);
    if f.b != 0xFFFF { CodesOfTrigger(f.refB, f.condB); }
  }

  /** Bytes that are decoded to a text are encoded from it as exactly the same bytes if and
      only if their unused places are clear and both inputs are single streams with the
      user-only or the system-only specifier. */
  lemma BytesRoundTrip(bytes: seq<byte>)
    requires DecodeText(bytes).Ok?
    ensures EncodeText(DecodeText(bytes).value) == Ok(bytes) <==> Clear(bytes) && PlainInputs(DecodeNode(bytes).value)
  {
    var n, f := DecodeNode(bytes).value, Unpack(bytes);
    PackUnpack(bytes);
    NodeBytes(bytes);
    ReadBack(n);
    DecodedCombiner(bytes);
    if Single(n) {
      SaidInRange(f);
      NodeRoundTrip(Said(n));
      if EncodeNode(Said(n)) == Ok(bytes) { assert Said(n) == n; }
    }
  }

  /** The code of a selector without the specifiers that text does not say. */
  function PlainCode(code: nat): nat
    requires code < 65536
  {
    if code / 32768 % 2 == 0 then code else code - 32768 - (code / 2048 % 2) * 2048
  }

  lemma SimplifiedCode(code: nat)
    requires code < 65536 && DecodeSelector(code).id.Some?
    ensures EncodeSelector(Simplified(DecodeSelector(code))) == PlainCode(code)
  {
    SelectorCode(Simplified(DecodeSelector(code)));
    CodeFields(code);
  }

  /** The fields that come back from text. */
  function Reread(f: Fields): Fields
    requires Fits(f)
  {
    Normal(f).(a := PlainCode(f.a), b := if f.b == 0xFFFF then 0xFFFF else PlainCode(f.b))
  }

  lemma SaidFields(f: Fields, n: Node)
    requires Fits(f) && DecodeFields(f) == Ok(n) && Single(n)
    ensures FieldsOf(Said(n), f.processing) == Reread(f)
  {
    FieldsEncode(f);
    SimplifiedCode(f.a);
    if f.b != 0xFFFF { SimplifiedCode(f.b); }
  }

  lemma EncodeSaid(f: Fields, n: Node, m: Node, g: Fields)
    requires Fits(f) && DecodeFields(f) == Ok(n) && Single(n) && m == Said(n) && g == Reread(f)
    ensures EncodeNode(m) == Ok(Pack(g))
  {
    SaidFields(f, n);
    FieldsEncode(f);
    NormalFits(f);
    assert m.processing == n.processing;
  }

  /** Text that is printed for fields is encoded again as the fields with unused places
      cleared and specifiers reduced, or refused when an input is a wildcard. */
  lemma Reencoded(f: Fields, n: Node)
    requires Fits(f) && DecodeFields(f) == Ok(n)
    ensures Printable(n)
    ensures EncodeText(PrintNode(n)) == if Single(n) then Ok(Pack(Reread(f))) else Err(Unparsable)
  {
    FieldsEncode(f);
    ReadBack(n);
    if Single(n) { EncodeSaid(f, n, Said(n), Reread(f)); }
  }

  /** Fields of a node whose one input, buffered stream 5, has the specifier for user
      streams and breaks: its code is 0x8005. */
  predicate WithBreaks(f: Fields) { f == Fields(0, 0, 0, 0x8005, 0xFFFF, 0, 10, 10, 0) }

  lemma WithBreaksDecoded(f: Fields, n: Node)
    requires WithBreaks(f)
    requires var i := Input(Selector(0, Some(5), UserAndBreaks), Always);
             n == Node(DataStream(0, 0, false), i, None, false, CopyLatestA)
    ensures Fits(f) && DecodeFields(f) == Ok(n) && Single(n) && Normal(f) == f && Reread(f) == f.(a := 0x0005)
  {
  }

  lemma PackedClear(f: Fields)
    requires Fits(f) && Normal(f) == f
    ensures Unpack(Pack(f)) == f && Clear(Pack(f))
  {
    UnpackPack(f);
    assert Pack(f)[18] == 0 && Pack(f)[19] == 0;
  }

  /** Such a node is printed as "buffered 5", and comes back with the code 0x0005 although
      all unused places of its bytes are clear. */
  lemma BreaksSpecifierIsLost(f: Fields)
    requires WithBreaks(f)
    ensures Unpack(Pack(f)) == f && Clear(Pack(f)) && DecodeFields(f).Ok? && Printable(DecodeFields(f).value)
    ensures EncodeText(PrintNode(DecodeFields(f).value)) == Ok(Pack(f.(a := 0x0005)))
  {
    var i := Input(Selector(0, Some(5), UserAndBreaks), Always);
    var n := Node(DataStream(0, 0, false), i, None, false, CopyLatestA);
    WithBreaksDecoded(f, n);
    PackedClear(f);
    Reencoded(f, n);
  }
}
