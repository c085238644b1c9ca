/** Streamers of a sensor graph in 14 bytes. */
module StreamerDescriptors {
  import opened Basics
  import opened Bytes
  import opened Streams
  import opened Codes
  import opened Formats

  /** The tile that a streamer sends to. */
  datatype Slot = Controller | Numbered(slot: nat)

  datatype Streamer = Streamer(
    dest: Slot, selector: Selector, automatic: bool, withOther: Option<nat>, format: Format, report: ReportType)

  datatype Error =
    | WrongSize | UnknownMatch | UnsupportedMatch | BadSlot | UnknownFormat | UnknownReport
    | UnknownTrigger | FieldTooBig

  type Result<+T> = Basics.Result<T, Error>

  // ----- Slots -----------------------------------------------------------------------------

  predicate ValidSlot(s: Slot) { s.Numbered? ==> 1 <= s.slot < 32 }

  function EncodeSlot(s: Slot): (bytes: seq<byte>)
    requires ValidSlot(s)
    ensures |bytes| == 8
  {
    if s.Controller? then [0, 0, 0, 0, 0, 0, 0, 2] else [s.slot, 0, 0, 0, 0, 0, 0, 1]
  }

  function DecodeSlot(bytes: seq<byte>): (r: Result<Slot>)
    requires |bytes| == 8
    ensures r.Ok? ==> ValidSlot(r.value)
  {
    if bytes[7] > 3 then Err(UnknownMatch)
    else if bytes[7] == 2 then Ok(Controller)
    else if bytes[7] != 1 then Err(UnsupportedMatch)
    else if bytes[0] < 1 || bytes[0] >= 32 then Err(BadSlot)
    else Ok(Numbered(bytes[0]))
  }

  lemma SlotRoundTrip(s: Slot)
    requires ValidSlot(s)
    ensures DecodeSlot(EncodeSlot(s)) == Ok(s)
  {
  }

  /** A slot's bytes are what its encoding gives exactly when their unused places are clear. */
  lemma SlotBytes(bytes: seq<byte>)
    requires |bytes| == 8 && DecodeSlot(bytes).Ok?
    ensures EncodeSlot(DecodeSlot(bytes).value) == bytes <==> SlotClear(bytes)
  {
    var again := EncodeSlot(DecodeSlot(bytes).value);
    assert bytes[1..7] == [bytes[1], bytes[2], bytes[3], bytes[4], bytes[5], bytes[6]];
    assert again[0] == bytes[0] <==> (bytes[7] == 2 ==> bytes[0] == 0);
    assert again == bytes <==> again[0] == bytes[0] && bytes[1..7] == again[1..7] by {
      assert again == [again[0]] + again[1..7] + [again[7]] && bytes == [bytes[0]] + bytes[1..7] + [bytes[7]];
    }
  }

  predicate SlotClear(bytes: seq<byte>)
    requires |bytes| == 8
  {
    bytes[1..7] == [0, 0, 0, 0, 0, 0] && (bytes[7] == 2 ==> bytes[0] == 0)
  }

  // ----- Codes of the parts -------------------------------------------------------------------

  function FormatCode(f: Format): nat {
    match f
    case Individual => 0
    case HashedList => 1
    case SignedListUserKey => 2
    case SignedListDeviceKey => 3
  }

  function FormatOf(code: nat): Option<Format> {
    match code
    case 0 => Some(Individual)
    case 1 => Some(HashedList)
    case 2 => Some(SignedListUserKey)
    case 3 => Some(SignedListDeviceKey)
    case _ => None
  }

  function ReportCode(t: ReportType): nat {
    match t
    case Broadcast => 1
    case Telegram => 2
    case Synchronous => 4
  }

  function ReportOf(code: nat): Option<ReportType> {
    match code
    case 1 => Some(Broadcast)
    case 2 => Some(Telegram)
    case 4 => Some(Synchronous)
    case _ => None
  }

  /** How the streamer is triggered: by another one when the top bit is set. */
  function TriggerCode(automatic: bool, withOther: Option<nat>): nat {
    if automatic then 1
    else if withOther.Some? then Or(128, withOther.value)
    else 0
  }

  datatype Triggering = Triggering(automatic: bool, withOther: Option<nat>)

  function TriggeringOf(code: nat): Option<Triggering> {
    if code / 128 % 2 == 1 then Some(Triggering(false, Some(code % 128)))
    else if code == 0 then Some(Triggering(false, None))
    else if code == 1 then Some(Triggering(true, None))
    else None
  }

  lemma OtherCode(w: nat)
    requires w < 128
    ensures Or(128, w) == 128 + w
  {
    assert Pow2(4) == 16 && Pow2(7) == 128;
    OrAdds(1, w, 7);
  }

  lemma TriggerRoundTrip(automatic: bool, withOther: Option<nat>)
    ensures TriggeringOf(TriggerCode(automatic, withOther)) == Some(Triggering(automatic, withOther)) <==>
            (withOther.Some? ==> !automatic && withOther.value < 128)
    ensures (withOther.Some? ==> !automatic && withOther.value < 128) ==> TriggerCode(automatic, withOther) < 256
  {
    if withOther.Some? && withOther.value < 128 { OtherCode(withOther.value); }
  }

  lemma CodeOfTriggering(code: nat)
    requires code < 256 && TriggeringOf(code).Some?
    ensures TriggerCode(TriggeringOf(code).value.automatic, TriggeringOf(code).value.withOther) == code
  {
    if code >= 128 {
      assert code / 128 == 1 && code % 128 == code - 128;
      OtherCode(code - 128);
    } else {
      assert code / 128 == 0;
    }
  }

  // ----- Encoding and decoding --------------------------------------------------------------------

  function EncodeStreamer(s: Streamer): (r: Result<seq<byte>>)
    requires ValidSlot(s.dest)
    ensures r.Ok? ==> |r.value| == 14
  {
    var code, trigger := EncodeSelector(s.selector), TriggerCode(s.automatic, s.withOther);
    if code >= 65536 || trigger >= 256 then Err(FieldTooBig)
    else Ok(EncodeSlot(s.dest) + Little(code, 2) + [trigger, FormatCode(s.format), ReportCode(s.report), 0])
  }

  function DecodeStreamer(bytes: seq<byte>): (r: Result<Streamer>)
    ensures r.Ok? ==> ValidSlot(r.value.dest)
  {
    if |bytes| != 14 then Err(WrongSize)
    else
      var dest, selector := DecodeSlot(bytes[0..8]), DecodeSelector(Number(bytes[8..10]));
      if dest.Err? then Err(dest.error)
      else if FormatOf(bytes[11]).None? then Err(UnknownFormat)
      else if ReportOf(bytes[12]).None? then Err(UnknownReport)
      else if TriggeringOf(bytes[10]).None? then Err(UnknownTrigger)
      else
        var t := TriggeringOf(bytes[10]).value;
        var format, report := FormatOf(bytes[11]).value, ReportOf(bytes[12]).value;
        Ok(Streamer(dest.value, selector, t.automatic, t.withOther, format, report))
  }

  /** The selector fits its code, and the other streamer's index seven bits; a streamer that
      waits for another one is not automatic. */
  predicate Encodable(s: Streamer) {
    && s.selector.kind < 8 && (s.selector.id.Some? ==> s.selector.id.value < MATCH_ALL)
    && (s.withOther.Some? ==> !s.automatic && s.withOther.value < 128)
  }

  lemma EncodedParts(s: Streamer)
    requires ValidSlot(s.dest) && EncodeStreamer(s).Ok?
    ensures DecodeStreamer(EncodeStreamer(s).value) ==
            if TriggeringOf(TriggerCode(s.automatic, s.withOther)).None? then Err(UnknownTrigger)
            else
              var t := TriggeringOf(TriggerCode(s.automatic, s.withOther)).value;
              var selector := DecodeSelector(EncodeSelector(s.selector));
              Ok(Streamer(s.dest, selector, t.automatic, t.withOther, s.format, s.report))
  {
    var bytes, code := EncodeStreamer(s).value, EncodeSelector(s.selector);
    Powers256();
    NumberOfLittle(code, 2);
    assert bytes[0..8] == EncodeSlot(s.dest) && bytes[8..10] == Little(code, 2);
    SlotRoundTrip(s.dest);
  }

  /** A streamer is decoded to itself from its encoding exactly when it is encodable, and then
      it has one. */
  lemma StreamerRoundTrip(s: Streamer)
    requires ValidSlot(s.dest)
    ensures Encodable(s) ==> EncodeStreamer(s).Ok?
    ensures EncodeStreamer(s).Ok? ==> (DecodeStreamer(EncodeStreamer(s).value) == Ok(s) <==> Encodable(s))
  {
    TriggerRoundTrip(s.automatic, s.withOther);
    SelectorRoundTrip(s.selector);
    if Encodable(s) { SelectorDecodes(s.selector); }
    if EncodeStreamer(s).Ok? { EncodedParts(s); }
  }

  /** Bytes that are decoded are encoded as exactly the same bytes if and only if their unused
      places are clear. */
  lemma BytesRoundTrip(bytes: seq<byte>)
    requires DecodeStreamer(bytes).Ok?
    ensures EncodeStreamer(DecodeStreamer(bytes).value).Ok?
    ensures EncodeStreamer(DecodeStreamer(bytes).value).value == bytes <==> SlotClear(bytes[0..8]) && bytes[13] == 0
  {
    var s := DecodeStreamer(bytes).value;
    SlotBytes(bytes[0..8]);
    EncodedAgain(bytes, s);
    SameParts(EncodeSlot(s.dest), bytes);
  }

  /** All but the slot and the last byte come back. */
  lemma EncodedAgain(bytes: seq<byte>, s: Streamer)
    requires DecodeStreamer(bytes) == Ok(s)
    ensures EncodeStreamer(s) == Ok(EncodeSlot(s.dest) + bytes[8..10] + [bytes[10], bytes[11], bytes[12], 0])
  {
    Powers256();
    LittleOfNumber(bytes[8..10]);
    SelectorCodes(Number(bytes[8..10]));
    CodeOfTriggering(bytes[10]);
  }

  lemma SameParts(slot: seq<byte>, bytes: seq<byte>)
    requires |slot| == 8 && |bytes| == 14
    ensures slot + bytes[8..10] + [bytes[10], bytes[11], bytes[12], 0] == bytes <==>
            slot == bytes[0..8] && bytes[13] == 0
  {
    var again := slot + bytes[8..10] + [bytes[10], bytes[11], bytes[12], 0];
    assert bytes == bytes[0..8] + bytes[8..10] + [bytes[10], bytes[11], bytes[12], bytes[13]];
    assert again[0..8] == slot && again[13] == 0;
  }
}
