/** Data streams and the selectors that match them. */
module Streams {

  datatype Option<+T> = None | Some(value: T)

  const BUFFERED := 0
  const UNBUFFERED := 1
  const INPUT := 3
  const OUTPUT := 5

  const DEVICE_REBOOT := 1024 // the only stream id that every user wildcard also matches

  datatype DataStream = DataStream(kind: nat, id: nat, system: bool) {
    predicate Buffered() { kind == BUFFERED || kind == OUTPUT }
    predicate Output() { kind == OUTPUT }

    /** The stream fits the fields of its 16-bit code: 4 bits of type, 11 bits of id. */
    predicate Encodable() { kind < 16 && id < 2048 }

    /** The packed code: type, system flag and id combined with bitwise or. */
    function Encode(): nat { Or(Or(kind * 4096, if system then 2048 else 0), id) }
  }

  function Decode(code: nat): DataStream {
    DataStream(code / 4096 % 16, code % 2048, code / 2048 % 2 == 1)
  }

  /** Bitwise or. */
  function Or(a: nat, b: nat): nat {
    if a == 0 then b
    else if b == 0 then a
    else 2 * Or(a / 2, b / 2) + (if a % 2 == 1 || b % 2 == 1 then 1 else 0)
  }

  /** Numbers without a common bit are combined by adding them: a is a multiple of m and
      b is below m, for a power of two m given by its exponent. */
  lemma {:induction false} OrAdds(a: nat, b: nat, n: nat)
    requires b < Pow2(n)
    ensures Or(a * Pow2(n), b) == a * Pow2(n) + b
  {
    if n > 0 && a > 0 && b > 0 {
      var p := Pow2(n - 1);
      assert a * Pow2(n) == 2 * (a * p);
      OrAdds(a, b / 2, n - 1);
      assert a * p > 0;
    }
  }

  function Pow2(n: nat): (p: nat)
    ensures p > 0
  {
    if n == 0 then 1 else 2 * Pow2(n - 1)
  }

  lemma Powers()
    ensures Pow2(11) == 2048 && Pow2(12) == 4096
  {
    assert Pow2(4) == 16;
    assert Pow2(8) == 256;
  }

  lemma EncodedValue(s: DataStream)
    requires s.id < 2048
    ensures s.Encode() == s.kind * 4096 + (if s.system then 2048 else 0) + s.id
  {
    Packed(s.kind, if s.system then 1 else 0, s.id);
  }

  lemma Packed(k: nat, f: nat, i: nat)
    requires f < 2 && i < 2048
    ensures Or(Or(k * 4096, f * 2048), i) == k * 4096 + f * 2048 + i
  {
    Powers();
    OrAdds(k, f * 2048, 12);
    OrAdds(k * 2 + f, i, 11);
    assert k * 4096 + f * 2048 == (k * 2 + f) * 2048;
  }

  lemma CodeParts(code: nat)
    requires code < 65536
    ensures code == (code / 4096 % 16) * 4096 + (code / 2048 % 2) * 2048 + code % 2048
  {
    var q := code / 2048;
    assert code == 2048 * q + code % 2048 && q == 2 * (code / 4096) + q % 2;
  }

  lemma Fields(k: nat, f: nat, i: nat)
    requires k < 16 && f < 2 && i < 2048
    ensures var c := k * 4096 + f * 2048 + i;
            c < 65536 && c / 4096 == k && c / 2048 == 2 * k + f && c % 2048 == i
  {
  }

  /** A stream that fits its code is decoded to itself. */
  lemma DecodeEncode(s: DataStream)
    requires s.Encodable()
    ensures Decode(s.Encode()) == s && s.Encode() < 65536
  {
    var f := if s.system then 1 else 0;
    var code := s.kind * 4096 + f * 2048 + s.id;
    Fields(s.kind, f, s.id);
    DecodedAs(s, f, code);
    EncodedAs(s, code);
  }

  lemma DecodedAs(s: DataStream, f: nat, code: nat)
    requires s.Encodable() && f == if s.system then 1 else 0
    requires code < 65536 && code / 4096 == s.kind && code / 2048 == 2 * s.kind + f && code % 2048 == s.id
    ensures Decode(code) == s
  {
  }

  /** Every 16-bit code is the code of the stream it is decoded to. */
  lemma EncodeDecode(code: nat)
    requires code < 65536
    ensures Decode(code).Encode() == code && Decode(code).Encodable()
  {
    CodeParts(code);
    EncodedAs(Decode(code), code);
  }

  lemma EncodedAs(s: DataStream, code: nat)
    requires s.id < 2048 && code == s.kind * 4096 + (if s.system then 1 else 0) * 2048 + s.id
    ensures s.Encode() == code
  {
    EncodedValue(s);
  }

  datatype Specifier = SystemOnly | Combined | UserOnly | UserAndBreaks

  datatype Selector = Selector(kind: nat, id: Option<nat>, spec: Specifier) {
    predicate Input() { kind == INPUT }
    predicate Buffered() { kind == BUFFERED || kind == OUTPUT }
    predicate Output() { kind == OUTPUT }

    predicate Matches(s: DataStream) {
      if kind != s.kind then false
      else if id.Some? then id.value == s.id
      else match spec
        case UserOnly => !s.system
        case SystemOnly => s.system
        case UserAndBreaks => !s.system || s.id == DEVICE_REBOOT
        case Combined => true
    }
  }
}
