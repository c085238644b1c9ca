/** The 16-bit codes of selectors, and numbers as little-endian bytes. */
module Codes {
  import opened Bytes
  import opened Streams

  // ----- Bitwise or ----------------------------------------------------------------------

  lemma {:induction false} OrCommutes(a: nat, b: nat)
    ensures Or(a, b) == Or(b, a)
  {
    if a > 0 && b > 0 { OrCommutes(a / 2, b / 2); }
  }

  lemma OrDoubles(a: nat, b: nat)
    ensures Or(2 * a, 2 * b) == 2 * Or(a, b)
  {
    assert 2 * a / 2 == a && 2 * b / 2 == b;
  }

  lemma TwiceTimes(a: nat, p: nat)
    ensures a * (2 * p) == 2 * (a * p)
  {
  }

  function Shifted(a: nat, n: nat): nat { if n == 0 then a else 2 * Shifted(a, n - 1) }

  lemma {:induction false} ShiftedIsTimes(a: nat, n: nat)
    ensures Shifted(a, n) == a * Pow2(n)
  {
    if n > 0 {
      ShiftedIsTimes(a, n - 1);
      TwiceTimes(a, Pow2(n - 1));
    }
  }

  lemma {:induction false} OrShifts(a: nat, b: nat, n: nat)
    ensures Or(Shifted(a, n), Shifted(b, n)) == Shifted(Or(a, b), n)
  {
    if n > 0 {
      OrShifts(a, b, n - 1);
      OrDoubles(Shifted(a, n - 1), Shifted(b, n - 1));
    }
  }

  lemma OrScales(a: nat, b: nat, n: nat)
    ensures Or(a * Pow2(n), b * Pow2(n)) == Or(a, b) * Pow2(n)
  {
    OrShifts(a, b, n);
    ShiftedIsTimes(a, n);
    ShiftedIsTimes(b, n);
    ShiftedIsTimes(Or(a, b), n);
  }

  lemma OrLow(k: nat)
    ensures Or(2 * k, 1) == 2 * k + 1
  {
    OrAdds(k, 1, 1);
    assert Pow2(1) == 2;
  }

  lemma OrHigh(k: nat)
    requires k < 16
    ensures Or(k, 16) == k + 16
  {
    assert Pow2(4) == 16;
    OrAdds(1, k, 4);
    OrCommutes(k, 16);
  }

  lemma OrDoubled(a: nat, b: nat, c: nat)
    requires Or(a, b) == c
    ensures Or(2 * a, 2 * b + 1) == 2 * c + 1
  {
    assert 2 * a / 2 == a && (2 * b + 1) / 2 == b;
  }

  /** The type and the two specifier flags share no bit. */
  lemma KindAndFlags(k: nat)
    requires k < 8
    ensures Or(2 * k, 0) == 2 * k && Or(2 * k, 1) == 2 * k + 1
    ensures Or(2 * k, 16) == 2 * k + 16 && Or(2 * k, 17) == 2 * k + 17
  {
    OrLow(k);
    OrHigh(2 * k);
    assert Pow2(3) == 8;
    OrAdds(1, k, 3);
    OrCommutes(k, 8);
    OrDoubled(k, 8, k + 8);
  }

  // ----- Selectors --------------------------------------------------------------------------

  const MATCH_ALL: nat := 2047

  function SpecCode(spec: Specifier): nat {
    match spec
    case SystemOnly => 2048
    case UserOnly => 0
    case UserAndBreaks => 32768
    case Combined => 32768 + 2048
  }

  function EncodeSelector(s: Selector): nat {
    Or(Or(s.kind * 4096, SpecCode(s.spec)), if s.id.Some? then s.id.value else MATCH_ALL)
  }

  function DecodeSelector(code: nat): Selector {
    var system, breaks := code / 2048 % 2 == 1, code / 32768 % 2 == 1;
    Selector(code / 4096 % 8,
      if code % 2048 == MATCH_ALL then None else Some(code % 2048),
      if system && breaks then Combined else if system then SystemOnly else if breaks then UserAndBreaks else UserOnly)
  }

  lemma Flagged(k: nat, flags: nat)
    requires k < 8 && flags in {0, 1, 16, 17}
    ensures Or(k * 4096, flags * 2048) == (2 * k + flags) * 2048
  {
    Powers();
    KindAndFlags(k);
    OrScales(2 * k, flags, 11);
    assert k * 4096 == 2 * k * 2048;
  }

  lemma PartsAdd(k: nat, flags: nat, id: nat)
    requires k < 8 && flags in {0, 1, 16, 17} && id < 2048
    ensures Or(Or(k * 4096, flags * 2048), id) == k * 4096 + flags * 2048 + id
  {
    Flagged(k, flags);
    Powers();
    OrAdds(2 * k + flags, id, 11);
  }

  function Flags(spec: Specifier): nat {
    match spec
    case SystemOnly => 1
    case UserOnly => 0
    case UserAndBreaks => 16
    case Combined => 17
  }

  lemma SelectorCode(s: Selector)
    requires s.kind < 8 && (s.id.Some? ==> s.id.value < 2048)
    ensures SpecCode(s.spec) == Flags(s.spec) * 2048
    ensures EncodeSelector(s) == s.kind * 4096 + SpecCode(s.spec) + if s.id.Some? then s.id.value else MATCH_ALL
  {
    PartsAdd(s.kind, Flags(s.spec), if s.id.Some? then s.id.value else MATCH_ALL);
  }

  lemma DecodedCode(s: Selector, code: nat)
    requires s.kind < 8 && (s.id.Some? ==> s.id.value < 2048)
    requires code == s.kind * 4096 + SpecCode(s.spec) + if s.id.Some? then s.id.value else MATCH_ALL
    ensures code < 65536 && DecodeSelector(code) == if s.id == Some(MATCH_ALL) then s.(id := None) else s
  {
    DecodedParts(s.kind, s.spec, if s.id.Some? then s.id.value else MATCH_ALL, code);
  }

  lemma SelectorDecodes(s: Selector)
    requires s.kind < 8 && (s.id.Some? ==> s.id.value < 2048)
    ensures EncodeSelector(s) < 65536
    ensures DecodeSelector(EncodeSelector(s)) == if s.id == Some(MATCH_ALL) then s.(id := None) else s
  {
    SelectorCode(s);
    DecodedCode(s, EncodeSelector(s));
  }

  lemma DecodedShape(code: nat)
    ensures DecodeSelector(code).kind < 8
    ensures DecodeSelector(code).id.Some? ==> DecodeSelector(code).id.value < MATCH_ALL
  {
  }

  /** The code of a selector is decoded to it exactly when its type fits three bits and its
      id, if it has one, is neither too big nor the code for all ids. */
  lemma SelectorRoundTrip(s: Selector)
    ensures DecodeSelector(EncodeSelector(s)) == s <==> s.kind < 8 && (s.id.Some? ==> s.id.value < MATCH_ALL)
  {
    var fits := s.kind < 8 && (s.id.Some? ==> s.id.value < MATCH_ALL);
    DecodedShape(EncodeSelector(s));
    if fits { SelectorDecodes(s); }
  }

  lemma DecodedParts(k: nat, spec: Specifier, i: nat, code: nat)
    requires k < 8 && i < 2048 && code == k * 4096 + SpecCode(spec) + i
    ensures code < 65536 && DecodeSelector(code) == Selector(k, if i == MATCH_ALL then None else Some(i), spec)
  {
    var b, f := Flags(spec) / 16, Flags(spec) % 2;
    assert SpecCode(spec) == b * 32768 + f * 2048;
    SelectorFields(k, b, f, i, code);
  }

  lemma SelectorFields(k: nat, b: nat, f: nat, i: nat, code: nat)
    requires k < 8 && b < 2 && f < 2 && i < 2048 && code == k * 4096 + b * 32768 + f * 2048 + i
    ensures code < 65536 && code / 4096 % 8 == k && code / 32768 == b && code / 2048 % 2 == f && code % 2048 == i
  {
    assert code / 2048 == 2 * k + 16 * b + f;
    assert code / 4096 == k + 8 * b;
  }

  lemma CodeFields(code: nat)
    requires code < 65536
    ensures code == (code / 4096 % 8) * 4096 + (code / 32768 % 2) * 32768 + (code / 2048 % 2) * 2048 + code % 2048
  {
    var q := code / 2048;
    var h := code / 4096;
    assert code == 2048 * q + code % 2048 && q == 2 * h + q % 2 && h == 8 * (code / 32768) + h % 8;
  }

  /** Every 16-bit code is the code of the selector it is decoded to. */
  lemma SelectorCodes(code: nat)
    requires code < 65536
    ensures EncodeSelector(DecodeSelector(code)) == code
  {
    var s := DecodeSelector(code);
    SelectorCode(s);
    CodeFields(code);
    assert SpecCode(s.spec) == (code / 32768 % 2) * 32768 + (code / 2048 % 2) * 2048;
  }

  /** The code that means "no second input" is that of one selector only, of a type that no
      stream has. */
  lemma NoSelectorIsMissing(s: Selector)
    requires s.kind < 8 && (s.id.Some? ==> s.id.value < 2048)
    ensures EncodeSelector(s) == 0xFFFF <==> s.kind == 7 && s.spec == Combined && s.id in {None, Some(MATCH_ALL)}
  {
    SelectorCode(s);
  }

  // ----- Little-endian numbers ------------------------------------------------------------------

  function Pow256(k: nat): (p: nat)
    ensures p > 0
  {
    if k == 0 then 1 else 256 * Pow256(k - 1)
  }

  function Little(n: nat, k: nat): (s: seq<byte>)
    ensures |s| == k
  {
    if k == 0 then [] else [n % 256] + Little(n / 256, k - 1)
  }

  function Number(s: seq<byte>): nat {
    if s == [] then 0
    else
      var low: nat := s[0];
      low + 256 * Number(s[1..])
  }

  lemma {:induction false} NumberOfLittle(n: nat, k: nat)
    requires n < Pow256(k)
    ensures Number(Little(n, k)) == n
  {
    if k > 0 {
      NumberOfLittle(n / 256, k - 1);
      assert Little(n, k)[1..] == Little(n / 256, k - 1);
    }
  }

  lemma {:induction false} LittleOfNumber(s: seq<byte>)
    ensures Little(Number(s), |s|) == s && Number(s) < Pow256(|s|)
  {
    if s != [] {
      LittleOfNumber(s[1..]);
      var low: nat := s[0];
      assert Number(s) / 256 == Number(s[1..]) && Number(s) % 256 == low;
      assert s == [s[0]] + s[1..];
    }
  }

  lemma Powers256()
    ensures Pow256(1) == 256 && Pow256(2) == 65536 && Pow256(4) == 0x1_0000_0000
  {
    assert Pow256(3) == 256 * 65536;
  }
}
