/** Streams and selectors as text. */
module StreamText {
  import opened Streams

  // ----- Words -----------------------------------------------------------------------------

  predicate Space(c: char) { c in {' ', '\t', '\n', '\r'} }

  predicate Word(w: string) { w != "" && forall i | 0 <= i < |w| :: !Space(w[i]) }

  function WordLength(s: string): (k: nat)
    ensures k <= |s| && forall i | 0 <= i < k :: !Space(s[i])
    ensures k < |s| ==> Space(s[k])
  {
    if s == "" || Space(s[0]) then 0
    else
      var k := WordLength(s[1..]);
      assert forall i | 1 <= i < k + 1 :: s[i] == s[1..][i - 1];
      k + 1
  }

  /** The words between white space. */
  function Split(s: string): seq<string>
    decreases |s|
  {
    if s == "" then []
    else if Space(s[0]) then Split(s[1..])
    else [s[..WordLength(s)]] + Split(s[WordLength(s)..])
  }

  function Join(words: seq<string>): string {
    if words == [] then "" else if |words| == 1 then words[0] else words[0] + " " + Join(words[1..])
  }

  lemma WordEnds(w: string, rest: string)
    requires Word(w) && (rest == "" || Space(rest[0]))
    ensures WordLength(w + rest) == |w|
  {
    var s := w + rest;
    assert forall i | 0 <= i < |w| :: s[i] == w[i];
    assert rest != "" ==> s[|w|] == rest[0];
  }

  lemma SplitFirst(w: string, rest: string)
    requires Word(w) && (rest == "" || Space(rest[0]))
    ensures Split(w + rest) == [w] + Split(rest)
  {
    var s := w + rest;
    WordEnds(w, rest);
    assert s[0] == w[0] && s[..|w|] == w && s[|w|..] == rest;
  }

  /** Words joined by spaces are split into the same words. */
  lemma {:induction false} SplitJoin(words: seq<string>)
    requires forall i | 0 <= i < |words| :: Word(words[i])
    ensures Split(Join(words)) == words
  {
    if words == [] {
    } else if |words| == 1 {
      assert words[0] + "" == words[0];
      SplitFirst(words[0], "");
    } else {
      var tail := Join(words[1..]);
      SplitJoin(words[1..]);
      assert words[0] + " " + tail == words[0] + (" " + tail);
      SplitFirst(words[0], " " + tail);
      assert (" " + tail)[1..] == tail;
      assert words == [words[0]] + words[1..];
    }
  }

  // ----- Numbers --------------------------------------------------------------------------------

  predicate Digit(c: char) { '0' <= c <= '9' }

  function DigitOf(d: nat): (c: char)
    requires d < 10
    ensures Digit(c) && (c == '0' <==> d == 0)
  {
    '0' + d as char
  }

  function Decimal(n: nat): (s: string)
    ensures s != "" && forall i | 0 <= i < |s| :: Digit(s[i])
    ensures s[0] == '0' ==> n == 0 && s == "0"
  {
    if n < 10 then [DigitOf(n)] else Decimal(n / 10) + [DigitOf(n % 10)]
  }

  function DigitsValue(s: string): nat
    requires forall i | 0 <= i < |s| :: Digit(s[i])
  {
    if s == "" then 0
    else
      var last := s[|s| - 1];
      assert Digit(last);
      10 * DigitsValue(s[..|s| - 1]) + (last as nat - '0' as nat)
  }

  /** A decimal number; leading zeros are only allowed for zero. */
  function ParseNumber(s: string): Option<nat> {
    if s == "" || exists i | 0 <= i < |s| :: !Digit(s[i]) then None
    else if s[0] == '0' && exists i | 0 <= i < |s| :: s[i] != '0' then None
    else Some(DigitsValue(s))
  }

  lemma {:induction false} ParseDecimal(n: nat)
    ensures DigitsValue(Decimal(n)) == n && ParseNumber(Decimal(n)) == Some(n)
  {
    var s := Decimal(n);
    if n >= 10 {
      ParseDecimal(n / 10);
      assert s[..|s| - 1] == Decimal(n / 10);
    } else {
      assert s[..0] == "";
    }
  }

  // ----- Type names --------------------------------------------------------------------------------

  function TypeName(kind: nat): string
    requires kind < 6
  {
    match kind
    case 0 => "buffered"
    case 1 => "unbuffered"
    case 2 => "constant"
    case 3 => "input"
    case 4 => "counter"
    case _ => "output"
  }

  function TypeNamed(name: string): (kind: Option<nat>)
    ensures kind.Some? ==> kind.value < 6 && TypeName(kind.value) == name
  {
    if name == "buffered" then Some(0)
    else if name == "unbuffered" then Some(1)
    else if name == "constant" then Some(2)
    else if name == "input" then Some(3)
    else if name == "counter" then Some(4)
    else if name == "output" then Some(5)
    else None
  }

  function SpecifierName(spec: Specifier): string {
    match spec
    case SystemOnly => "system"
    case Combined => "combined"
    case UserOnly => "user"
    case UserAndBreaks => ""
  }

  function SpecifierNamed(name: string): Option<Specifier> {
    if name == "system" then Some(SystemOnly)
    else if name == "combined" then Some(Combined)
    else if name == "user" then Some(UserOnly)
    else if name == "" then Some(UserAndBreaks)
    else None
  }

  // ----- Streams -------------------------------------------------------------------------------------

  function PrintStream(s: DataStream): string
    requires s.kind < 6
  {
    if s.system then "system " + TypeName(s.kind) + " " + Decimal(s.id) else TypeName(s.kind) + " " + Decimal(s.id)
  }

  function ParseWords(system: bool, name: string, number: string): Option<DataStream> {
    if ParseNumber(number).None? || TypeNamed(name).None? then None
    else Some(DataStream(TypeNamed(name).value, ParseNumber(number).value, system))
  }

  function ParseStream(text: string): Option<DataStream> {
    var parts := Split(text);
    if |parts| > 3 || |parts| < 2 || (|parts| == 3 && parts[0] != "system") then None
    else if |parts| == 3 then ParseWords(true, parts[1], parts[2])
    else ParseWords(false, parts[0], parts[1])
  }

  function StreamWords(s: DataStream): seq<string>
    requires s.kind < 6
  {
    (if s.system then ["system"] else []) + [TypeName(s.kind), Decimal(s.id)]
  }

  lemma TypeWords(kind: nat)
    requires kind < 6
    ensures Word(TypeName(kind)) && Word(TypeName(kind) + "s")
    ensures TypeNamed(TypeName(kind)) == Some(kind)
  {
  }

  lemma JoinTwo(a: string, b: string)
    ensures Join([a, b]) == a + " " + b
  {
    assert [a, b][1..] == [b];
  }

  lemma JoinThree(a: string, b: string, c: string)
    ensures Join([a, b, c]) == a + " " + b + " " + c
  {
    assert [a, b, c][1..] == [b, c];
    JoinTwo(b, c);
    assert a + " " + (b + " " + c) == a + " " + b + " " + c;
  }

  lemma PrintedWords(s: DataStream)
    requires s.kind < 6
    ensures Split(PrintStream(s)) == StreamWords(s)
  {
    TypeWords(s.kind);
    JoinTwo(TypeName(s.kind), Decimal(s.id));
    JoinThree("system", TypeName(s.kind), Decimal(s.id));
    assert "system" + " " == "system ";
    SplitJoin(StreamWords(s));
  }

  /** A stream is parsed back from its text, whatever its id. */
  lemma StreamRoundTrip(s: DataStream)
    requires s.kind < 6
    ensures ParseStream(PrintStream(s)) == Some(s)
  {
    PrintedWords(s);
    TypeWords(s.kind);
    ParseDecimal(s.id);
  }

  // ----- Selectors --------------------------------------------------------------------------------------

  /** The type's name in the plural; "buffered" has none. */
  function PluralName(kind: nat): string
    requires kind < 6
  {
    if kind == BUFFERED then TypeName(kind) else TypeName(kind) + "s"
  }

  function PrintSelector(s: Selector): string
    requires s.kind < 6
  {
    if s.id.Some? then PrintStream(DataStream(s.kind, s.id.value, s.spec == SystemOnly))
    else
      var spec := SpecifierName(s.spec);
      "all " + (if spec != "" then spec + " " else "") + PluralName(s.kind)
  }

  /** The text without any occurrence of a word, looked for from left to right. */
  function Without(text: string, word: string): string
    requires word != ""
    decreases |text|
  {
    if |text| < |word| then text
    else if text[..|word|] == word then Without(text[|word|..], word)
    else [text[0]] + Without(text[1..], word)
  }

  function Singular(name: string): string {
    if name != "" && name[|name| - 1] == 's' then name[..|name| - 1] else name
  }

  function ParseWildcard(spec: string, name: string): Option<Selector> {
    var kind := TypeNamed(Singular(name));
    if kind.None? || SpecifierNamed(spec).None? then None
    else Some(Selector(kind.value, None, SpecifierNamed(spec).value))
  }

  function ParseSelector(text: string): Option<Selector> {
    var rep := Without(Without(text, "node"), "nodes");
    if "all" <= rep then
      var parts := Split(rep);
      if |parts| == 3 then ParseWildcard(parts[1], parts[2])
      else if |parts| == 2 then ParseWildcard("", parts[1])
      else None
    else
      var stream := ParseStream(rep);
      if stream.None? then None
      else
        var spec := if stream.value.system then SystemOnly else UserOnly;
        Some(Selector(stream.value.kind, Some(stream.value.id), spec))
  }

  // ----- No text that is printed has "node" in it -----------------------------------------------------

  /** No n is followed by an o, not even after the text. */
  ghost predicate NoNo(s: string) {
    && (forall i, j | 0 <= i && j == i + 1 && j < |s| :: !(s[i] == 'n' && s[j] == 'o'))
    && (s != "" ==> s[|s| - 1] != 'n')
  }

  lemma NoNoSum(a: string, b: string)
    requires NoNo(a) && NoNo(b)
    ensures NoNo(a + b)
  {
  }

  lemma {:induction false} NothingToRemove(text: string, word: string)
    requires NoNo(text) && |word| >= 2 && word[0] == 'n' && word[1] == 'o'
    ensures Without(text, word) == text
    decreases |text|
  {
    if |text| >= |word| {
      var front := text[..|word|];
      assert front[0] == text[0] && front[1] == text[1];
      NothingToRemove(text[1..], word);
    }
  }

  lemma NoNodes(text: string)
    requires NoNo(text)
    ensures Without(Without(text, "node"), "nodes") == text
  {
    NothingToRemove(text, "node");
    NothingToRemove(text, "nodes");
  }

  lemma TypesNoNo(kind: nat)
    requires kind < 6
    ensures NoNo(TypeName(kind)) && NoNo(PluralName(kind))
  {
    NoNoSum(TypeName(kind), "s");
  }

  lemma DecimalNoNo(n: nat)
    ensures NoNo(Decimal(n))
  {
    assert forall i | 0 <= i < |Decimal(n)| :: Digit(Decimal(n)[i]);
  }

  lemma StreamNoNo(s: DataStream)
    requires s.kind < 6
    ensures NoNo(PrintStream(s)) && !("all" <= PrintStream(s))
  {
    var name := TypeName(s.kind);
    TypesNoNo(s.kind);
    DecimalNoNo(s.id);
    NoNoSum(name, " ");
    NoNoSum(name + " ", Decimal(s.id));
    NoNoSum("system ", name);
    NoNoSum("system " + name, " ");
    NoNoSum("system " + name + " ", Decimal(s.id));
    assert PrintStream(s)[0] == if s.system then 's' else name[0];
  }

  lemma WildcardNoNo(s: Selector)
    requires s.kind < 6 && s.id.None?
    ensures NoNo(PrintSelector(s)) && "all" <= PrintSelector(s)
  {
    var spec, name := SpecifierName(s.spec), PluralName(s.kind);
    TypesNoNo(s.kind);
    NoNoSum(spec, " ");
    NoNoSum("all ", spec + " ");
    NoNoSum("all " + (spec + " "), name);
    NoNoSum("all ", name);
    assert "all " + "" == "all ";
    assert PrintSelector(s)[..4] == "all ";
  }

  lemma WildcardWords(s: Selector)
    requires s.kind < 6 && s.id.None?
    ensures Split(PrintSelector(s)) ==
            if s.spec == UserAndBreaks then ["all", PluralName(s.kind)]
            else ["all", SpecifierName(s.spec), PluralName(s.kind)]
  {
    var spec, name := SpecifierName(s.spec), PluralName(s.kind);
    TypeWords(s.kind);
    JoinTwo("all", name);
    JoinThree("all", spec, name);
    assert "all" + " " == "all " && "all " + "" == "all ";
    assert "all " + (spec + " ") == "all" + " " + spec + " ";
    if s.spec == UserAndBreaks { SplitJoin(["all", name]); } else { SplitJoin(["all", spec, name]); }
  }

  lemma SingularPlural(kind: nat)
    requires kind < 6
    ensures Singular(PluralName(kind)) == TypeName(kind)
  {
  }

  lemma WildcardRoundTrip(s: Selector)
    requires s.kind < 6 && s.id.None?
    ensures ParseSelector(PrintSelector(s)) == Some(s)
  {
    var text := PrintSelector(s);
    WildcardNoNo(s);
    NoNodes(text);
    WildcardWords(s);
    SingularPlural(s.kind);
    TypeWords(s.kind);
  }

  lemma SingularParsed(s: Selector)
    requires s.kind < 6 && s.id.Some?
    ensures ParseSelector(PrintSelector(s)) == Some(s.(spec := if s.spec == SystemOnly then SystemOnly else UserOnly))
  {
    var stream := DataStream(s.kind, s.id.value, s.spec == SystemOnly);
    StreamNoNo(stream);
    NoNodes(PrintStream(stream));
    StreamRoundTrip(stream);
  }

  /** A selector is parsed back from its text exactly when it is a wildcard, or selects one
      stream as a system or a user one; the text of a single stream cannot say more. */
  lemma SelectorRoundTrip(s: Selector)
    requires s.kind < 6
    ensures ParseSelector(PrintSelector(s)) == Some(s) <==> s.id.None? || s.spec in {SystemOnly, UserOnly}
  {
    if s.id.None? { WildcardRoundTrip(s); } else { SingularParsed(s); }
  }
}
