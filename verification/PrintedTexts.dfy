/** What streams, selectors and nodes look like when they are printed, and what parsing removes. */
module PrintedTexts {
  import opened Basics
  import opened Streams
  import opened StreamText

  // ----- Names --------------------------------------------------------------------------------

  const NAMES: seq<string> := ["buffered", "unbuffered", "constant", "input", "counter", "output"]

  const PLURALS: seq<string> := ["buffered", "unbuffereds", "constants", "inputs", "counters", "outputs"]

  /** The names of the stream types, and of those that have constants. */
  lemma TypesByName(kind: nat)
    requires kind < 6
    ensures TypeName(kind) == NAMES[kind] && PluralName(kind) == PLURALS[kind]
    ensures TypeNamed(NAMES[kind]) == Some(kind)
    ensures NAMES[BUFFERED] == "buffered" && NAMES[UNBUFFERED] == "unbuffered"
    ensures NAMES[INPUT] == "input" && NAMES[OUTPUT] == "output"
  {
    assert "unbuffered" + "s" == "unbuffereds" && "constant" + "s" == "constants" && "input" + "s" == "inputs";
    assert "counter" + "s" == "counters" && "output" + "s" == "outputs";
  }

  lemma OtherNames(name: string)
    requires name !in NAMES
    ensures TypeNamed(name) == None
  {
    assert NAMES[0] == "buffered" && NAMES[1] == "unbuffered" && NAMES[2] == "constant";
    assert NAMES[3] == "input" && NAMES[4] == "counter" && NAMES[5] == "output";
  }

  // ----- Printed forms -------------------------------------------------------------------------

  lemma PrintedStreams(s: DataStream)
    requires s.kind < 6
    ensures PrintStream(s) == if s.system then "system " + NAMES[s.kind] + " " + Decimal(s.id)
                              else NAMES[s.kind] + " " + Decimal(s.id)
  {
    TypesByName(s.kind);
  }

  /** A single stream is printed as such, and as a system one for that specifier only; all streams of a
      type with the specifier's name, if it has one, and the plural of the type. */
  lemma PrintedSelectors(s: Selector)
    requires s.kind < 6
    ensures PrintSelector(s) ==
            if s.id.Some?
            then (if s.spec == SystemOnly then "system " else "") + NAMES[s.kind] + " " + Decimal(s.id.value)
            else
              match s.spec
              case SystemOnly => "all system " + PLURALS[s.kind]
              case UserOnly => "all user " + PLURALS[s.kind]
              case Combined => "all combined " + PLURALS[s.kind]
              case UserAndBreaks => "all " + PLURALS[s.kind]
  {
    TypesByName(s.kind);
    var p := PLURALS[s.kind];
    if s.id.Some? {
      PrintedStreams(DataStream(s.kind, s.id.value, s.spec == SystemOnly));
      assert "" + NAMES[s.kind] == NAMES[s.kind];
    } else {
      assert "all " + ("system" + " ") == "all system " && "all " + ("user" + " ") == "all user ";
      assert "all " + ("combined" + " ") == "all combined " && "all " + "" == "all ";
    }
  }

  // ----- Removing words ------------------------------------------------------------------------

  /** The word begins at position i. */
  predicate WordAt(text: string, word: string, i: nat) { i + |word| <= |text| && text[i..i + |word|] == word }

  lemma WordLater(text: string, word: string, i: nat)
    requires text != ""
    ensures WordAt(text[1..], word, i) <==> WordAt(text, word, i + 1)
  {
    if i + |word| <= |text[1..]| { assert text[1..][i..i + |word|] == text[i + 1..i + 1 + |word|]; }
  }

  lemma WordNow(text: string, word: string)
    requires word != "" && text != ""
    ensures Without(text, word) ==
            if WordAt(text, word, 0) then Without(text[|word|..], word) else [text[0]] + Without(text[1..], word)
  {
    if |word| <= |text| {
      assert text[0..|word|] == text[..|word|];
    } else {
      assert |text[1..]| < |word| && text == [text[0]] + text[1..];
    }
  }

  lemma {:induction false} NotThere(text: string, word: string)
    requires word != "" && forall i | 0 <= i < |text| :: !WordAt(text, word, i)
    ensures Without(text, word) == text
  {
    if text != "" {
      WordNow(text, word);
      forall i | 0 <= i < |text[1..]| ensures !WordAt(text[1..], word, i) { WordLater(text, word, i); }
      NotThere(text[1..], word);
      assert text == [text[0]] + text[1..];
    }
  }

  /** The first time that the word is there it is left out, and what follows is searched again. */
  lemma {:induction false} FirstTimeThere(text: string, word: string, k: nat, rest: string)
    requires word != "" && WordAt(text, word, k) && forall i | 0 <= i < k :: !WordAt(text, word, i)
    requires rest == text[k + |word|..]
    ensures Without(text, word) == text[..k] + Without(rest, word)
  {
    WordNow(text, word);
    if k == 0 {
      assert text[..0] + Without(rest, word) == Without(rest, word);
    } else {
      forall i | 0 <= i < k - 1 ensures !WordAt(text[1..], word, i) { WordLater(text, word, i); }
      WordLater(text, word, k - 1);
      BackOne(text, k, |word|, Without(rest, word));
      FirstTimeThere(text[1..], word, k - 1, rest);
    }
  }

  lemma BackOne(text: string, k: nat, n: nat, rest: string)
    requires 0 < k && k + n <= |text|
    ensures text[1..][k - 1 + n..] == text[k + n..]
    ensures [text[0]] + (text[1..][..k - 1] + rest) == text[..k] + rest
  {
  }

  // ----- Reading -------------------------------------------------------------------------------

  const WHITE: string := " \t\n\r"

  /** Any white space separates words, and nothing else does. */
  lemma {:induction false} WhiteSpaceSeparates(a: string, c: char, b: string)
    requires c in WHITE
    ensures Split(a + [c] + b) == Split(a) + Split(b)
    decreases |a|
  {
    var s := a + [c] + b;
    if a == "" {
      assert s[0] == c && s[1..] == b;
    } else if Space(a[0]) {
      WhiteSpaceSeparates(a[1..], c, b);
      assert s[0] == a[0] && s[1..] == a[1..] + [c] + b;
    } else {
      var k := WordLength(a);
      WhiteSpaceSeparates(a[k..], c, b);
      assert a == a[..k] + a[k..];
      WordBefore(a[..k], a[k..], c, b);
    }
  }

  lemma WordBefore(w: string, rest: string, c: char, b: string)
    requires Word(w) && c in WHITE && (rest == "" || Space(rest[0]))
    requires Split(rest + [c] + b) == Split(rest) + Split(b)
    ensures Split(w + rest + [c] + b) == Split(w + rest) + Split(b)
  {
    var tail := rest + [c] + b;
    Associative(w, rest, [c]);
    Associative(w, rest + [c], b);
    assert tail[0] == if rest == "" then c else rest[0];
    SplitFirst(w, tail);
    SplitFirst(w, rest);
    Associative([w], Split(rest), Split(b));
  }

  lemma OneWord(w: string)
    requires w != "" && forall i | 0 <= i < |w| :: w[i] !in WHITE
    ensures Split(w) == [w]
  {
    assert Word(w) && w + "" == w;
    SplitFirst(w, "");
  }

  predicate Reads(number: string, n: nat) {
    number == Decimal(n) || (n == 0 && number != "" && forall i | 0 <= i < |number| :: number[i] == '0')
  }

  /** A number is read from its decimal digits only, and zero from any number of zeros. */
  lemma NumbersRead(number: string, n: nat)
    ensures ParseNumber(number) == Some(n) <==> Reads(number, n)
  {
    ParseDecimal(n);
    if ParseNumber(number).Some? && number[0] != '0' { DecimalOfDigits(number); }
    if number != "" && forall i | 0 <= i < |number| :: number[i] == '0' { ZerosAreZero(number); }
  }

  lemma {:induction false} ZerosAreZero(s: string)
    requires forall i | 0 <= i < |s| :: s[i] == '0'
    ensures DigitsValue(s) == 0
  {
    if s != "" { ZerosAreZero(s[..|s| - 1]); }
  }

  lemma {:induction false} DecimalOfDigits(s: string)
    requires s != "" && s[0] != '0' && forall i | 0 <= i < |s| :: Digit(s[i])
    ensures DigitsValue(s) > 0 && Decimal(DigitsValue(s)) == s
  {
    var front, last := s[..|s| - 1], s[|s| - 1];
    if front == "" {
      assert DigitsValue(front) == 0;
      OneDigit(s);
    } else {
      DecimalOfDigits(front);
      OneDigitMore(front, last, DigitsValue(front));
      assert s == front + [last];
    }
  }

  lemma OneDigit(s: string)
    requires |s| == 1 && Digit(s[0])
    ensures Decimal(s[0] as nat - '0' as nat) == s
  {
  }

  lemma OneDigitMore(front: string, last: char, n: nat)
    requires n > 0 && Decimal(n) == front && Digit(last)
    ensures Decimal(10 * n + (last as nat - '0' as nat)) == front + [last]
  {
  }

  /** Exactly the texts of two words, the name of a type and a number, are read as streams; and with
      the word "system" before them as system streams. */
  lemma StreamsRead(text: string, s: DataStream)
    requires s.kind < 6
    ensures ParseStream(text) == Some(s) <==>
            exists number ::
              && Reads(number, s.id)
              && Split(text) == (if s.system then ["system"] else []) + [NAMES[s.kind], number]
  {
    var words := Split(text);
    TypesByName(s.kind);
    if ParseStream(text) == Some(s) {
      var number := words[|words| - 1];
      NumbersRead(number, s.id);
      assert words == (if s.system then ["system"] else []) + [NAMES[s.kind], number];
    }
    forall number | Reads(number, s.id) ensures ParseNumber(number) == Some(s.id) { NumbersRead(number, s.id); }
  }

  lemma {:induction false} WordsHaveLetters(text: string, i: nat)
    requires i < |Split(text)|
    ensures Split(text)[i] != ""
    decreases |text|
  {
    if Space(text[0]) {
      WordsHaveLetters(text[1..], i);
    } else if i > 0 {
      WordsHaveLetters(text[WordLength(text)..], i - 1);
    }
  }

  lemma SingularNames(name: string, kind: nat)
    requires kind < 6
    ensures Singular(name) == NAMES[kind] <==> name in {NAMES[kind], NAMES[kind] + "s"}
  {
    if Singular(name) == NAMES[kind] && name != NAMES[kind] { assert name == name[..|name| - 1] + "s"; }
  }

  /** The words between "all" and the type's name. */
  function SpecifierWords(spec: Specifier): seq<string> {
    match spec
    case SystemOnly => ["system"]
    case UserOnly => ["user"]
    case Combined => ["combined"]
    case UserAndBreaks => []
  }

  lemma SpecifiersRead(spec: Specifier, word: string)
    requires word != ""
    ensures SpecifierNamed(word) == Some(spec) <==> SpecifierWords(spec) == [word]
    ensures SpecifierNamed("") == Some(spec) <==> SpecifierWords(spec) == []
  {
  }

  predicate NameOf(kind: nat, name: string)
    requires kind < 6
  {
    name in {NAMES[kind], NAMES[kind] + "s"}
  }

  lemma WildcardsRead(spec: string, name: string, sel: Selector)
    requires sel.kind < 6
    ensures ParseWildcard(spec, name) == Some(sel) <==>
            sel.id.None? && NameOf(sel.kind, name) && SpecifierNamed(spec) == Some(sel.spec)
  {
    TypesByName(sel.kind);
    SingularNames(name, sel.kind);
    if TypeNamed(Singular(name)).Some? { TypesByName(TypeNamed(Singular(name)).value); }
  }

  /** Exactly these texts that begin with "all" are read as selectors, once the words "node" and "nodes"
      have been left out: those of two or three words, the last a type's name in the singular or plural. */
  lemma AllRead(text: string, rep: string, sel: Selector)
    requires sel.kind < 6 && rep == Without(Without(text, "node"), "nodes") && "all" <= rep
    ensures ParseSelector(text) == Some(sel) <==>
            && sel.id.None? && 2 <= |Split(rep)| <= 3
            && NameOf(sel.kind, Split(rep)[|Split(rep)| - 1])
            && SpecifierWords(sel.spec) == Split(rep)[1..|Split(rep)| - 1]
  {
    var words := Split(rep);
    if |words| == 3 {
      WordsHaveLetters(rep, 1);
      WildcardsRead(words[1], words[2], sel);
      SpecifiersRead(sel.spec, words[1]);
      assert words[1..2] == [words[1]];
    } else if |words| == 2 {
      WildcardsRead("", words[1], sel);
      SpecifiersRead(sel.spec, "all");
      assert words[1..1] == [];
    }
  }

  /** Other texts are read as those of a single stream. */
  lemma SinglesRead(text: string, rep: string, sel: Selector)
    requires rep == Without(Without(text, "node"), "nodes") && !("all" <= rep)
    ensures ParseSelector(text) == Some(sel) <==>
            && sel.id.Some? && sel.spec in {SystemOnly, UserOnly}
            && ParseStream(rep) == Some(DataStream(sel.kind, sel.id.value, sel.spec == SystemOnly))
  {
  }
}
