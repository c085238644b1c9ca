/** Which readings a selector selects, by their 16-bit codes, and what a walker gets of what is
    pushed. */
module SelectedReadings {
  import opened Basics
  import opened Streams
  import opened ReadingLog
  import opened LogRuns

  // ----- Codes ---------------------------------------------------------------------------------

  /** The type is in the top four bits, the system flag is bit 11, and the id the eleven bits below. */
  predicate Selected(sel: Selector, code: nat) {
    && code / 4096 == sel.kind
    && if sel.id.Some? then code % 2048 == sel.id.value
       else match sel.spec
            case UserOnly => code / 2048 % 2 == 0
            case SystemOnly => code / 2048 % 2 == 1
            case Combined => true
            case UserAndBreaks => code / 2048 % 2 == 0 || code % 2048 == 1024
  }

  /** A single stream is selected by type and id whatever the specifier says; of a type all user
      streams, all system streams, all, or all user streams and the one that marks reboots. */
  lemma SelectedCodes(sel: Selector, code: nat)
    requires code < 65536
    ensures sel.Matches(Decode(code)) <==> Selected(sel, code)
  {
  }

  lemma SelectedStreams(sel: Selector, s: DataStream)
    requires s.Encodable()
    ensures sel.Matches(s) <==> Selected(sel, s.Encode())
  {
    DecodeEncode(s);
    SelectedCodes(sel, s.Encode());
  }

  /** Buffered and output are the stream types 0 and 5, and 3 is that of inputs. */
  lemma TypesByCode(s: DataStream, sel: Selector)
    requires s.Encodable()
    ensures s.Buffered() <==> s.Encode() / 4096 == 0 || s.Encode() / 4096 == 5
    ensures s.Output() <==> s.Encode() / 4096 == 5
    ensures (sel.Buffered() <==> sel.kind == 0 || sel.kind == 5) && (sel.Output() <==> sel.kind == 5)
    ensures sel.Input() <==> sel.kind == 3
  {
    var f := if s.system then 1 else 0;
    Fields(s.kind, f, s.id);
    EncodedAs(s, s.kind * 4096 + f * 2048 + s.id);
  }

  // ----- Readings -------------------------------------------------------------------------------

  /** The readings with selected codes, in order. */
  function Chosen(sel: Selector, data: seq<Reading>): seq<Reading> {
    if data == [] then []
    else
      var r := data[|data| - 1];
      Chosen(sel, data[..|data| - 1]) + if Selected(sel, r.stream) then [r] else []
  }

  predicate Coded(data: seq<Reading>) { forall i | 0 <= i < |data| :: data[i].stream < 65536 }

  lemma {:induction false} MatchingIsChosen(sel: Selector, data: seq<Reading>)
    requires Coded(data)
    ensures Matching(data, sel) == Chosen(sel, data)
  {
    if data != [] {
      var front, r := data[..|data| - 1], data[|data| - 1];
      MatchingIsChosen(sel, front);
      MatchingAppend(front, [r], sel);
      assert data == front + [r];
      SelectedCodes(sel, r.stream);
      MatchingOne(sel, r);
    }
  }

  lemma MatchingOne(sel: Selector, r: Reading)
    ensures Matching([r], sel) == if Sees(sel, r) then [r] else []
  {
    assert [r][1..] == [] && Matching([], sel) == [];
  }

  // ----- Pushing and popping ------------------------------------------------------------------------

  /** What is pushed, as it is stored. */
  datatype Pushing = Pushing(stream: DataStream, id: nat, value: int)

  predicate CanPush(p: Pushing) { p.stream.Encodable() && p.stream.Buffered() }

  function Stored(p: Pushing): Reading { Reading(p.stream.Encode(), p.id, p.value) }

  function StoredAll(pushes: seq<Pushing>): (data: seq<Reading>)
    ensures |data| == |pushes| && forall i | 0 <= i < |pushes| :: data[i] == Stored(pushes[i])
  {
    seq(|pushes|, i requires 0 <= i < |pushes| => Stored(pushes[i]))
  }

  /** The log after these pushes, if all of them find room. */
  function PushAll(c: Config, l: Log, pushes: seq<Pushing>): Option<Log> {
    if pushes == [] then Some(l)
    else
      var p := pushes[|pushes| - 1];
      var before := PushAll(c, l, pushes[..|pushes| - 1]);
      if before.None? || Full(c, before.value, Stored(p)) then None
      else Some(Push(c, before.value, p.stream, p.id, p.value).0)
  }

  /** A walker of the log and what is waiting for it. */
  ghost predicate Waits(l: Log, i: nat, sel: Selector, waiting: seq<Reading>) {
    && i < |l.walkers| && SyncedAt(l, i) && l.walkers[i].sel == sel
    && Waiting(l.walkers[i], l.Area(sel.Output())) == waiting
  }

  lemma PushWaits(c: Config, l: Log, i: nat, sel: Selector, waiting: seq<Reading>, p: Pushing)
    requires Waits(l, i, sel, waiting) && CanPush(p) && !Full(c, l, Stored(p))
    ensures Waits(Push(c, l, p.stream, p.id, p.value).0, i, sel,
              waiting + if Selected(sel, Stored(p).stream) then [Stored(p)] else [])
  {
    DecodeEncode(p.stream);
    SelectedStreams(sel, p.stream);
    AddKeepsSync(l, Stored(p), p.stream, i);
  }

  /** What is waiting for a walker after any pushes that find room is what was waiting before, and then
      exactly the pushed readings with selected codes, in order. */
  lemma {:induction false} PushedAreWaiting(c: Config, l: Log, i: nat, sel: Selector, waiting: seq<Reading>,
                                            pushes: seq<Pushing>)
    requires Waits(l, i, sel, waiting) && PushAll(c, l, pushes).Some?
    requires forall k | 0 <= k < |pushes| :: CanPush(pushes[k])
    ensures Waits(PushAll(c, l, pushes).value, i, sel, waiting + Chosen(sel, StoredAll(pushes)))
  {
    if pushes == [] {
      assert waiting + [] == waiting;
    } else {
      var front, p := pushes[..|pushes| - 1], pushes[|pushes| - 1];
      PushedAreWaiting(c, l, i, sel, waiting, front);
      PushWaits(c, PushAll(c, l, front).value, i, sel, waiting + Chosen(sel, StoredAll(front)), p);
      ChosenOneMore(sel, pushes, waiting);
    }
  }

  lemma ChosenOneMore(sel: Selector, pushes: seq<Pushing>, waiting: seq<Reading>)
    requires pushes != []
    ensures var front, p := pushes[..|pushes| - 1], pushes[|pushes| - 1];
            waiting + Chosen(sel, StoredAll(pushes)) ==
            (waiting + Chosen(sel, StoredAll(front))) + if Selected(sel, Stored(p).stream) then [Stored(p)] else []
  {
    var front, p := pushes[..|pushes| - 1], pushes[|pushes| - 1];
    assert StoredAll(pushes)[..|pushes| - 1] == StoredAll(front);
    Associative(waiting, Chosen(sel, StoredAll(front)), if Selected(sel, Stored(p).stream) then [Stored(p)] else []);
  }

  /** Popping hands out what is waiting, in order. */
  lemma PopWaits(c: Config, l: Log, i: nat, sel: Selector, waiting: seq<Reading>)
    requires Waits(l, i, sel, waiting)
    ensures var (l', out) := Step(c, l, OpOn(i, DoPop));
            if waiting == [] then out == NoItem && l' == l
            else out == Item(waiting[0]) && Waits(l', i, sel, waiting[1..])
  {
    PopTakesFirst(l.walkers[i], l.Area(sel.Output()));
    if waiting == [] { assert l.walkers[i := l.walkers[i]] == l.walkers; }
  }

  /** A new walker on an area waits for the stored readings with selected codes, or for none. */
  lemma NewWaits(c: Config, l: Log, sel: Selector, skipAll: bool)
    requires sel.Buffered() && Coded(l.Area(sel.Output()))
    ensures Waits(Step(c, l, OpCreate(sel, skipAll)).0, |l.walkers|, sel,
              if skipAll then [] else Chosen(sel, l.Area(sel.Output())))
  {
    var data := l.Area(sel.Output());
    MatchingIsChosen(sel, data);
    assert data[0..] == data && data[|data|..] == [];
  }
}
