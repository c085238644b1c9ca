/** What a push leaves of the log in every case: stored, refused, or failed half way. */
module LogOutcomes {
  import opened Basics
  import opened Streams
  import opened ReadingLog
  import opened LogRuns

  // ----- A walker out of step ------------------------------------------------------------------

  /** Where erasing fails: the walkers before the one that is out of step have been told about the reading
      that it matches, and it has been moved back without being counted down. */
  lemma {:induction false} FailedEraseOne(ws: seq<Walker>, r: Reading, output: bool, j: nat) returns (k: nat)
    requires j <= |ws| && !EraseOne(ws, r, output, j).1
    ensures j <= k < |ws| && ws[k].sel.Output() == output
    ensures ws[k].sel.Matches(Decode(r.stream)) && ws[k].count == 0
    ensures var ws' := EraseOne(ws, r, output, j).0;
            && |ws'| == |ws| && ws'[k] == ws[k].(offset := ws[k].offset - 1)
            && forall i | 0 <= i < |ws| && i != k ::
                 if j <= i < k && ws[i].sel.Output() == output
                 then NotifyRollover(ws[i], Decode(r.stream)) == Some(ws'[i]) else ws'[i] == ws[i]
    decreases |ws| - j
  {
    var (ws1, ok) := EraseStep(ws, r, output, j);
    if ok { k := FailedEraseOne(ws1, r, output, j + 1); } else { k := j; }
  }

  /** The walker has been told about these readings, if it is on the area. */
  predicate Told(w: Walker, w': Walker, erased: seq<Reading>, output: bool) {
    if w.sel.Output() == output then Rollover(w, erased) == Some(w') else w' == w
  }

  /** The walker has been told about the readings and then been moved back for one that it matches,
      with nothing left to count down. */
  predicate FoundOut(w: Walker, w': Walker, erased: seq<Reading>, r: Reading, output: bool) {
    && w.sel.Output() == output && w.sel.Matches(Decode(r.stream))
    && Rollover(w, erased) == Some(Walker(w.sel, w'.offset + 1, 0)) && w' == Walker(w.sel, w'.offset, 0)
  }

  lemma ToldOneMore(w: Walker, w1: Walker, w': Walker, r: Reading, erased: seq<Reading>, all: seq<Reading>,
                    output: bool)
    requires Told(w1, w', erased, output) && all == [r] + erased
    requires if w.sel.Output() == output then NotifyRollover(w, Decode(r.stream)) == Some(w1) else w1 == w
    ensures Told(w, w', all, output)
  {
    assert all[0] == r && all[1..] == erased;
  }

  lemma FoundOutOneMore(w: Walker, w1: Walker, w': Walker, r: Reading, erased: seq<Reading>, all: seq<Reading>,
                        last: Reading, output: bool)
    requires FoundOut(w1, w', erased, last, output) && all == [r] + erased
    requires if w.sel.Output() == output then NotifyRollover(w, Decode(r.stream)) == Some(w1) else w1 == w
    ensures FoundOut(w, w', all, last, output)
  {
    assert all[0] == r && all[1..] == erased;
  }

  /** When erasing fails it has stopped at some reading n and walker k: all walkers have been told about
      the readings before n, those before k also about n, and k is found out of step at it. */
  ghost predicate StoppedAt(ws: seq<Walker>, ws': seq<Walker>, erased: seq<Reading>, output: bool, n: nat, k: nat) {
    && |ws'| == |ws| && k < |ws| && n < |erased|
    && FoundOut(ws[k], ws'[k], erased[..n], erased[n], output)
    && (forall i | 0 <= i < k :: Told(ws[i], ws'[i], erased[..n + 1], output))
    && (forall i | k < i < |ws| :: Told(ws[i], ws'[i], erased[..n], output))
  }

  lemma StoppedAtFirst(ws: seq<Walker>, erased: seq<Reading>, output: bool) returns (k: nat)
    requires erased != [] && !EraseOne(ws, erased[0], output, 0).1
    ensures StoppedAt(ws, EraseOne(ws, erased[0], output, 0).0, erased, output, 0, k)
  {
    k := FailedEraseOne(ws, erased[0], output, 0);
    var ws' := EraseOne(ws, erased[0], output, 0).0;
    forall i | 0 <= i < k ensures Told(ws[i], ws'[i], erased[..1], output) {
      assert Told(ws'[i], ws'[i], [], output);
      ToldOneMore(ws[i], ws'[i], ws'[i], erased[0], [], erased[..1], output);
    }
  }

  lemma StoppedLater(ws: seq<Walker>, ws1: seq<Walker>, ws': seq<Walker>, erased: seq<Reading>, output: bool,
                     n: nat, k: nat)
    requires erased != [] && |ws1| == |ws| && StoppedAt(ws1, ws', erased[1..], output, n, k)
    requires forall i | 0 <= i < |ws| ::
               if ws[i].sel.Output() == output then NotifyRollover(ws[i], Decode(erased[0].stream)) == Some(ws1[i])
               else ws1[i] == ws[i]
    ensures StoppedAt(ws, ws', erased, output, n + 1, k)
  {
    assert erased[..n + 1] == [erased[0]] + erased[1..][..n];
    assert erased[..n + 2] == [erased[0]] + erased[1..][..n + 1];
    FoundOutOneMore(ws[k], ws1[k], ws'[k], erased[0], erased[1..][..n], erased[..n + 1], erased[n + 1], output);
    forall i | 0 <= i < k ensures Told(ws[i], ws'[i], erased[..n + 2], output) {
      ToldOneMore(ws[i], ws1[i], ws'[i], erased[0], erased[1..][..n + 1], erased[..n + 2], output);
    }
    forall i | k < i < |ws| ensures Told(ws[i], ws'[i], erased[..n + 1], output) {
      ToldOneMore(ws[i], ws1[i], ws'[i], erased[0], erased[1..][..n], erased[..n + 1], output);
    }
  }

  lemma {:induction false} FailedEraseAll(ws: seq<Walker>, erased: seq<Reading>, output: bool)
    requires !EraseAll(ws, erased, output).1
    ensures exists n, k :: StoppedAt(ws, EraseAll(ws, erased, output).0, erased, output, n, k)
    decreases |erased|
  {
    var (ws1, ok) := EraseOne(ws, erased[0], output, 0);
    if ok {
      FailedEraseAll(ws1, erased[1..], output);
      EraseOneEach(ws, erased[0], output, 0);
      var n, k :| StoppedAt(ws1, EraseAll(ws1, erased[1..], output).0, erased[1..], output, n, k);
      StoppedLater(ws, ws1, EraseAll(ws1, erased[1..], output).0, erased, output, n, k);
    } else {
      var k := StoppedAtFirst(ws, erased, output);
    }
  }

  // ----- Pushing ---------------------------------------------------------------------------------

  /** These readings are in the area, and the other area and the walkers' selectors are the same. */
  predicate Holds(l: Log, l': Log, output: bool, data: seq<Reading>) {
    && l'.Area(output) == data && l'.Area(!output) == l.Area(!output) && |l'.walkers| == |l.walkers|
  }

  predicate Counted(w: Walker, w': Walker, s: DataStream) {
    w' == if w.sel.Matches(s) then Walker(w.sel, w.offset, w.count + 1) else w
  }

  lemma CountedEach(ws: seq<Walker>, s: DataStream)
    ensures |NotifyAll(ws, s)| == |ws| && forall i | 0 <= i < |ws| :: Counted(ws[i], NotifyAll(ws, s)[i], s)
  {
  }

  /** A push that finds room stores the reading at the end of its area, and the walkers that match it
      count one more. */
  lemma PushedWithRoom(c: Config, l: Log, s: DataStream, id: nat, value: int)
    requires s.Encodable() && s.Buffered() && |l.Area(s.Output())| != c.Length(s.Output())
    ensures var (l', result) := Push(c, l, s, id, value);
            && result == Pushed
            && Holds(l, l', s.Output(), l.Area(s.Output()) + [Reading(s.Encode(), id, value)])
            && forall i | 0 <= i < |l.walkers| :: Counted(l.walkers[i], l'.walkers[i], s)
  {
    DecodeEncode(s);
    CountedEach(l.walkers, s);
  }

  /** A push into a full area without rollover, or with too little to erase or nothing, is refused with
      nothing changed; so is one of a stream that is not buffered, which is no failure. */
  lemma PushRefused(c: Config, l: Log, s: DataStream, id: nat, value: int)
    requires s.Encodable()
    ensures var area, push := l.Area(s.Output()), Push(c, l, s, id, value);
            && (!s.Buffered() ==> push == (l, Pushed))
            && (s.Buffered() && |area| == c.Length(s.Output()) ==>
                && (!c.Rollover(s.Output()) ==> push == (l, StorageFull))
                && (c.Rollover(s.Output()) && c.eraseSize > |area| ==> push == (l, NotEnough))
                && (c.Rollover(s.Output()) && c.eraseSize == 0 ==> push == (l, StorageFull)))
  {
    DecodeEncode(s);
    assert l.Area(s.Output())[..0] == [] && l.Area(s.Output())[0..] == l.Area(s.Output());
  }

  /** A push that overwrites: the oldest readings are gone and their walkers told, and the reading is
      stored and counted; or a walker is found out of step, and then the oldest readings are gone all the
      same, the reading is not stored, and the walkers are as when erasing stopped. */
  lemma PushedOverOldest(c: Config, l: Log, s: DataStream, id: nat, value: int)
    requires s.Encodable() && s.Buffered() && |l.Area(s.Output())| == c.Length(s.Output())
    requires c.Rollover(s.Output()) && 0 < c.eraseSize <= |l.Area(s.Output())|
    ensures var (l', result) := Push(c, l, s, id, value);
            var out, area, ws := s.Output(), l.Area(s.Output()), l.walkers;
            var erased, left := area[..c.eraseSize], area[c.eraseSize..];
            if forall i | 0 <= i < |ws| && ws[i].sel.Output() == out :: Rollover(ws[i], erased).Some?
            then
              && result == Pushed && Holds(l, l', out, left + [Reading(s.Encode(), id, value)])
              && forall i | 0 <= i < |ws| ::
                   if ws[i].sel.Output() == out then Counted(Rollover(ws[i], erased).value, l'.walkers[i], s)
                   else l'.walkers[i] == ws[i]
            else
              && result == OutOfSync && Holds(l, l', out, left)
              && exists n, k :: StoppedAt(ws, l'.walkers, erased, out, n, k)
  {
    var out, area := s.Output(), l.Area(s.Output());
    var (ws', ok) := EraseAll(l.walkers, area[..c.eraseSize], out);
    DecodeEncode(s);
    EraseAllEach(l.walkers, area[..c.eraseSize], out);
    if ok { CountedEach(ws', s); } else { FailedEraseAll(l.walkers, area[..c.eraseSize], out); }
  }
}
