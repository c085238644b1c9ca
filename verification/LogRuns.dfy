/** Many walkers on one log: runs of pushes, pops, peeks and skips in any order, and
    what a push does to all walkers when it overwrites old readings. */
module LogRuns {
  import opened Streams
  import opened ReadingLog

  datatype Config = Config(storageLength: nat, streamingLength: nat,
                           rolloverStorage: bool, rolloverStreaming: bool, eraseSize: nat) {
    function Length(output: bool): nat { if output then streamingLength else storageLength }
    predicate Rollover(output: bool) { if output then rolloverStreaming else rolloverStorage }
  }

  datatype Log = Log(storage: seq<Reading>, streaming: seq<Reading>, walkers: seq<Walker>) {
    function Area(output: bool): seq<Reading> { if output then streaming else storage }

    function WithArea(output: bool, data: seq<Reading>): Log {
      if output then this.(streaming := data) else this.(storage := data)
    }
  }

  // ----- Pushing ---------------------------------------------------------------

  datatype PushResult = Pushed | StorageFull | NotEnough | OutOfSync

  function NotifyAll(ws: seq<Walker>, s: DataStream): (r: seq<Walker>)
    ensures |r| == |ws|
  {
    seq(|ws|, i requires 0 <= i < |ws| =>
      if ws[i].sel.Output() == s.Output() then NotifyAdded(ws[i], s) else ws[i])
  }

  /** Tell walker j, if it is on the buffer, that r was overwritten. */
  function EraseStep(ws: seq<Walker>, r: Reading, output: bool, j: nat): (res: (seq<Walker>, bool))
    requires j < |ws|
    ensures |res.0| == |ws|
  {
    if ws[j].sel.Output() != output then (ws, true)
    else
      match NotifyRollover(ws[j], Decode(r.stream))
      case None => (ws[j := ws[j].(offset := ws[j].offset - 1)], false)
      case Some(w) => (ws[j := w], true)
  }

  /** Tell the walkers from the j-th on that r was overwritten; stops at the first
      that is found out of step. */
  function EraseOne(ws: seq<Walker>, r: Reading, output: bool, j: nat): (seq<Walker>, bool)
    requires j <= |ws|
    decreases |ws| - j
  {
    if j == |ws| then (ws, true)
    else
      var (ws', ok) := EraseStep(ws, r, output, j);
      if ok then EraseOne(ws', r, output, j + 1) else (ws', false)
  }

  function EraseAll(ws: seq<Walker>, erased: seq<Reading>, output: bool): (seq<Walker>, bool)
    decreases |erased|
  {
    if erased == [] then (ws, true)
    else
      var (ws', ok) := EraseOne(ws, erased[0], output, 0);
      if ok then EraseAll(ws', erased[1..], output) else (ws', false)
  }

  function Erase(c: Config, l: Log, output: bool): (Log, PushResult) {
    var area := l.Area(output);
    if c.eraseSize > |area| then (l, NotEnough)
    else
      var (ws, ok) := EraseAll(l.walkers, area[..c.eraseSize], output);
      (l.WithArea(output, area[c.eraseSize..]).(walkers := ws), if ok then Pushed else OutOfSync)
  }

  function Add(l: Log, r: Reading, s: DataStream): Log {
    var output := Decode(r.stream).Output();
    l.WithArea(output, l.Area(output) + [r]).(walkers := NotifyAll(l.walkers, s))
  }

  predicate Full(c: Config, l: Log, r: Reading) {
    var output := Decode(r.stream).Output();
    |l.Area(output)| == c.Length(output)
  }

  function Push(c: Config, l: Log, s: DataStream, id: nat, value: int): (Log, PushResult) {
    var r := Reading(s.Encode(), id, value);
    if !s.Buffered() then (l, Pushed)
    else if !Full(c, l, r) then (Add(l, r, s), Pushed)
    else if !c.Rollover(s.Output()) then (l, StorageFull)
    else
      var (l', result) := Erase(c, l, s.Output());
      if result != Pushed then (l', result)
      else if Full(c, l', r) then (l', StorageFull)
      else (Add(l', r, s), Pushed)
  }

  ghost predicate SyncedAt(l: Log, i: nat)
    requires i < |l.walkers|
  {
    l.walkers[i].sel.Buffered() && Synced(l.walkers[i], l.Area(l.walkers[i].sel.Output()))
  }

  ghost predicate AllSynced(l: Log) {
    forall i | 0 <= i < |l.walkers| :: SyncedAt(l, i)
  }

  // ----- Pushing without overwriting ---------------------------------------------

  lemma AddKeepsSync(l: Log, r: Reading, s: DataStream, i: nat)
    requires i < |l.walkers| && SyncedAt(l, i) && Decode(r.stream) == s && s.Buffered()
    ensures SyncedAt(Add(l, r, s), i)
    ensures var w, w' := l.walkers[i], Add(l, r, s).walkers[i];
            && w'.sel == w.sel
            && Waiting(w', Add(l, r, s).Area(w.sel.Output())) ==
               Waiting(w, l.Area(w.sel.Output())) + (if w.sel.Matches(s) then [r] else [])
  {
    var w := l.walkers[i];
    if w.sel.Output() == s.Output() {
      AddedKeepsSync(w, l.Area(s.Output()), r, s);
    }
  }

  // ----- Pushing with overwriting ------------------------------------------------------

  lemma {:induction false} EraseOneEach(ws: seq<Walker>, r: Reading, output: bool, j: nat)
    requires j <= |ws|
    ensures var (ws', ok) := EraseOne(ws, r, output, j);
            && |ws'| == |ws|
            && (ok <==> forall i | j <= i < |ws| && ws[i].sel.Output() == output ::
                          NotifyRollover(ws[i], Decode(r.stream)).Some?)
            && (ok ==> forall i | 0 <= i < |ws| ::
                         ws'[i] == if i >= j && ws[i].sel.Output() == output
                                   then NotifyRollover(ws[i], Decode(r.stream)).value else ws[i])
    decreases |ws| - j
  {
    if j < |ws| {
      if ws[j].sel.Output() != output {
        EraseOneEach(ws, r, output, j + 1);
      } else if NotifyRollover(ws[j], Decode(r.stream)).Some? {
        var ws1 := ws[j := NotifyRollover(ws[j], Decode(r.stream)).value];
        EraseOneEach(ws1, r, output, j + 1);
        assert forall i | j + 1 <= i < |ws| :: ws1[i] == ws[i];
      }
    }
  }

  /** Erasing tells every walker on the area about every erased reading, and fails
      exactly when one of them is found out of step. */
  lemma {:induction false} EraseAllEach(ws: seq<Walker>, erased: seq<Reading>, output: bool)
    ensures var (ws', ok) := EraseAll(ws, erased, output);
            && |ws'| == |ws|
            && (ok <==> forall i | 0 <= i < |ws| && ws[i].sel.Output() == output :: Rollover(ws[i], erased).Some?)
            && (ok ==> forall i | 0 <= i < |ws| ::
                         ws'[i] == if ws[i].sel.Output() == output then Rollover(ws[i], erased).value else ws[i])
    decreases |erased|
  {
    if erased != [] {
      EraseOneEach(ws, erased[0], output, 0);
      var (ws', ok) := EraseOne(ws, erased[0], output, 0);
      if ok {
        EraseAllEach(ws', erased[1..], output);
      } else {
        var i :| 0 <= i < |ws| && ws[i].sel.Output() == output && NotifyRollover(ws[i], Decode(erased[0].stream)).None?;
        assert Rollover(ws[i], erased).None?;
      }
    }
  }

  /** Nothing of the k oldest readings of the area concerns walker w. */
  ghost predicate Untouched(w: Walker, data: seq<Reading>, k: nat)
    requires k <= |data|
  {
    k <= w.offset && forall i | 0 <= i < k :: !Sees(w.sel, data[i])
  }

  lemma WalkerOverwrite(l: Log, r: Reading, s: DataStream, k: nat, ws: seq<Walker>, i: nat)
    requires i < |l.walkers| == |ws| && SyncedAt(l, i) && Decode(r.stream) == s && s.Buffered()
    requires k <= |l.Area(s.Output())|
    requires l.walkers[i].sel.Output() == s.Output() ==>
               Rollover(l.walkers[i], l.Area(s.Output())[..k]) == Some(ws[i])
    requires l.walkers[i].sel.Output() != s.Output() ==> ws[i] == l.walkers[i]
    ensures var l' := l.WithArea(s.Output(), l.Area(s.Output())[k..]).(walkers := ws);
            SyncedAt(Add(l', r, s), i) <==>
            (l.walkers[i].sel.Output() == s.Output() ==> Untouched(l.walkers[i], l.Area(s.Output()), k))
  {
    var w, data := l.walkers[i], l.Area(s.Output());
    var l' := l.WithArea(s.Output(), data[k..]).(walkers := ws);
    if w.sel.Output() == s.Output() {
      RolloverKeepsSyncIff(w, data, k);
      RolloverResult(w, data[..k]);
      AddedSyncIff(ws[i], data[k..], r, s);
    } else {
      AddKeepsSync(l', r, s, i);
    }
  }

  lemma AddedSyncIff(w: Walker, data: seq<Reading>, r: Reading, s: DataStream)
    requires Decode(r.stream) == s && w.offset <= |data|
    ensures Synced(NotifyAdded(w, s), data + [r]) <==> Synced(w, data)
  {
    if w.offset >= 0 {
      assert (data + [r])[w.offset..] == data[w.offset..] + [r];
      MatchingAppend(data[w.offset..], [r], w.sel);
      assert Matching([], w.sel) == [];
      assert [r][1..] == [];
    }
  }

  /** A push into a full area overwrites the oldest readings.  It succeeds with all
      walkers still in agreement exactly when every walker on the area had passed all
      overwritten readings and none of them matches it. */
  lemma OverwritingPushIff(c: Config, l: Log, s: DataStream, id: nat, value: int)
    requires AllSynced(l) && s.Encodable() && s.Buffered() && c.Rollover(s.Output())
    requires |l.Area(s.Output())| == c.Length(s.Output()) && 0 < c.eraseSize <= c.Length(s.Output())
    ensures var (l', result) := Push(c, l, s, id, value);
            (result == Pushed && AllSynced(l')) <==>
            forall i | 0 <= i < |l.walkers| && l.walkers[i].sel.Output() == s.Output() ::
              Untouched(l.walkers[i], l.Area(s.Output()), c.eraseSize)
  {
    DecodeEncode(s);
    var r, k, data := Reading(s.Encode(), id, value), c.eraseSize, l.Area(s.Output());
    EraseAllEach(l.walkers, data[..k], s.Output());
    var (ws, ok) := EraseAll(l.walkers, data[..k], s.Output());
    if ok {
      forall i | 0 <= i < |l.walkers|
        ensures SyncedAt(Push(c, l, s, id, value).0, i) <==>
                (l.walkers[i].sel.Output() == s.Output() ==> Untouched(l.walkers[i], data, k))
      {
        assert SyncedAt(l, i);
        WalkerOverwrite(l, r, s, k, ws, i);
      }
    } else {
      var i :| 0 <= i < |l.walkers| && l.walkers[i].sel.Output() == s.Output() &&
        Rollover(l.walkers[i], data[..k]).None?;
      assert SyncedAt(l, i);
      RolloverKeepsSyncIff(l.walkers[i], data, k);
    }
  }

  // ----- Runs: independent queues ---------------------------------------------------------

  datatype Act = DoPop | DoPeek | DoSkip

  datatype Op =
    | OpPush(s: DataStream, id: nat, value: int)
    | OpCreate(sel: Selector, skipAll: bool)
    | OpOn(i: nat, act: Act)

  datatype Out = Ack | Done(result: PushResult) | Item(r: Reading) | NoItem

  function AsOut(r: Option<Reading>): Out { if r.Some? then Item(r.value) else NoItem }

  function NewWalker(l: Log, sel: Selector, skipAll: bool): Walker {
    var data := l.Area(sel.Output());
    if skipAll then Walker(sel, |data|, 0) else Walker(sel, 0, |Matching(data, sel)|)
  }

  function Step(c: Config, l: Log, op: Op): (Log, Out) {
    match op
    case OpPush(s, id, value) => var (l', result) := Push(c, l, s, id, value); (l', Done(result))
    case OpCreate(sel, skipAll) =>
      if sel.Buffered() then (l.(walkers := l.walkers + [NewWalker(l, sel, skipAll)]), Ack) else (l, Ack)
    case OpOn(i, act) =>
      if i >= |l.walkers| then (l, Ack)
      else
        var (w, out) := ActOn(l.walkers[i], l.Area(l.walkers[i].sel.Output()), act);
        (l.(walkers := l.walkers[i := w]), out)
  }

  function ActOn(w: Walker, data: seq<Reading>, act: Act): (Walker, Out) {
    match act
    case DoPop => var (r, w') := Pop(w, data); (w', AsOut(r))
    case DoPeek => (w, AsOut(Peek(w, data)))
    case DoSkip => (SkipAll(w, data), Ack)
  }

  /** The reference: every walker is a queue of its own; of the log there are only the list
      of everything ever pushed and how many readings of each area have been erased, which
      tell what a new walker may start with. */
  datatype Fifo = Fifo(sel: Selector, items: seq<Reading>)

  datatype Fifos = Fifos(history: seq<Reading>, goneStorage: nat, goneStreaming: nat, queues: seq<Fifo>) {
    function Gone(output: bool): nat { if output then goneStreaming else goneStorage }

    function Kept(output: bool): seq<Reading> {
      var p := Part(history, output);
      if Gone(output) <= |p| then p[Gone(output)..] else []
    }

    function EraseOldest(output: bool, k: nat): Fifos {
      if output then this.(goneStreaming := goneStreaming + k) else this.(goneStorage := goneStorage + k)
    }

    function Append(r: Reading): Fifos {
      this.(history := history + [r], queues := seq(|queues|, i requires 0 <= i < |queues| => Feed(queues[i], r)))
    }
  }

  /** The part of the history that is in one area. */
  function Part(history: seq<Reading>, output: bool): seq<Reading> {
    if history == [] then []
    else
      var h := history[..|history| - 1];
      var r := history[|history| - 1];
      if Decode(r.stream).Output() == output then Part(h, output) + [r] else Part(h, output)
  }

  function Feed(q: Fifo, r: Reading): Fifo { if Sees(q.sel, r) then q.(items := q.items + [r]) else q }

  /** No queue loses anything when old readings are erased. */
  function FifoPush(c: Config, f: Fifos, s: DataStream, id: nat, value: int): (Fifos, PushResult) {
    var output := s.Output();
    var r := Reading(s.Encode(), id, value);
    if !s.Buffered() then (f, Pushed)
    else if |f.Kept(output)| != c.Length(output) then (f.Append(r), Pushed)
    else if !c.Rollover(output) then (f, StorageFull)
    else if c.eraseSize > c.Length(output) then (f, NotEnough)
    else if c.eraseSize == 0 then (f, StorageFull)
    else (f.EraseOldest(output, c.eraseSize).Append(r), Pushed)
  }

  function FifoStep(c: Config, f: Fifos, op: Op): (Fifos, Out) {
    match op
    case OpPush(s, id, value) => var (f', result) := FifoPush(c, f, s, id, value); (f', Done(result))
    case OpCreate(sel, skipAll) =>
      if sel.Buffered()
      then (f.(queues := f.queues + [Fifo(sel, if skipAll then [] else Matching(f.Kept(sel.Output()), sel))]), Ack)
      else (f, Ack)
    case OpOn(i, act) =>
      if i >= |f.queues| then (f, Ack)
      else
        var (q, out) := FifoAct(f.queues[i], act);
        (f.(queues := f.queues[i := q]), out)
  }

  function FifoAct(q: Fifo, act: Act): (Fifo, Out) {
    match act
    case DoPop => if q.items == [] then (q, NoItem) else (q.(items := q.items[1..]), Item(q.items[0]))
    case DoPeek => (q, if q.items == [] then NoItem else Item(q.items[0]))
    case DoSkip => (q.(items := []), Ack)
  }

  function Run(c: Config, l: Log, ops: seq<Op>): (Log, seq<Out>)
    decreases |ops|
  {
    if ops == [] then (l, [])
    else
      var (l', out) := Step(c, l, ops[0]);
      var (l'', outs) := Run(c, l', ops[1..]);
      (l'', [out] + outs)
  }

  function FifoRun(c: Config, f: Fifos, ops: seq<Op>): (Fifos, seq<Out>)
    decreases |ops|
  {
    if ops == [] then (f, [])
    else
      var (f', out) := FifoStep(c, f, ops[0]);
      var (f'', outs) := FifoRun(c, f', ops[1..]);
      (f'', [out] + outs)
  }

  /** The stream fits its 16-bit code, and if pushing to it overwrites readings, they
      concern no walker of the area. */
  ghost predicate SafePush(c: Config, l: Log, s: DataStream) {
    s.Buffered() ==>
      && s.Encodable()
      && (Overwrites(c, l, s.Output()) ==> AllUntouched(l, s.Output(), c.eraseSize))
  }

  predicate Overwrites(c: Config, l: Log, output: bool) {
    |l.Area(output)| == c.Length(output) && c.Rollover(output) && c.eraseSize <= c.Length(output)
  }

  ghost predicate AllUntouched(l: Log, output: bool, k: nat)
    requires k <= |l.Area(output)|
  {
    forall i | 0 <= i < |l.walkers| && l.walkers[i].sel.Output() == output :: Untouched(l.walkers[i], l.Area(output), k)
  }

  ghost predicate Safe(c: Config, l: Log, ops: seq<Op>)
    decreases |ops|
  {
    ops != [] ==> (ops[0].OpPush? ==> SafePush(c, l, ops[0].s)) && Safe(c, Step(c, l, ops[0]).0, ops[1..])
  }

  ghost predicate QueueAgrees(l: Log, q: Fifo, i: nat)
    requires i < |l.walkers|
  {
    && SyncedAt(l, i) && l.walkers[i].sel == q.sel
    && Waiting(l.walkers[i], l.Area(q.sel.Output())) == q.items
  }

  ghost predicate KeptAgrees(l: Log, f: Fifos, output: bool) {
    l.Area(output) == f.Kept(output) && f.Gone(output) <= |Part(f.history, output)|
  }

  ghost predicate Refines(l: Log, f: Fifos) {
    && |l.walkers| == |f.queues|
    && KeptAgrees(l, f, false) && KeptAgrees(l, f, true)
    && forall i | 0 <= i < |l.walkers| :: QueueAgrees(l, f.queues[i], i)
  }

  lemma AppendKept(l: Log, f: Fifos, r: Reading, s: DataStream, output: bool)
    requires KeptAgrees(l, f, output) && Decode(r.stream) == s
    ensures KeptAgrees(Add(l, r, s), f.Append(r), output)
  {
    assert (f.history + [r])[..|f.history|] == f.history;
  }

  lemma AddRefines(l: Log, f: Fifos, r: Reading, s: DataStream)
    requires Refines(l, f) && s.Buffered() && Decode(r.stream) == s
    ensures Refines(Add(l, r, s), f.Append(r))
  {
    var l', f' := Add(l, r, s), f.Append(r);
    AppendKept(l, f, r, s, false);
    AppendKept(l, f, r, s, true);
    forall i | 0 <= i < |l.walkers| ensures QueueAgrees(l', f'.queues[i], i) {
      assert QueueAgrees(l, f.queues[i], i);
      AddKeepsSync(l, r, s, i);
    }
  }

  lemma WalkerErased(w: Walker, data: seq<Reading>, k: nat)
    requires Synced(w, data) && k <= |data| && Untouched(w, data, k)
    ensures Rollover(w, data[..k]).Some?
    ensures var w' := Rollover(w, data[..k]).value;
            w'.sel == w.sel && Synced(w', data[k..]) && Waiting(w', data[k..]) == Waiting(w, data)
  {
    RolloverKeepsSyncIff(w, data, k);
    RolloverResult(w, data[..k]);
    NothingMatchesBefore(data, w.sel, k);
    assert data[k..][w.offset - k..] == data[w.offset..];
  }

  /** The log when the k oldest readings of an area are gone. */
  function Shortened(l: Log, output: bool, k: nat, ws: seq<Walker>): Log
    requires k <= |l.Area(output)|
  {
    l.WithArea(output, l.Area(output)[k..]).(walkers := ws)
  }

  lemma KeptErased(l: Log, f: Fifos, output: bool, k: nat, ws: seq<Walker>)
    requires KeptAgrees(l, f, output) && KeptAgrees(l, f, !output) && k <= |l.Area(output)|
    ensures KeptAgrees(Shortened(l, output, k, ws), f.EraseOldest(output, k), output)
    ensures KeptAgrees(Shortened(l, output, k, ws), f.EraseOldest(output, k), !output)
  {
    var p, gone := Part(f.history, output), f.Gone(output);
    assert p[gone..][k..] == p[gone + k..];
  }

  lemma QueueErased(l: Log, q: Fifo, i: nat, output: bool, k: nat, ws: seq<Walker>)
    requires i < |l.walkers| == |ws| && QueueAgrees(l, q, i)
    requires k <= |l.Area(output)| && AllUntouched(l, output, k)
    requires var w := l.walkers[i];
             if w.sel.Output() == output then Rollover(w, l.Area(output)[..k]) == Some(ws[i]) else ws[i] == w
    ensures QueueAgrees(Shortened(l, output, k, ws), q, i)
  {
    if l.walkers[i].sel.Output() == output { WalkerErased(l.walkers[i], l.Area(output), k); }
  }

  lemma EraseSucceeds(l: Log, f: Fifos, output: bool, k: nat)
    requires Refines(l, f) && k <= |l.Area(output)| && AllUntouched(l, output, k)
    ensures EraseAll(l.walkers, l.Area(output)[..k], output).1
  {
    EraseAllEach(l.walkers, l.Area(output)[..k], output);
    forall i | 0 <= i < |l.walkers| && l.walkers[i].sel.Output() == output
      ensures Rollover(l.walkers[i], l.Area(output)[..k]).Some?
    {
      assert QueueAgrees(l, f.queues[i], i);
      WalkerErased(l.walkers[i], l.Area(output), k);
    }
  }

  lemma EraseRefines(c: Config, l: Log, f: Fifos, output: bool)
    requires Refines(l, f) && c.eraseSize <= |l.Area(output)| && AllUntouched(l, output, c.eraseSize)
    ensures Erase(c, l, output).1 == Pushed
    ensures Refines(Erase(c, l, output).0, f.EraseOldest(output, c.eraseSize))
  {
    var k, erased := c.eraseSize, l.Area(output)[..c.eraseSize];
    var ws := EraseAll(l.walkers, erased, output).0;
    EraseSucceeds(l, f, output, k);
    EraseAllEach(l.walkers, erased, output);
    KeptErased(l, f, output, k, ws);
    forall i | 0 <= i < |l.walkers| ensures QueueAgrees(Shortened(l, output, k, ws), f.queues[i], i) {
      assert QueueAgrees(l, f.queues[i], i);
      QueueErased(l, f.queues[i], i, output, k, ws);
    }
    assert Erase(c, l, output).0 == Shortened(l, output, k, ws);
  }

  lemma PushRefines(c: Config, l: Log, f: Fifos, s: DataStream, id: nat, value: int)
    requires Refines(l, f) && SafePush(c, l, s)
    ensures Push(c, l, s, id, value).1 == FifoPush(c, f, s, id, value).1
    ensures Refines(Push(c, l, s, id, value).0, FifoPush(c, f, s, id, value).0)
  {
    var r, output := Reading(s.Encode(), id, value), s.Output();
    if s.Buffered() {
      DecodeEncode(s);
      assert KeptAgrees(l, f, output);
      if !Full(c, l, r) {
        AddRefines(l, f, r, s);
      } else if Overwrites(c, l, output) {
        EraseRefines(c, l, f, output);
        if c.eraseSize > 0 { AddRefines(Erase(c, l, output).0, f.EraseOldest(output, c.eraseSize), r, s); }
        if c.eraseSize == 0 { NothingErased(c, l, f, output); }
      }
    }
  }

  lemma NothingErased(c: Config, l: Log, f: Fifos, output: bool)
    requires c.eraseSize == 0 && Erase(c, l, output).1 == Pushed
    ensures f.EraseOldest(output, 0) == f && Erase(c, l, output).0.Area(output) == l.Area(output)
  {
    assert l.Area(output)[0..] == l.Area(output);
  }

  lemma CreateRefines(c: Config, l: Log, f: Fifos, sel: Selector, skipAll: bool)
    requires Refines(l, f) && sel.Buffered()
    ensures Refines(Step(c, l, OpCreate(sel, skipAll)).0, FifoStep(c, f, OpCreate(sel, skipAll)).0)
  {
    var op := OpCreate(sel, skipAll);
    var l', f' := Step(c, l, op).0, FifoStep(c, f, op).0;
    assert KeptAgrees(l, f, sel.Output());
    var data := l.Area(sel.Output());
    assert data[0..] == data && data[|data|..] == [];
    forall i | 0 <= i < |l'.walkers| ensures QueueAgrees(l', f'.queues[i], i) {
      if i < |l.walkers| { assert QueueAgrees(l, f.queues[i], i); }
    }
  }

  lemma ActRefines(c: Config, l: Log, f: Fifos, i: nat, act: Act)
    requires Refines(l, f)
    ensures Step(c, l, OpOn(i, act)).1 == FifoStep(c, f, OpOn(i, act)).1
    ensures Refines(Step(c, l, OpOn(i, act)).0, FifoStep(c, f, OpOn(i, act)).0)
  {
    if i < |l.walkers| {
      var w := l.walkers[i];
      var data := l.Area(w.sel.Output());
      assert QueueAgrees(l, f.queues[i], i);
      PopTakesFirst(w, data);
      assert data[|data|..] == [];
      var l', f' := Step(c, l, OpOn(i, act)).0, FifoStep(c, f, OpOn(i, act)).0;
      forall j | 0 <= j < |l'.walkers| ensures QueueAgrees(l', f'.queues[j], j) {
        if j != i { assert QueueAgrees(l, f.queues[j], j); }
      }
    }
  }

  /** However many walkers push, pop, peek, skip and are created in whatever order, as
      long as no overwritten reading concerns a walker they behave exactly like independent
      queues. */
  lemma {:induction false} WalkersAreQueues(c: Config, l: Log, f: Fifos, ops: seq<Op>)
    requires Refines(l, f) && Safe(c, l, ops)
    ensures Run(c, l, ops).1 == FifoRun(c, f, ops).1
    ensures Refines(Run(c, l, ops).0, FifoRun(c, f, ops).0)
    decreases |ops|
  {
    if ops != [] {
      match ops[0] {
        case OpPush(s, id, value) => PushRefines(c, l, f, s, id, value);
        case OpCreate(sel, skipAll) => if sel.Buffered() { CreateRefines(c, l, f, sel, skipAll); }
        case OpOn(i, act) => ActRefines(c, l, f, i, act);
      }
      WalkersAreQueues(c, Step(c, l, ops[0]).0, FifoStep(c, f, ops[0]).0, ops[1..]);
    }
  }

  /** In particular from an empty log. */
  lemma FreshLogRefines()
    ensures Refines(Log([], [], []), Fifos([], 0, 0, []))
  {
  }

  // ----- Streams that do not fit their code ------------------------------------------------

  /** A reading is stored under the code of its stream, but counted for the stream itself.  So
      a push that overwrites nothing keeps a walker in agreement if and only if the walker
      matches both the stream and what its code is decoded to, or neither. */
  lemma PushKeepsSyncIff(c: Config, l: Log, s: DataStream, id: nat, value: int, i: nat)
    requires i < |l.walkers| && SyncedAt(l, i) && s.Buffered() && !Full(c, l, Reading(s.Encode(), id, value))
    ensures SyncedAt(Push(c, l, s, id, value).0, i) <==>
            (l.walkers[i].sel.Matches(s) <==> l.walkers[i].sel.Matches(Decode(s.Encode())))
  {
    var r, w := Reading(s.Encode(), id, value), l.walkers[i];
    var data := l.Area(w.sel.Output());
    var d := Decode(r.stream);
    if w.sel.Output() == d.Output() {
      assert (data + [r])[w.offset..] == data[w.offset..] + [r];
      MatchingAppend(data[w.offset..], [r], w.sel);
      assert [r][1..] == [] && Matching([], w.sel) == [];
    }
  }

  /** For example, stream id 2048 is counted for a walker that reads it but stored as id 0 of
      the system. */
  lemma WideIdLosesSync(c: Config, l: Log, value: int, id: nat, i: nat)
    requires i < |l.walkers| && SyncedAt(l, i) && l.walkers[i].sel == Selector(BUFFERED, Some(2048), UserOnly)
    requires |l.storage| != c.storageLength
    ensures !SyncedAt(Push(c, l, DataStream(BUFFERED, 2048, false), id, value).0, i)
  {
    var s := DataStream(BUFFERED, 2048, false);
    assert s.Encode() == 2048 && Decode(2048) == DataStream(0, 0, true);
    PushKeepsSyncIff(c, l, s, id, value, i);
  }
}
