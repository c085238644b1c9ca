/** The sensor log: a storage engine shared by walkers that it keeps up to date. */
module SensorLogs {
  import opened Streams
  import opened ReadingLog
  import opened LogRuns

  class StorageEngine {
    const storageLength: nat
    const streamingLength: nat
    var storage: seq<Reading>
    var streaming: seq<Reading>

    constructor (storageLength: nat, streamingLength: nat)
      ensures this.storageLength == storageLength && this.streamingLength == streamingLength
      ensures storage == [] && streaming == []
    {
      this.storageLength, this.streamingLength := storageLength, streamingLength;
      storage, streaming := [], [];
    }

    function Data(output: bool): seq<Reading>
      reads this
    {
      if output then streaming else storage
    }

    /** The number of readings from the offset on that the selector matches; an error for
        a selector that is not buffered and for an offset too far before the end. */
    method CountMatching(sel: Selector, offset: int) returns (count: Option<nat>)
      ensures count.Some? <==> sel.Buffered() && From(Data(sel.Output()), offset).Some?
      ensures count.Some? ==> count.value == |Matching(From(Data(sel.Output()), offset).value, sel)|
    {
      if !sel.Buffered() { return None; }
      var data := Data(sel.Output());
      if offset < -|data| { return None; }
      var n := 0;
      if offset < |data| {
        ghost var all := From(data, offset).value;
        for i := offset to |data|
          invariant n + |Matching(From(data, i).value, sel)| == |Matching(all, sel)|
        {
          FromNext(data, i);
          if sel.Matches(Decode((if i < 0 then data[|data| + i] else data[i]).stream)) { n := n + 1; }
        }
      }
      count := Some(n);
    }

    /** Store a reading in the area its stream belongs to. */
    method Push(r: Reading) returns (ok: bool)
      modifies this`storage, this`streaming
      ensures var output := Decode(r.stream).Output();
              && (ok <==> |old(Data(output))| != if output then streamingLength else storageLength)
              && Data(output) == (if ok then old(Data(output)) + [r] else old(Data(output)))
              && Data(!output) == old(Data(!output))
    {
      if Decode(r.stream).Output() {
        if |streaming| == streamingLength { return false; }
        streaming := streaming + [r];
      } else {
        if |storage| == storageLength { return false; }
        storage := storage + [r];
      }
      return true;
    }

    /** Remove the oldest readings of an area. */
    method Popn(output: bool, count: nat) returns (popped: Option<seq<Reading>>)
      modifies this`storage, this`streaming
      ensures popped == if count > |old(Data(output))| then None else Some(old(Data(output))[..count])
      ensures Data(output) == (if popped.None? then old(Data(output)) else old(Data(output))[count..])
      ensures Data(!output) == old(Data(!output))
    {
      var data := Data(output);
      if count > |data| { return None; }
      if output { streaming := data[count..]; } else { storage := data[count..]; }
      return Some(data[..count]);
    }
  }

  class BufferedStreamWalker {
    const selector: Selector
    const engine: StorageEngine
    var offset: int
    var count: int

    constructor (selector: Selector, engine: StorageEngine, skipAll: bool)
      requires selector.Buffered()
      ensures this.selector == selector && this.engine == engine
      ensures View() == NewWalker(Log(engine.storage, engine.streaming, []), selector, skipAll)
    {
      this.selector, this.engine := selector, engine;
      offset, count := 0, 0;
      new;
      var data := engine.Data(selector.Output());
      if skipAll {
        offset := |data|;
      } else {
        assert data[0..] == data;
        var n := engine.CountMatching(selector, 0);
        if n.Some? { count := n.value; }
      }
    }

    ghost function View(): Walker
      reads this
    {
      Walker(selector, offset, count)
    }

    function Data(): seq<Reading>
      reads this, engine
    {
      engine.Data(selector.Output())
    }

    /** Hand out the next matching reading and move behind it. */
    method Pop() returns (r: Option<Reading>)
      modifies this
      ensures (r, View()) == ReadingLog.Pop(old(View()), Data())
    {
      if count == 0 { return None; }
      while true
        invariant count == old(count)
        invariant Scan(Data(), selector, offset) == Scan(Data(), selector, old(offset))
        decreases |Data()| - offset
      {
        r := Get(Data(), offset);
        if r.None? { return; }
        offset := offset + 1;
        if Sees(selector, r.value) {
          count := count - 1;
          return;
        }
      }
    }

    /** The next matching reading, without moving. */
    method Peek() returns (r: Option<Reading>)
      ensures r == ReadingLog.Peek(View(), Data())
    {
      if count == 0 { return None; }
      var at := offset;
      while true
        invariant Scan(Data(), selector, at).0 == Scan(Data(), selector, offset).0
        decreases |Data()| - at
      {
        r := Get(Data(), at);
        if r.None? { return; }
        at := at + 1;
        if Sees(selector, r.value) { return; }
      }
    }

    method SkipAll()
      modifies this
      ensures View() == ReadingLog.SkipAll(old(View()), Data())
    {
      offset, count := |Data()|, 0;
    }

    method SeekOffset(value: int) returns (r: Option<bool>)
      requires selector.Buffered()
      modifies this
      ensures (View(), r) == ReadingLog.SeekOffset(old(View()), Data(), value)
    {
      if value >= |Data()| { return None; }
      offset := value;
      var n := engine.CountMatching(selector, offset);
      if n.None? { return None; }
      count := n.value;
      return Some(Sees(selector, Get(Data(), offset).value));
    }

    method SeekId(id: nat) returns (r: Option<bool>)
      requires selector.Buffered()
      modifies this
      ensures (View(), r) == ReadingLog.SeekId(old(View()), Data(), id)
    {
      var at := 0;
      while at < |Data()| && Data()[at].id != id
        invariant at <= |Data()| && forall k | 0 <= k < at :: Data()[k].id != id
      {
        at := at + 1;
      }
      ghost var found := FindId(Data(), id);
      if at == |Data()| { return None; }
      r := SeekOffset(at);
    }

    method NotifyAdded(s: DataStream)
      modifies this
      ensures View() == ReadingLog.NotifyAdded(old(View()), s)
    {
      if selector.Matches(s) { count := count + 1; }
    }

    method NotifyRollover(s: DataStream) returns (ok: bool)
      modifies this
      ensures ReadingLog.NotifyRollover(old(View()), s) == if ok then Some(View()) else None
      ensures !ok ==> View() == old(View()).(offset := old(offset) - 1)
    {
      offset := offset - 1;
      if !selector.Matches(s) { return true; }
      if count == 0 { return false; }
      count := count - 1;
      return true;
    }
  }

  /** Counting past one reading. */
  lemma FromNext(data: seq<Reading>, i: int)
    requires -|data| <= i < |data|
    ensures From(data, i).Some? && From(data, i + 1).Some?
    ensures From(data, i).value == [if i < 0 then data[|data| + i] else data[i]] + From(data, i + 1).value
  {
    if i < -1 {
      assert data[|data| + i..] == [data[|data| + i]] + data[|data| + i + 1..];
    } else if i == -1 {
      assert data[|data| - 1..] == [data[|data| - 1]] && data[0..] == data;
    }
  }

  lemma EraseOneNext(ws: seq<Walker>, ws': seq<Walker>, r: Reading, output: bool, j: nat, ok: bool)
    requires j < |ws| && (ws', ok) == EraseStep(ws, r, output, j)
    ensures EraseOne(ws, r, output, j) == if ok then EraseOne(ws', r, output, j + 1) else (ws', false)
  {
  }

  ghost function Views(ws: seq<BufferedStreamWalker>): (r: seq<Walker>)
    reads ws
    ensures |r| == |ws| && forall i | 0 <= i < |ws| :: r[i] == ws[i].View()
  {
    if ws == [] then [] else Views(ws[..|ws| - 1]) + [ws[|ws| - 1].View()]
  }

  class SensorLog {
    const engine: StorageEngine
    var walkers: seq<BufferedStreamWalker>
    var rolloverStorage: bool
    var rolloverStreaming: bool
    const eraseSize: nat

    ghost predicate Valid()
      reads this, walkers
    {
      && (forall i, j | 0 <= i < j < |walkers| :: walkers[i] != walkers[j])
      && (forall i | 0 <= i < |walkers| :: walkers[i].engine == engine)
    }

    ghost function View(): Log
      reads this, engine, walkers
    {
      Log(engine.storage, engine.streaming, Views(walkers))
    }

    function Settings(): Config
      reads this
    {
      Config(engine.storageLength, engine.streamingLength, rolloverStorage, rolloverStreaming, eraseSize)
    }

    constructor (engine: StorageEngine, eraseSize: nat)
      ensures Valid() && View() == Log(engine.storage, engine.streaming, [])
      ensures this.engine == engine && this.eraseSize == eraseSize && rolloverStorage && rolloverStreaming
    {
      this.engine, this.eraseSize := engine, eraseSize;
      walkers := [];
      rolloverStorage, rolloverStreaming := true, true;
    }

    /** A walker for a selector of buffered streams; others get a virtual walker, which the
        buffers do not know of. */
    method CreateWalker(sel: Selector, skipAll: bool) returns (w: BufferedStreamWalker?)
      requires Valid()
      modifies this`walkers
      ensures w != null <==> sel.Buffered()
      ensures w != null ==> fresh(w) && walkers == old(walkers) + [w]
      ensures Valid() && View() == Step(Settings(), old(View()), OpCreate(sel, skipAll)).0
    {
      if !sel.Buffered() { return null; }
      w := new BufferedStreamWalker(sel, engine, skipAll);
      walkers := walkers + [w];
      assert walkers[..|walkers| - 1] == old(walkers);
    }

    /** Tell all walkers on the buffer that a reading was added. */
    method NotifyWalkers(s: DataStream)
      requires Valid()
      modifies walkers
      ensures Valid() && Views(walkers) == NotifyAll(old(Views(walkers)), s)
    {
      ghost var was := Views(walkers);
      for i := 0 to |walkers|
        invariant Valid()
        invariant forall k | 0 <= k < |walkers| ::
                    walkers[k].View() == if k < i then NotifyAll(was, s)[k] else was[k]
      {
        if walkers[i].selector.Output() == s.Output() {
          walkers[i].NotifyAdded(s);
        }
      }
    }

    method NotifyAt(j: nat, r: Reading, output: bool) returns (ok: bool)
      requires Valid() && j < |walkers|
      modifies walkers
      ensures Valid() && (Views(walkers), ok) == EraseStep(old(Views(walkers)), r, output, j)
    {
      if walkers[j].selector.Output() != output { return true; }
      ok := walkers[j].NotifyRollover(Decode(r.stream));
      assert Views(walkers) == old(Views(walkers))[j := walkers[j].View()];
    }

    /** Tell the walkers on the buffer that a reading was overwritten. */
    method NotifyErased(r: Reading, output: bool) returns (ok: bool)
      requires Valid()
      modifies walkers
      ensures Valid() && (Views(walkers), ok) == EraseOne(old(Views(walkers)), r, output, 0)
    {
      ghost var result := EraseOne(Views(walkers), r, output, 0);
      for j := 0 to |walkers|
        invariant Valid() && EraseOne(Views(walkers), r, output, j) == result
      {
        ghost var before := Views(walkers);
        ok := NotifyAt(j, r, output);
        EraseOneNext(before, Views(walkers), r, output, j, ok);
        if !ok { return; }
      }
      ok := true;
    }

    method NotifyAllErased(erased: seq<Reading>, output: bool) returns (ok: bool)
      requires Valid()
      modifies walkers
      ensures Valid() && (Views(walkers), ok) == EraseAll(old(Views(walkers)), erased, output)
    {
      ghost var was := Views(walkers);
      for i := 0 to |erased|
        invariant Valid()
        invariant EraseAll(Views(walkers), erased[i..], output) == EraseAll(was, erased, output)
      {
        assert erased[i..][0] == erased[i] && erased[i..][1..] == erased[i + 1..];
        ok := NotifyErased(erased[i], output);
        if !ok { return; }
      }
      ok := true;
    }

    /** Remove the oldest readings of a buffer, if there are so many. */
    method TakeOldest(output: bool) returns (erased: Option<seq<Reading>>)
      requires Valid()
      modifies engine
      ensures Valid() && (erased.None? <==> eraseSize > |old(View()).Area(output)|)
      ensures erased.None? ==> View() == old(View())
      ensures erased.Some? ==>
                && erased.value == old(View()).Area(output)[..eraseSize]
                && View() == old(View()).WithArea(output, old(View()).Area(output)[eraseSize..])
    {
      erased := engine.Popn(output, eraseSize);
      assert engine.Data(true) == engine.streaming && engine.Data(false) == engine.storage;
    }

    /** Make room by erasing the oldest readings of a buffer. */
    method EraseBuffer(output: bool) returns (result: PushResult)
      requires Valid()
      modifies engine, walkers
      ensures Valid() && (View(), result) == Erase(Settings(), old(View()), output)
    {
      var erased := TakeOldest(output);
      if erased.None? { return NotEnough; }
      var ok := NotifyAllErased(erased.value, output);
      result := if ok then Pushed else OutOfSync;
    }

    /** Put a reading into its area if there is room. */
    method Keep(r: Reading) returns (ok: bool)
      requires Valid()
      modifies engine
      ensures Valid() && (ok <==> !Full(Settings(), old(View()), r))
      ensures var output := Decode(r.stream).Output();
              View() == if ok then old(View()).WithArea(output, old(View()).Area(output) + [r]) else old(View())
    {
      ok := engine.Push(r);
      assert engine.Data(true) == engine.streaming && engine.Data(false) == engine.storage;
    }

    /** Store a reading if there is room, and tell the walkers. */
    method Store(r: Reading, s: DataStream) returns (ok: bool)
      requires Valid()
      modifies engine, walkers
      ensures Valid() && (ok <==> !Full(Settings(), old(View()), r))
      ensures View() == if ok then Add(old(View()), r, s) else old(View())
    {
      ok := Keep(r);
      if ok { NotifyWalkers(s); }
    }

    /** Push a reading into a buffered stream, overwriting the oldest readings of a full
        buffer if that is allowed. */
    method Push(s: DataStream, id: nat, value: int) returns (result: PushResult)
      requires Valid()
      modifies engine, walkers
      ensures Valid() && (View(), result) == LogRuns.Push(Settings(), old(View()), s, id, value)
    {
      if !s.Buffered() { return Pushed; }
      var r := Reading(s.Encode(), id, value);
      var stored := Store(r, s);
      if !stored {
        if !Settings().Rollover(s.Output()) { return StorageFull; }
        result := EraseBuffer(s.Output());
        if result != Pushed { return; }
        stored := Store(r, s);
        if !stored { return StorageFull; }
      }
      result := Pushed;
    }

    /** Throw all readings away and skip all walkers. */
    method Clear()
      requires Valid()
      modifies engine, walkers
      ensures Valid()
      ensures engine.storage == [] && engine.streaming == []
      ensures forall i | 0 <= i < |walkers| :: walkers[i].View() == ReadingLog.SkipAll(old(walkers[i].View()), [])
    {
      engine.storage, engine.streaming := [], [];
      for i := 0 to |walkers|
        invariant Valid() && engine.storage == [] && engine.streaming == []
        invariant forall k | 0 <= k < |walkers| ::
                    walkers[k].View() ==
                    if k < i then ReadingLog.SkipAll(old(walkers[k].View()), []) else old(walkers[k].View())
      {
        walkers[i].SkipAll();
      }
    }
  }
}
