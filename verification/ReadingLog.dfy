/** The shared log of readings and the cached positions of the walkers on it, as values.
    A walker keeps only an offset into its area of the log and the number of readings
    it expects there; both are adjusted when readings are added or overwritten. */
module ReadingLog {
  import opened Streams

  datatype Reading = Reading(stream: nat, id: nat, value: int)

  predicate Sees(sel: Selector, r: Reading) { sel.Matches(Decode(r.stream)) }

  /** The readings that the selector matches, in order. */
  function Matching(data: seq<Reading>, sel: Selector): seq<Reading> {
    if data == [] then []
    else if Sees(sel, data[0]) then [data[0]] + Matching(data[1..], sel)
    else Matching(data[1..], sel)
  }

  lemma {:induction false} MatchingAppend(p: seq<Reading>, q: seq<Reading>, sel: Selector)
    ensures Matching(p + q, sel) == Matching(p, sel) + Matching(q, sel)
  {
    if p == [] {
      assert p + q == q;
    } else {
      MatchingAppend(p[1..], q, sel);
      assert (p + q)[1..] == p[1..] + q;
    }
  }

  // ----- One walker -----------------------------------------------------------

  datatype Walker = Walker(sel: Selector, offset: int, count: int)

  /** The walker's cache agrees with a scan of its area. */
  ghost predicate Synced(w: Walker, data: seq<Reading>) {
    0 <= w.offset <= |data| && w.count == |Matching(data[w.offset..], w.sel)|
  }

  /** The readings that are waiting for the walker. */
  function Waiting(w: Walker, data: seq<Reading>): seq<Reading>
    requires 0 <= w.offset <= |data|
  {
    Matching(data[w.offset..], w.sel)
  }

  /** Reading at an offset: an offset past the end fails, a negative one counts from
      the end. */
  function Get(data: seq<Reading>, offset: int): Option<Reading> {
    if offset >= |data| then None
    else if offset >= 0 then Some(data[offset])
    else if |data| + offset >= 0 then Some(data[|data| + offset])
    else None
  }

  /** The loop of pop and peek: step over readings of other streams; returns the reading
      found and the offset the loop stops at. */
  function Scan(data: seq<Reading>, sel: Selector, offset: int): (Option<Reading>, int)
    decreases |data| - offset
  {
    match Get(data, offset)
    case None => (None, offset)
    case Some(r) => if Sees(sel, r) then (Some(r), offset + 1) else Scan(data, sel, offset + 1)
  }

  function Pop(w: Walker, data: seq<Reading>): (Option<Reading>, Walker) {
    if w.count == 0 then (None, w)
    else
      var (r, offset) := Scan(data, w.sel, w.offset);
      (r, w.(offset := offset, count := if r.Some? then w.count - 1 else w.count))
  }

  function Peek(w: Walker, data: seq<Reading>): Option<Reading> {
    if w.count == 0 then None else Scan(data, w.sel, w.offset).0
  }

  /** The scan stops at the first matching reading at or past the offset. */
  lemma {:induction false} ScanFindsFirst(data: seq<Reading>, sel: Selector, offset: int)
    requires 0 <= offset <= |data|
    ensures var (r, next) := Scan(data, sel, offset);
            var m := Matching(data[offset..], sel);
            && offset <= next <= |data|
            && (if m == [] then r == None && next == |data|
                else r == Some(m[0]) && Matching(data[next..], sel) == m[1..])
    decreases |data| - offset
  {
    if offset < |data| {
      assert data[offset..][1..] == data[offset + 1..];
      if !Sees(sel, data[offset]) { ScanFindsFirst(data, sel, offset + 1); }
    }
  }

  /** pop on a walker that agrees with the log hands out the first waiting reading and
      leaves the others; with nothing waiting it fails and changes nothing. */
  lemma PopTakesFirst(w: Walker, data: seq<Reading>)
    requires Synced(w, data)
    ensures var (r, w') := Pop(w, data);
            && Synced(w', data) && w'.sel == w.sel
            && (if Waiting(w, data) == [] then r == None && w' == w
                else r == Some(Waiting(w, data)[0]) && Waiting(w', data) == Waiting(w, data)[1..])
    ensures Peek(w, data) == Pop(w, data).0
  {
    ScanFindsFirst(data, w.sel, w.offset);
  }

  function SkipAll(w: Walker, data: seq<Reading>): Walker {
    w.(offset := |data|, count := 0)
  }

  function NotifyAdded(w: Walker, s: DataStream): Walker {
    if w.sel.Matches(s) then w.(count := w.count + 1) else w
  }

  lemma AddedKeepsSync(w: Walker, data: seq<Reading>, r: Reading, s: DataStream)
    requires Synced(w, data) && Decode(r.stream) == s
    ensures Synced(NotifyAdded(w, s), data + [r])
    ensures Waiting(NotifyAdded(w, s), data + [r]) ==
            Waiting(w, data) + if w.sel.Matches(s) then [r] else []
  {
    assert (data + [r])[w.offset..] == data[w.offset..] + [r];
    MatchingAppend(data[w.offset..], [r], w.sel);
    assert Matching([], w.sel) == [];
    assert [r][1..] == [];
  }

  // ----- Rollover ----------------------------------------------------------------

  /** The adjustment for one overwritten reading; None when it is found out of step. */
  function NotifyRollover(w: Walker, s: DataStream): Option<Walker> {
    if !w.sel.Matches(s) then Some(w.(offset := w.offset - 1))
    else if w.count == 0 then None
    else Some(w.(offset := w.offset - 1, count := w.count - 1))
  }

  function Rollover(w: Walker, erased: seq<Reading>): Option<Walker>
    decreases |erased|
  {
    if erased == [] then Some(w)
    else
      match NotifyRollover(w, Decode(erased[0].stream))
      case None => None
      case Some(w') => Rollover(w', erased[1..])
  }

  lemma {:induction false} RolloverResult(w: Walker, erased: seq<Reading>)
    requires w.count >= 0
    ensures Rollover(w, erased).None? <==> w.count < |Matching(erased, w.sel)|
    ensures Rollover(w, erased).Some? ==>
              Rollover(w, erased).value ==
              w.(offset := w.offset - |erased|, count := w.count - |Matching(erased, w.sel)|)
    decreases |erased|
  {
    if erased != [] {
      var r := NotifyRollover(w, Decode(erased[0].stream));
      if r.Some? { RolloverResult(r.value, erased[1..]); }
    }
  }

  lemma {:induction false} NothingMatches(data: seq<Reading>, sel: Selector)
    ensures Matching(data, sel) == [] <==> forall i | 0 <= i < |data| :: !Sees(sel, data[i])
  {
    if data != [] {
      NothingMatches(data[1..], sel);
      if Matching(data, sel) == [] {
        assert forall i | 0 < i < |data| :: data[i] == data[1..][i - 1];
      }
    }
  }

  lemma NothingMatchesBefore(data: seq<Reading>, sel: Selector, k: nat)
    requires k <= |data|
    ensures |Matching(data[..k], sel)| == 0 <==> forall i | 0 <= i < k :: !Sees(sel, data[i])
  {
    NothingMatches(data[..k], sel);
    assert forall i | 0 <= i < k :: data[..k][i] == data[i];
  }

  /** The adjustment when all erased readings were counted. */
  lemma RolledBack(w: Walker, data: seq<Reading>, k: nat, own: nat, w': Walker)
    requires Synced(w, data) && k <= |data| && own == |Matching(data[..k], w.sel)|
    requires w' == w.(offset := w.offset - k, count := w.count - own)
    ensures Synced(w', data[k..]) <==> k <= w.offset && own == 0
  {
    if k <= w.offset { DroppedTwice(data, k, w.offset); }
  }

  lemma DroppedTwice(data: seq<Reading>, k: nat, n: nat)
    requires k <= n <= |data|
    ensures data[k..][n - k..] == data[n..]
  {
  }

  /** Overwriting the k oldest readings keeps a walker in agreement with the log exactly
      when it had passed all of them and none of them was one of its own; otherwise it
      fails on the spot or is out of step afterwards. */
  lemma RolloverKeepsSyncIff(w: Walker, data: seq<Reading>, k: nat)
    requires Synced(w, data) && k <= |data|
    ensures (Rollover(w, data[..k]).Some? && Synced(Rollover(w, data[..k]).value, data[k..])) <==>
            (k <= w.offset && forall i | 0 <= i < k :: !Sees(w.sel, data[i]))
  {
    var own := |Matching(data[..k], w.sel)|;
    RolloverResult(w, data[..k]);
    NothingMatchesBefore(data, w.sel, k);
    RolledBack(w, data, k, own, w.(offset := w.offset - k, count := w.count - own));
  }

  /** A walker that has read everything, some of it overwritten: the overwrite of the
      first reading it has already popped is reported as an internal error. */
  lemma DrainedWalkerFails(w: Walker, data: seq<Reading>, k: nat)
    requires Synced(w, data) && Waiting(w, data) == [] && k <= |data|
    requires exists i :: 0 <= i < k && Sees(w.sel, data[i])
    ensures Rollover(w, data[..k]) == None
  {
    RolloverResult(w, data[..k]);
    NothingMatchesBefore(data, w.sel, k);
  }

  /** The adjustment that clamps the offset at 0 and counts only overwritten readings
      that the walker had not passed. */
  function ClampedRollover(w: Walker, erased: seq<Reading>): Walker
    decreases |erased|
  {
    if erased == [] then w
    else
      ClampedRollover(
        if w.offset > 0 then w.(offset := w.offset - 1)
        else if Sees(w.sel, erased[0]) then w.(count := w.count - 1)
        else w,
        erased[1..])
  }

  lemma {:induction false} ClampedResult(w: Walker, erased: seq<Reading>)
    requires w.offset >= 0
    ensures var passed := if w.offset > |erased| then |erased| else w.offset;
            ClampedRollover(w, erased) ==
            w.(offset := w.offset - passed, count := w.count - |Matching(erased[passed..], w.sel)|)
    decreases |erased|
  {
    if erased == [] {
    } else if w.offset > 0 {
      var w' := w.(offset := w.offset - 1);
      ClampedResult(w', erased[1..]);
      var passed := if w'.offset > |erased| - 1 then |erased| - 1 else w'.offset;
      assert erased[1..][passed..] == erased[passed + 1..];
    } else {
      ClampedResult(if Sees(w.sel, erased[0]) then w.(count := w.count - 1) else w, erased[1..]);
      assert erased[0..] == erased && erased[1..][0..] == erased[1..];
    }
  }

  lemma ClampedPast(w: Walker, data: seq<Reading>, k: nat, w': Walker)
    requires Synced(w, data) && k <= w.offset && w' == w.(offset := w.offset - k)
    ensures Synced(w', data[k..]) && Waiting(w', data[k..]) == Matching(data[w.offset..], w.sel)
  {
    DroppedTwice(data, k, w.offset);
  }

  lemma ClampedInside(w: Walker, data: seq<Reading>, k: nat, own: seq<Reading>, w': Walker)
    requires Synced(w, data) && w.offset <= k <= |data| && own == data[w.offset..k]
    requires w' == w.(offset := 0, count := w.count - |Matching(own, w.sel)|)
    ensures Synced(w', data[k..]) && Waiting(w', data[k..]) == Matching(data[k..], w.sel)
  {
    assert own + data[k..] == data[w.offset..];
    MatchingAppend(own, data[k..], w.sel);
    assert data[k..][0..] == data[k..];
  }

  /** It always keeps the walker in agreement, and of the waiting readings exactly the
      overwritten ones are lost. */
  lemma ClampedRolloverKeepsSync(w: Walker, data: seq<Reading>, k: nat)
    requires Synced(w, data) && k <= |data|
    ensures var w' := ClampedRollover(w, data[..k]);
            && Synced(w', data[k..])
            && Waiting(w', data[k..]) == Matching(data[if w.offset > k then w.offset else k..], w.sel)
  {
    var w' := ClampedRollover(w, data[..k]);
    ClampedResult(w, data[..k]);
    if w.offset > k {
      assert data[..k][k..] == [] && Matching([], w.sel) == [];
      ClampedPast(w, data, k, w');
    } else {
      assert data[..k][w.offset..] == data[w.offset..k];
      ClampedInside(w, data, k, data[w.offset..k], w');
    }
  }

  // ----- Moving a walker -----------------------------------------------------------

  /** What counting from an offset on goes through: a negative offset counts from the end
      and then goes through the whole area; one too far back is an error. */
  function From(data: seq<Reading>, offset: int): Option<seq<Reading>> {
    if offset >= |data| then Some([])
    else if offset >= 0 then Some(data[offset..])
    else if |data| + offset >= 0 then Some(data[|data| + offset..] + data)
    else None
  }

  lemma AheadNext(data: seq<Reading>, offset: int, ahead: seq<Reading>)
    requires From(data, offset) == Some(ahead) && ahead != []
    ensures Get(data, offset) == Some(ahead[0]) && From(data, offset + 1) == Some(ahead[1..])
  {
    if offset >= 0 {
      assert ahead[1..] == data[offset + 1..];
    } else {
      var last := data[|data| + offset..];
      assert ahead == last + data && ahead[1..] == last[1..] + data;
      assert last[1..] == if offset == -1 then [] else data[|data| + offset + 1..];
      assert data[0..] == data && [] + data == data;
    }
  }

  lemma {:induction false} ScanGoesOn(data: seq<Reading>, sel: Selector, offset: int, ahead: seq<Reading>, k: nat)
    requires From(data, offset) == Some(ahead) && k <= |ahead|
    requires forall i | 0 <= i < k :: !Sees(sel, ahead[i])
    requires k < |ahead| ==> Sees(sel, ahead[k])
    ensures Scan(data, sel, offset) == if k < |ahead| then (Some(ahead[k]), offset + k + 1) else (None, offset + k)
    decreases k
  {
    if ahead != [] {
      AheadNext(data, offset, ahead);
      if k > 0 {
        forall i | 0 <= i < k - 1 ensures !Sees(sel, ahead[1..][i]) { assert ahead[1..][i] == ahead[i + 1]; }
        ScanGoesOn(data, sel, offset + 1, ahead[1..], k - 1);
      }
    }
  }

  /** pop on any walker that counts something, in agreement with the log or not, goes on to the first
      matching reading and counts it; or to the end, without counting; or nowhere when it is too far
      before the first reading. */
  lemma PopOfAnyWalker(w: Walker, data: seq<Reading>, ahead: seq<Reading>, k: nat)
    requires w.count != 0
    requires From(data, w.offset) == Some(ahead) && k <= |ahead|
    requires forall i | 0 <= i < k :: !Sees(w.sel, ahead[i])
    requires k < |ahead| ==> Sees(w.sel, ahead[k])
    ensures Pop(w, data) ==
            if k < |ahead| then (Some(ahead[k]), Walker(w.sel, w.offset + k + 1, w.count - 1))
            else (None, Walker(w.sel, w.offset + k, w.count))
  {
    ScanGoesOn(data, w.sel, w.offset, ahead, k);
  }

  lemma PopOfLostWalker(w: Walker, data: seq<Reading>)
    requires w.count == 0 || From(data, w.offset) == None
    ensures Pop(w, data) == (None, w)
  {
  }

  /** Seeking to an offset: fails past the last reading, otherwise recounts.  An offset too
      far before the end fails as well, but the walker has been moved. */
  function SeekOffset(w: Walker, data: seq<Reading>, offset: int): (Walker, Option<bool>) {
    if offset >= |data| then (w, None)
    else
      match From(data, offset)
      case None => (w.(offset := offset), None)
      case Some(rest) =>
        (w.(offset := offset, count := |Matching(rest, w.sel)|), Some(Sees(w.sel, Get(data, offset).value)))
  }

  /** The offset of the first reading with an id. */
  function FindId(data: seq<Reading>, id: nat): (r: Option<nat>)
    ensures r.Some? ==> r.value < |data| && data[r.value].id == id && forall k | 0 <= k < r.value :: data[k].id != id
    ensures r.None? ==> forall k | 0 <= k < |data| :: data[k].id != id
  {
    if data == [] then None
    else if data[0].id == id then Some(0)
    else
      var r := FindId(data[1..], id);
      assert data == [data[0]] + data[1..];
      if r.None? then None else Some(r.value + 1)
  }

  function SeekId(w: Walker, data: seq<Reading>, id: nat): (Walker, Option<bool>) {
    var at := FindId(data, id);
    if at.None? then (w, None) else SeekOffset(w, data, at.value)
  }

  /** What seeking does in every case: an offset past the last reading leaves the walker where it is, one
      too far back moves it without a new count, and others give it the count of the matching readings
      that are ahead; it tells whether the first of these matches. */
  lemma SeekExactly(w: Walker, data: seq<Reading>, offset: int, ahead: seq<Reading>)
    requires 0 <= offset < |data| ==> ahead == data[offset..]
    requires -|data| <= offset < 0 ==> ahead == data[|data| + offset..] + data
    ensures offset >= |data| ==> SeekOffset(w, data, offset) == (w, None)
    ensures offset < -|data| ==> SeekOffset(w, data, offset) == (Walker(w.sel, offset, w.count), None)
    ensures -|data| <= offset < |data| ==>
              && ahead != []
              && SeekOffset(w, data, offset) ==
                 (Walker(w.sel, offset, |Matching(ahead, w.sel)|), Some(Sees(w.sel, ahead[0])))
  {
  }

  /** An id is looked for from the oldest reading on, and without a reading of it nothing changes. */
  lemma SeekIdExactly(w: Walker, data: seq<Reading>, id: nat)
    ensures (forall i | 0 <= i < |data| :: data[i].id != id) ==> SeekId(w, data, id) == (w, None)
    ensures forall k | 0 <= k < |data| && data[k].id == id && (forall i | 0 <= i < k :: data[i].id != id) ::
              SeekId(w, data, id) == SeekOffset(w, data, k)
  {
    var at := FindId(data, id);
    if at.Some? { assert data[at.value].id == id; }
  }

  /** Seeking leaves a walker in agreement with the log exactly when the offset is that of a
      reading, or when it is past the end and the walker was in agreement. */
  lemma SeekKeepsSyncIff(w: Walker, data: seq<Reading>, offset: int)
    ensures Synced(SeekOffset(w, data, offset).0, data) <==>
            0 <= offset && (offset >= |data| ==> Synced(w, data))
  {
  }

  /** Restoring a walker's own saved offset puts it back where it was - unless nothing
      is left past that offset in its area, when restoring fails. */
  lemma RestoreSavedOffset(w: Walker, data: seq<Reading>, other: Walker)
    requires Synced(w, data) && other.sel == w.sel
    ensures w.offset < |data| ==> SeekOffset(other, data, w.offset).0 == w && SeekOffset(other, data, w.offset).1.Some?
    ensures w.offset == |data| <==> SeekOffset(other, data, w.offset).1.None?
  {
  }

  /** Seeking the id of a waiting reading that no earlier reading shares makes it the next
      one, with the readings after it. */
  lemma SeekIdFindsReading(w: Walker, data: seq<Reading>, k: nat)
    requires k < |data| && forall j | 0 <= j < k :: data[j].id != data[k].id
    ensures var (w', exact) := SeekId(w, data, data[k].id);
            && Synced(w', data) && w'.offset == k
            && exact == Some(Sees(w.sel, data[k]))
            && (exact == Some(true) ==> Pop(w', data).0 == Some(data[k]))
  {
    assert FindId(data, data[k].id) == Some(k);
    var w' := SeekId(w, data, data[k].id).0;
    ScanFindsFirst(data, w.sel, k);
    if Sees(w.sel, data[k]) { assert Matching(data[k..], w.sel) != []; }
  }
}
