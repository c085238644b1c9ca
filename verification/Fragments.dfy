/** Scripts cut into fragments by a device adapter and put together again by a gateway. */
module Fragments {
  import opened Bytes
  import opened Basics

  datatype Fragment = Fragment(index: nat, count: nat, chunk: seq<byte>)

  // ----- Cutting ------------------------------------------------------------------------

  function Chunks(length: nat, mtu: nat): (n: nat)
    requires mtu > 0
    ensures n > 0
  {
    if length > mtu then length / mtu + if length % mtu != 0 then 1 else 0 else 1
  }

  function Capped(x: nat, length: nat): (y: nat)
    ensures y <= length && y <= x
  {
    if x < length then x else length
  }

  /** The fragment at position i; past the end it would be empty. */
  function Cut(data: seq<byte>, mtu: nat, i: nat): Fragment
    requires mtu > 0
  {
    Fragment(i, Chunks(|data|, mtu), data[Capped(i * mtu, |data|)..Capped(i * mtu + mtu, |data|)])
  }

  /** The first k fragments of a script. */
  function FirstCuts(data: seq<byte>, mtu: nat, k: nat): (fragments: seq<Fragment>)
    requires mtu > 0
    ensures |fragments| == k
  {
    if k == 0 then [] else FirstCuts(data, mtu, k - 1) + [Cut(data, mtu, k - 1)]
  }

  function AllCuts(data: seq<byte>, mtu: nat): seq<Fragment>
    requires mtu > 0
  {
    FirstCuts(data, mtu, Chunks(|data|, mtu))
  }

  /** The fragments reach to the end of the script, and the last one is needed for that. */
  lemma ChunksCover(length: nat, mtu: nat)
    requires mtu > 0
    ensures Chunks(length, mtu) * mtu >= length
    ensures Chunks(length, mtu) > 1 ==> (Chunks(length, mtu) - 1) * mtu < length
  {
    var q, r := length / mtu, length % mtu;
    assert length == q * mtu + r;
    assert (q + 1) * mtu == q * mtu + mtu;
    if length > mtu && r == 0 {
      assert (q - 1) * mtu == q * mtu - mtu;
    }
  }

  lemma {:induction false} FirstCutsAt(data: seq<byte>, mtu: nat, k: nat, i: nat)
    requires mtu > 0 && i < k
    ensures FirstCuts(data, mtu, k)[i] == Cut(data, mtu, i)
  {
    if i < k - 1 { FirstCutsAt(data, mtu, k - 1, i); }
  }

  /** The last fragment holds what the others leave. */
  lemma LastCut(data: seq<byte>, mtu: nat)
    requires mtu > 0
    ensures var n := Chunks(|data|, mtu);
            && n * mtu == (n - 1) * mtu + mtu
            && Cut(data, mtu, n - 1).chunk == data[Capped((n - 1) * mtu, |data|)..]
            && (n == 1 ==> Cut(data, mtu, 0).chunk == data)
  {
    var n := Chunks(|data|, mtu);
    ChunksCover(|data|, mtu);
    assert n * mtu == (n - 1) * mtu + mtu;
    assert Capped((n - 1) * mtu + mtu, |data|) == |data|;
  }

  // ----- Putting together -----------------------------------------------------------------

  /** What has been gathered of a script, the scripts passed on to the device, and how many of
      these are still being sent. */
  datatype Gateway = Gateway(gathered: seq<byte>, scripts: seq<seq<byte>>, sending: nat)

  const START := Gateway([], [], 0)

  /** A fragment comes, or sending a script ends, with an error raised or not; other fragments
      may come while a script is being sent. */
  datatype Act = Take(fragment: Fragment) | SendEnded(raised: bool)

  predicate IsLast(f: Fragment) { f.index + 1 == f.count }

  /** Take one fragment; the last one passes the script on. */
  function Accept(g: Gateway, f: Fragment): Gateway {
    var gathered := (if f.index == 0 then [] else g.gathered) + f.chunk;
    if !IsLast(f) then g.(gathered := gathered)
    else Gateway(gathered, g.scripts + [gathered], g.sending + 1)
  }

  /** A send that ends without an error clears what has been gathered by then. */
  function EndSend(g: Gateway, raised: bool): Gateway {
    if g.sending == 0 then g
    else g.(sending := g.sending - 1, gathered := if raised then g.gathered else [])
  }

  function Do(g: Gateway, a: Act): Gateway {
    match a
    case Take(f) => Accept(g, f)
    case SendEnded(raised) => EndSend(g, raised)
  }

  function DoAll(g: Gateway, acts: seq<Act>): Gateway {
    if acts == [] then g else Do(DoAll(g, acts[..|acts| - 1]), acts[|acts| - 1])
  }

  /** The fragments that come, in order. */
  function TakesOf(acts: seq<Act>): (fragments: seq<Fragment>)
    ensures |fragments| <= |acts|
  {
    if acts == [] then []
    else
      var a := acts[|acts| - 1];
      TakesOf(acts[..|acts| - 1]) + if a.Take? then [a.fragment] else []
  }

  lemma DoOne(g: Gateway, acts: seq<Act>, a: Act)
    ensures DoAll(g, acts + [a]) == Do(DoAll(g, acts), a)
    ensures TakesOf(acts + [a]) == TakesOf(acts) + if a.Take? then [a.fragment] else []
  {
    assert (acts + [a])[..|acts|] == acts;
  }

  lemma {:induction false} DoInTwo(g: Gateway, p: seq<Act>, q: seq<Act>)
    ensures DoAll(g, p + q) == DoAll(DoAll(g, p), q)
  {
    if q == [] {
      assert p + q == p;
    } else {
      var front, a := q[..|q| - 1], q[|q| - 1];
      DoInTwo(g, p, front);
      assert q == front + [a];
      Associative(p, front, [a]);
      DoOne(g, p + front, a);
      DoOne(DoAll(g, p), front, a);
    }
  }

  lemma {:induction false} TakesInTwo(p: seq<Act>, q: seq<Act>)
    ensures TakesOf(p + q) == TakesOf(p) + TakesOf(q)
  {
    if q == [] {
      assert p + q == p;
    } else {
      var front, a := q[..|q| - 1], q[|q| - 1];
      TakesInTwo(p, front);
      assert q == front + [a];
      Associative(p, front, [a]);
      DoOne(START, p + front, a);
      DoOne(START, front, a);
      Associative(TakesOf(p), TakesOf(front), if a.Take? then [a.fragment] else []);
    }
  }

  // ----- What is passed on ------------------------------------------------------------------

  /** The act clears what has been gathered, in this state. */
  predicate Clears(g: Gateway, a: Act) { a == SendEnded(false) && g.sending > 0 }

  predicate ClearsAt(g: Gateway, acts: seq<Act>, k: nat)
    requires k < |acts|
  {
    Clears(DoAll(g, acts[..k]), acts[k])
  }

  predicate Begins(a: Act) { a.Take? && a.fragment.index == 0 }

  /** The gathering has begun anew: a fragment 0 came, or a send ended. */
  predicate Renewed(g: Gateway, acts: seq<Act>) {
    exists k | 0 <= k < |acts| :: Begins(acts[k]) || ClearsAt(g, acts, k)
  }

  /** The fragments that came since then: from the last fragment 0 on, or after the last clearing
      if that was later. */
  function Since(g: Gateway, acts: seq<Act>): seq<Fragment> {
    if acts == [] then []
    else
      var n := |acts| - 1;
      match acts[n]
      case Take(f) => (if f.index == 0 then [] else Since(g, acts[..n])) + [f]
      case SendEnded(_) => if ClearsAt(g, acts, n) then [] else Since(g, acts[..n])
  }

  function Joined(fragments: seq<Fragment>): seq<byte> {
    if fragments == [] then [] else Joined(fragments[..|fragments| - 1]) + fragments[|fragments| - 1].chunk
  }

  lemma JoinedOneMore(fragments: seq<Fragment>, f: Fragment)
    ensures Joined(fragments + [f]) == Joined(fragments) + f.chunk
  {
    assert (fragments + [f])[..|fragments|] == fragments;
  }

  /** What was there before, unless the gathering has begun anew, and what came since. */
  function Collected(g: Gateway, acts: seq<Act>): seq<byte> {
    (if Renewed(g, acts) then [] else g.gathered) + Joined(Since(g, acts))
  }

  lemma RenewedStep(g: Gateway, acts: seq<Act>)
    requires acts != []
    ensures var n := |acts| - 1;
            Renewed(g, acts) <==> Renewed(g, acts[..n]) || Begins(acts[n]) || ClearsAt(g, acts, n)
  {
    var front := acts[..|acts| - 1];
    forall k | 0 <= k < |front| ensures ClearsAt(g, front, k) <==> ClearsAt(g, acts, k) {
      assert front[..k] == acts[..k];
    }
    if Renewed(g, front) {
      var k :| 0 <= k < |front| && (Begins(front[k]) || ClearsAt(g, front, k));
      assert Begins(acts[k]) || ClearsAt(g, acts, k);
    }
    if Renewed(g, acts) && !Begins(acts[|front|]) && !ClearsAt(g, acts, |front|) {
      var k :| 0 <= k < |acts| && (Begins(acts[k]) || ClearsAt(g, acts, k));
      assert Begins(front[k]) || ClearsAt(g, front, k);
    }
  }

  lemma {:induction false} GatheredIsCollected(g: Gateway, acts: seq<Act>)
    ensures DoAll(g, acts).gathered == Collected(g, acts)
  {
    if acts != [] {
      var front, a := acts[..|acts| - 1], acts[|acts| - 1];
      GatheredIsCollected(g, front);
      RenewedStep(g, acts);
      match a
      case Take(f) => CollectedOneMore(g, front, f, acts);
      case SendEnded(_) =>
    }
  }

  lemma CollectedOneMore(g: Gateway, front: seq<Act>, f: Fragment, acts: seq<Act>)
    requires acts != [] && acts[..|acts| - 1] == front && acts[|acts| - 1] == Take(f)
    requires Renewed(g, acts) <==> Renewed(g, front) || f.index == 0
    ensures Collected(g, acts) == (if f.index == 0 then [] else Collected(g, front)) + f.chunk
  {
    var left, came := if Renewed(g, front) then [] else g.gathered, Since(g, front);
    if f.index == 0 {
      JoinedOneMore([], f);
    } else {
      JoinedOneMore(came, f);
      Associative(left, Joined(came), f.chunk);
    }
  }

  /** The act is the arrival of a last fragment. */
  predicate Passes(a: Act) { a.Take? && IsLast(a.fragment) }

  function Passed(acts: seq<Act>): nat {
    if acts == [] then 0 else Passed(acts[..|acts| - 1]) + if Passes(acts[|acts| - 1]) then 1 else 0
  }

  /** The script in the place of the last fragment at p is what has been collected with it. */
  predicate PassedAt(g: Gateway, acts: seq<Act>, scripts: seq<seq<byte>>, p: nat)
    requires p < |acts|
  {
    var at := |g.scripts| + Passed(acts[..p]);
    at < |scripts| && scripts[at] == Collected(g, acts[..p + 1])
  }

  predicate AllPassed(g: Gateway, acts: seq<Act>, scripts: seq<seq<byte>>) {
    forall p | 0 <= p < |acts| && Passes(acts[p]) :: PassedAt(g, acts, scripts, p)
  }

  lemma OnePassed(g: Gateway, acts: seq<Act>)
    requires acts != []
    ensures var front, a := acts[..|acts| - 1], acts[|acts| - 1];
            DoAll(g, acts).scripts == DoAll(g, front).scripts + if Passes(a) then [Collected(g, acts)] else []
  {
    GatheredIsCollected(g, acts);
  }

  lemma PassedAtLater(g: Gateway, acts: seq<Act>, scripts: seq<seq<byte>>, more: seq<seq<byte>>, a: Act, p: nat)
    requires p < |acts| && PassedAt(g, acts, scripts, p)
    ensures PassedAt(g, acts + [a], scripts + more, p)
  {
    assert (acts + [a])[..p] == acts[..p] && (acts + [a])[..p + 1] == acts[..p + 1];
  }

  /** However fragments come and sends end: each last fragment that comes passes on exactly one
      script, and that is what has been collected with it. */
  lemma {:induction false} PassedOn(g: Gateway, acts: seq<Act>)
    ensures g.scripts <= DoAll(g, acts).scripts && |DoAll(g, acts).scripts| == |g.scripts| + Passed(acts)
    ensures AllPassed(g, acts, DoAll(g, acts).scripts)
  {
    if acts != [] {
      var n := |acts| - 1;
      var front, scripts := acts[..n], DoAll(g, acts).scripts;
      PassedOn(g, front);
      OnePassed(g, acts);
      assert acts == front + [acts[n]];
      forall p | 0 <= p < |acts| && Passes(acts[p]) ensures PassedAt(g, acts, scripts, p) {
        if p < n {
          assert Passes(front[p]);
          PassedAtLater(g, front, DoAll(g, front).scripts, scripts[|DoAll(g, front).scripts|..], acts[n], p);
        } else {
          assert acts[..n + 1] == acts;
        }
      }
    }
  }

  /** The passed-on script at p is what is wanted in its place. */
  predicate WantedAt(g: Gateway, acts: seq<Act>, wanted: seq<seq<byte>>, p: nat)
    requires p < |acts|
  {
    Passed(acts[..p]) < |wanted| && Collected(g, acts[..p + 1]) == wanted[Passed(acts[..p])]
  }

  predicate AllWanted(g: Gateway, acts: seq<Act>, wanted: seq<seq<byte>>) {
    forall p | 0 <= p < |acts| && Passes(acts[p]) :: WantedAt(g, acts, wanted, p)
  }

  lemma WantedIfSame(g: Gateway, acts: seq<Act>, wanted: seq<seq<byte>>)
    requires DoAll(g, acts).scripts == g.scripts + wanted
    ensures Passed(acts) == |wanted| && AllWanted(g, acts, wanted)
  {
    var scripts := DoAll(g, acts).scripts;
    PassedOn(g, acts);
    forall p | 0 <= p < |acts| && Passes(acts[p]) ensures WantedAt(g, acts, wanted, p) {
      assert PassedAt(g, acts, scripts, p);
      assert scripts[|g.scripts| + Passed(acts[..p])] == wanted[Passed(acts[..p])];
    }
  }

  lemma SameIfWanted(g: Gateway, acts: seq<Act>, wanted: seq<seq<byte>>)
    requires Passed(acts) == |wanted| && AllWanted(g, acts, wanted)
    ensures DoAll(g, acts).scripts == g.scripts + wanted
  {
    var scripts := DoAll(g, acts).scripts;
    PassedOn(g, acts);
    var more := scripts[|g.scripts|..];
    forall j | 0 <= j < |more| ensures more[j] == wanted[j] { SameAt(g, acts, scripts, wanted, j); }
    assert more == wanted && scripts == g.scripts + more;
  }

  lemma SameAt(g: Gateway, acts: seq<Act>, scripts: seq<seq<byte>>, wanted: seq<seq<byte>>, j: nat)
    requires j < Passed(acts) == |wanted| && AllPassed(g, acts, scripts) && AllWanted(g, acts, wanted)
    ensures |g.scripts| + j < |scripts| && scripts[|g.scripts| + j] == wanted[j]
  {
    var p := PassAt(acts, j);
    assert PassedAt(g, acts, scripts, p) && WantedAt(g, acts, wanted, p);
    SamePlace(g, acts, scripts, wanted, p, j);
  }

  lemma SamePlace(g: Gateway, acts: seq<Act>, scripts: seq<seq<byte>>, wanted: seq<seq<byte>>, p: nat, j: nat)
    requires p < |acts| && Passed(acts[..p]) == j
    requires PassedAt(g, acts, scripts, p) && WantedAt(g, acts, wanted, p)
    ensures j < |wanted| && |g.scripts| + j < |scripts| && scripts[|g.scripts| + j] == wanted[j]
  {
  }

  /** So exactly these scripts are passed on if and only if that many last fragments come, and what
      has been collected at each is the script in its place. */
  lemma PassedOnIff(g: Gateway, acts: seq<Act>, wanted: seq<seq<byte>>)
    ensures DoAll(g, acts).scripts == g.scripts + wanted <==> Passed(acts) == |wanted| && AllWanted(g, acts, wanted)
  {
    if DoAll(g, acts).scripts == g.scripts + wanted { WantedIfSame(g, acts, wanted); }
    if Passed(acts) == |wanted| && AllWanted(g, acts, wanted) { SameIfWanted(g, acts, wanted); }
  }

  lemma {:induction false} PassAt(acts: seq<Act>, j: nat) returns (p: nat)
    requires j < Passed(acts)
    ensures p < |acts| && Passes(acts[p]) && Passed(acts[..p]) == j
  {
    p := |acts| - 1;
    var front := acts[..p];
    if j < Passed(front) {
      p := PassAt(front, j);
      assert front[..p] == acts[..p];
    }
  }

  // ----- One script, its fragments in any order ------------------------------------------------

  predicate IsCut(f: Fragment, data: seq<byte>, mtu: nat)
    requires mtu > 0
  {
    f.index < Chunks(|data|, mtu) && f == Cut(data, mtu, f.index)
  }

  /** Fragments of this script come, in any order, any of them any number of times or never. */
  predicate OfScript(acts: seq<Act>, data: seq<byte>, mtu: nat)
    requires mtu > 0
  {
    forall k | 0 <= k < |acts| && acts[k].Take? :: IsCut(acts[k].fragment, data, mtu)
  }

  /** The first k chunks, given at their positions. */
  predicate FirstChunks(came: seq<Fragment>, data: seq<byte>, mtu: nat, k: nat)
    requires mtu > 0
  {
    |came| == k && forall i | 0 <= i < k :: came[i].chunk == Cut(data, mtu, i).chunk
  }

  /** These fragments carry the chunks of the script, each once and in order. */
  predicate Carries(came: seq<Fragment>, data: seq<byte>, mtu: nat)
    requires mtu > 0
  {
    FirstChunks(came, data, mtu, Chunks(|data|, mtu))
  }

  /** What came since the gathering began anew carries the script; if it has not, what was there
      before has to make up for what is missing. */
  predicate Completes(g: Gateway, acts: seq<Act>, data: seq<byte>, mtu: nat)
    requires mtu > 0
  {
    if Renewed(g, acts) then Carries(Since(g, acts), data, mtu) else g.gathered + Joined(Since(g, acts)) == data
  }

  /** The last fragment comes at p and at no other time. */
  predicate OnlyAt(acts: seq<Act>, p: nat) {
    p < |acts| && Passes(acts[p]) && forall q | 0 <= q < |acts| && Passes(acts[q]) :: q == p
  }

  lemma Rejoined<T>(data: seq<T>, m: nat)
    requires m <= |data|
    ensures data[..m] + data[m..] == data
  {
  }

  lemma SameTails<T>(x: seq<T>, y: seq<T>, s: seq<T>, t: seq<T>)
    requires |s| == |t|
    ensures x + s == y + t <==> x == y && s == t
  {
    if x + s == y + t {
      assert x == (x + s)[..|x|] && y == (y + t)[..|y|];
      assert s == (x + s)[|x|..] && t == (y + t)[|y|..];
    }
  }

  /** A chunk that is not the last one has the full length. */
  lemma CutChunk(data: seq<byte>, mtu: nat, i: nat)
    requires mtu > 0 && i + 1 < Chunks(|data|, mtu)
    ensures i * mtu + mtu <= |data| && Cut(data, mtu, i).chunk == data[i * mtu..i * mtu + mtu]
  {
    var n := Chunks(|data|, mtu);
    ChunksCover(|data|, mtu);
    assert (i + 1) * mtu == i * mtu + mtu;
    assert (i + 1) * mtu <= (n - 1) * mtu;
  }

  predicate Full(came: seq<Fragment>, mtu: nat) { forall i | 0 <= i < |came| :: |came[i].chunk| == mtu }

  lemma JoinedLength(came: seq<Fragment>, mtu: nat)
    requires Full(came, mtu) && came != []
    ensures |Joined(came)| >= mtu
  {
  }

  lemma {:induction false} JoinedFullIff(came: seq<Fragment>, data: seq<byte>, mtu: nat, k: nat)
    requires mtu > 0 && Full(came, mtu) && k < Chunks(|data|, mtu)
    ensures k * mtu <= |data|
    ensures Joined(came) == data[..k * mtu] <==> FirstChunks(came, data, mtu, k)
  {
    if k == 0 {
      if came != [] { JoinedLength(came, mtu); }
    } else {
      CutChunk(data, mtu, k - 1);
      var m := (k - 1) * mtu;
      assert k * mtu == m + mtu;
      if came != [] {
        var front, c := came[..|came| - 1], came[|came| - 1].chunk;
        JoinedFullIff(front, data, mtu, k - 1);
        Rejoined(data[..m + mtu], m);
        assert data[..m + mtu][..m] == data[..m] && data[..m + mtu][m..] == data[m..m + mtu];
        SameTails(Joined(front), data[..m], c, data[m..m + mtu]);
        FirstChunksStep(came, data, mtu, k);
      }
    }
  }

  lemma FirstChunksStep(came: seq<Fragment>, data: seq<byte>, mtu: nat, k: nat)
    requires mtu > 0 && k > 0 && came != []
    ensures FirstChunks(came, data, mtu, k) <==>
            FirstChunks(came[..|came| - 1], data, mtu, k - 1) &&
            came[|came| - 1].chunk == Cut(data, mtu, k - 1).chunk
  {
    var front := came[..|came| - 1];
    assert forall i | 0 <= i < |front| :: front[i] == came[i];
  }

  /** Where the last chunk begins. */
  function LastStart(data: seq<byte>, mtu: nat): (m: nat)
    requires mtu > 0
    ensures m <= |data|
  {
    Capped((Chunks(|data|, mtu) - 1) * mtu, |data|)
  }

  predicate IsLastChunk(f: Fragment, data: seq<byte>, mtu: nat)
    requires mtu > 0
  {
    f.chunk == Cut(data, mtu, Chunks(|data|, mtu) - 1).chunk && f.chunk == data[LastStart(data, mtu)..]
  }

  lemma LastHasLastChunk(f: Fragment, data: seq<byte>, mtu: nat)
    requires mtu > 0 && IsCut(f, data, mtu) && IsLast(f)
    ensures IsLastChunk(f, data, mtu)
  {
    LastCut(data, mtu);
  }

  lemma FrontJoins(front: seq<Fragment>, data: seq<byte>, mtu: nat)
    requires mtu > 0 && Full(front, mtu)
    ensures Joined(front) == data[..LastStart(data, mtu)] <==>
            FirstChunks(front, data, mtu, Chunks(|data|, mtu) - 1)
  {
    JoinedFullIff(front, data, mtu, Chunks(|data|, mtu) - 1);
  }

  lemma JoinedWhole(front: seq<Fragment>, chunk: seq<byte>, data: seq<byte>, m: nat)
    requires m <= |data| && chunk == data[m..]
    ensures Joined(front) + chunk == data <==> Joined(front) == data[..m]
  {
    Rejoined(data, m);
    SameTails(Joined(front), data[..m], chunk, data[m..]);
  }

  /** Fragments that end with the last one carry the script if and only if they join to it. */
  lemma CarriesIff(came: seq<Fragment>, data: seq<byte>, mtu: nat)
    requires mtu > 0 && came != [] && Full(came[..|came| - 1], mtu)
    requires IsLastChunk(came[|came| - 1], data, mtu)
    ensures Joined(came) == data <==> Carries(came, data, mtu)
  {
    var n, front := Chunks(|data|, mtu), came[..|came| - 1];
    FrontJoins(front, data, mtu);
    JoinedWhole(front, came[|came| - 1].chunk, data, LastStart(data, mtu));
    FirstChunksStep(came, data, mtu, n);
  }

  lemma {:induction false} SinceFull(g: Gateway, acts: seq<Act>, data: seq<byte>, mtu: nat)
    requires mtu > 0 && OfScript(acts, data, mtu) && forall k | 0 <= k < |acts| :: !Passes(acts[k])
    ensures Full(Since(g, acts), mtu)
  {
    if acts != [] {
      var a := acts[|acts| - 1];
      SinceFull(g, acts[..|acts| - 1], data, mtu);
      if a.Take? { CutChunk(data, mtu, a.fragment.index); }
    }
  }

  lemma CollectedIff(g: Gateway, acts: seq<Act>, data: seq<byte>, mtu: nat)
    requires mtu > 0 && OfScript(acts, data, mtu) && acts != [] && OnlyAt(acts, |acts| - 1)
    ensures Collected(g, acts) == data <==> Completes(g, acts, data, mtu)
  {
    var front, f := acts[..|acts| - 1], acts[|acts| - 1].fragment;
    forall k | 0 <= k < |front| ensures !Passes(front[k]) { assert front[k] == acts[k]; }
    SinceFull(g, front, data, mtu);
    var came := Since(g, acts);
    assert came[..|came| - 1] == if f.index == 0 then [] else Since(g, front);
    LastHasLastChunk(f, data, mtu);
    CarriesIff(came, data, mtu);
  }

  lemma {:induction false} PassedInTwo(acts: seq<Act>, more: seq<Act>)
    ensures Passed(acts + more) == Passed(acts) + Passed(more)
  {
    if more == [] {
      assert acts + more == acts;
    } else {
      var n := |more| - 1;
      PassedInTwo(acts, more[..n]);
      assert (acts + more)[..|acts| + n] == acts + more[..n];
    }
  }

  lemma PassedTwice(acts: seq<Act>, p: nat, q: nat)
    requires p < q < |acts| && Passes(acts[p]) && Passes(acts[q])
    ensures Passed(acts) >= 2
  {
    assert acts == acts[..q] + acts[q..];
    PassedInTwo(acts[..q], acts[q..]);
    PassedSome(acts[..q], p);
    PassedSome(acts[q..], 0);
  }

  lemma {:induction false} PassedSome(acts: seq<Act>, p: nat)
    requires p < |acts| && Passes(acts[p])
    ensures Passed(acts) > 0
  {
    if p < |acts| - 1 { PassedSome(acts[..|acts| - 1], p); }
  }

  lemma OnlyAtCounts(acts: seq<Act>, p: nat)
    requires OnlyAt(acts, p)
    ensures Passed(acts) == 1 && Passed(acts[..p]) == 0
  {
    PassedSome(acts, p);
    if Passed(acts) > 1 {
      var q := PassAt(acts, 0);
      var r := PassAt(acts, 1);
    }
    if Passed(acts[..p]) > 0 { var q := PassAt(acts[..p], 0); }
  }

  lemma PassedOnce(acts: seq<Act>) returns (p: nat)
    requires Passed(acts) == 1
    ensures OnlyAt(acts, p)
  {
    p := PassAt(acts, 0);
    forall q | 0 <= q < |acts| && Passes(acts[q]) ensures q == p {
      if q < p { PassedTwice(acts, q, p); }
      if p < q { PassedTwice(acts, p, q); }
    }
  }

  lemma UpToOnly(acts: seq<Act>, p: nat)
    requires OnlyAt(acts, p)
    ensures OnlyAt(acts[..p + 1], p)
  {
    var front := acts[..p + 1];
    forall q | 0 <= q < |front| && Passes(front[q]) ensures q == p { assert front[q] == acts[q]; }
  }

  /** Fragments of a script come in any order, with any repetitions and losses, and sends end at any
      time: exactly this script is passed on if and only if its last fragment comes once, and what
      came since the last fragment 0, or since a send that ended later, carries all the chunks in
      order. */
  lemma ScriptPassedOnIff(g: Gateway, acts: seq<Act>, data: seq<byte>, mtu: nat)
    requires mtu > 0 && OfScript(acts, data, mtu)
    ensures DoAll(g, acts).scripts == g.scripts + [data] <==>
            exists p :: OnlyAt(acts, p) && Completes(g, acts[..p + 1], data, mtu)
  {
    PassedOn(g, acts);
    if DoAll(g, acts).scripts == g.scripts + [data] {
      var p := PassedOnce(acts);
      ScriptPassedOnAt(g, acts, p, data, mtu);
    }
    if p :| OnlyAt(acts, p) && Completes(g, acts[..p + 1], data, mtu) { ScriptPassedOnAt(g, acts, p, data, mtu); }
  }

  lemma ScriptPassedOnAt(g: Gateway, acts: seq<Act>, p: nat, data: seq<byte>, mtu: nat)
    requires mtu > 0 && OfScript(acts, data, mtu) && OnlyAt(acts, p)
    ensures DoAll(g, acts).scripts == g.scripts + [data] <==> Completes(g, acts[..p + 1], data, mtu)
  {
    PassedOnIff(g, acts, [data]);
    OnlyAtCounts(acts, p);
    UpToOnly(acts, p);
    CollectedIff(g, acts[..p + 1], data, mtu);
    assert WantedAt(g, acts, [data], p) <==> Collected(g, acts[..p + 1]) == data;
  }

  // ----- Only arrivals ---------------------------------------------------------------------------

  /** The fragments come and no send ends meanwhile. */
  function Takes(arr: seq<Fragment>): (acts: seq<Act>)
    ensures |acts| == |arr| && forall k | 0 <= k < |arr| :: acts[k] == Take(arr[k])
  {
    seq(|arr|, k requires 0 <= k < |arr| => Take(arr[k]))
  }

  /** Where the last fragment 0 is; 0 if there is none. */
  function LastFirst(arr: seq<Fragment>): (b: nat)
    ensures arr != [] ==> b < |arr|
    ensures forall k | b < k < |arr| :: arr[k].index != 0
    ensures arr != [] && arr[b].index != 0 ==> b == 0
  {
    if arr == [] || arr[|arr| - 1].index == 0 then (if arr == [] then 0 else |arr| - 1)
    else
      var front := arr[..|arr| - 1];
      var b := LastFirst(front);
      assert forall k | b < k < |front| :: front[k] == arr[k];
      b
  }

  lemma LastFirstOneMore(arr: seq<Fragment>, f: Fragment)
    ensures LastFirst(arr + [f]) == if f.index == 0 || arr == [] then |arr| else LastFirst(arr)
    ensures (arr + [f])[LastFirst(arr + [f])..] ==
            (if f.index == 0 || arr == [] then [] else arr[LastFirst(arr)..]) + [f]
  {
    assert (arr + [f])[..|arr|] == arr;
    if arr == [] && f.index != 0 { assert LastFirst(arr) == 0; }
  }

  lemma TakesOneMore(arr: seq<Fragment>, f: Fragment)
    ensures Takes(arr + [f]) == Takes(arr) + [Take(f)]
  {
  }

  lemma SinceOneMore(g: Gateway, acts: seq<Act>, f: Fragment)
    ensures Since(g, acts + [Take(f)]) == (if f.index == 0 then [] else Since(g, acts)) + [f]
    ensures Renewed(g, acts + [Take(f)]) <==> f.index == 0 || Renewed(g, acts)
  {
    assert (acts + [Take(f)])[..|acts|] == acts;
    RenewedStep(g, acts + [Take(f)]);
  }

  lemma {:induction false} SinceTakes(g: Gateway, arr: seq<Fragment>)
    requires arr != []
    ensures Since(g, Takes(arr)) == arr[LastFirst(arr)..]
    ensures Renewed(g, Takes(arr)) <==> arr[LastFirst(arr)].index == 0
  {
    var front, f := arr[..|arr| - 1], arr[|arr| - 1];
    assert arr == front + [f];
    TakesOneMore(front, f);
    SinceOneMore(g, Takes(front), f);
    LastFirstOneMore(front, f);
    if front != [] { SinceTakes(g, front); } else { assert !Renewed(g, Takes(front)) && Since(g, Takes(front)) == []; }
  }

  /** Exactly this script is passed on if and only if its last fragment comes once, at p, and from
      the last fragment 0 up to p come all the chunks, each once and in order.  (With no fragment 0
      at all up to p, what was left from before has to make up for it.) */
  lemma ArrivalsPassedOnIff(g: Gateway, arr: seq<Fragment>, data: seq<byte>, mtu: nat)
    requires mtu > 0 && forall k | 0 <= k < |arr| :: IsCut(arr[k], data, mtu)
    ensures DoAll(g, Takes(arr)).scripts == g.scripts + [data] <==>
            exists p :: OnlyAt(Takes(arr), p) && CompletesFrom(g, arr[..p + 1], data, mtu)
  {
    ScriptPassedOnIff(g, Takes(arr), data, mtu);
    forall p | OnlyAt(Takes(arr), p)
      ensures Completes(g, Takes(arr)[..p + 1], data, mtu) <==> CompletesFrom(g, arr[..p + 1], data, mtu)
    {
      assert Takes(arr)[..p + 1] == Takes(arr[..p + 1]);
      SinceTakes(g, arr[..p + 1]);
    }
  }

  predicate CompletesFrom(g: Gateway, arr: seq<Fragment>, data: seq<byte>, mtu: nat)
    requires mtu > 0 && arr != []
  {
    var b := LastFirst(arr);
    if arr[b].index == 0 then Carries(arr[b..], data, mtu) else g.gathered + Joined(arr) == data
  }

  // ----- Inputs on which it fails ---------------------------------------------------------------

  /** Fragments of one byte. */
  lemma ByteCut(data: seq<byte>, i: nat)
    requires i < |data|
    ensures Chunks(|data|, 1) == |data| && Cut(data, 1, i) == Fragment(i, |data|, [data[i]])
  {
    assert i * 1 == i && |data| / 1 == |data| && |data| % 1 == 0;
  }

  lemma ByteCuts(data: seq<byte>)
    requires data != []
    ensures |AllCuts(data, 1)| == |data|
    ensures forall i | 0 <= i < |data| :: AllCuts(data, 1)[i] == Fragment(i, |data|, [data[i]])
  {
    ByteCut(data, 0);
    forall i | 0 <= i < |data| ensures AllCuts(data, 1)[i] == Fragment(i, |data|, [data[i]]) {
      ByteCut(data, i);
      FirstCutsAt(data, 1, |data|, i);
    }
  }

  /** With fragments of one byte, 0, 2 and 1 of x, y, z pass on x, z. */
  lemma SwappedFragments(x: byte, y: byte, z: byte)
    ensures var cuts := AllCuts([x, y, z], 1);
            |cuts| == 3 && DoAll(START, [Take(cuts[0]), Take(cuts[2]), Take(cuts[1])]).scripts == [[x, z]]
  {
    var first, second, third := Fragment(0, 3, [x]), Fragment(1, 3, [y]), Fragment(2, 3, [z]);
    ByteCuts([x, y, z]);
    assert AllCuts([x, y, z], 1) == [first, second, third];
    DoThree(START, Take(first), Take(third), Take(second));
    var g1 := Accept(START, first);
    assert [] + [x] == [x] && g1 == Gateway([x], [], 0);
    var g2 := Accept(g1, third);
    assert [x] + [z] == [x, z] && [] + [[x, z]] == [[x, z]] && g2.scripts == [[x, z]];
    assert Accept(g2, second).scripts == g2.scripts;
  }

  /** Fragments 0, 1 and 1 again of x, y pass on x, y and then y if the first send has ended by
      then, or else x, y, y. */
  lemma RepeatedFragment(x: byte, y: byte)
    ensures var cuts := AllCuts([x, y], 1);
            && |cuts| == 2
            && DoAll(START, [Take(cuts[0]), Take(cuts[1]), SendEnded(false), Take(cuts[1])]).scripts == [[x, y], [y]]
            && DoAll(START, [Take(cuts[0]), Take(cuts[1]), Take(cuts[1])]).scripts == [[x, y], [x, y, y]]
  {
    var first, second := Fragment(0, 2, [x]), Fragment(1, 2, [y]);
    ByteCuts([x, y]);
    assert AllCuts([x, y], 1) == [first, second];
    DoFour(START, Take(first), Take(second), SendEnded(false), Take(second));
    DoThree(START, Take(first), Take(second), Take(second));
    TwoTaken(first, second, x, y);
    TakenAgain(second, [x, y], y);
    assert [x, y] + [y] == [x, y, y];
  }

  lemma TwoTaken(first: Fragment, second: Fragment, x: byte, y: byte)
    requires first == Fragment(0, 2, [x]) && second == Fragment(1, 2, [y])
    ensures Accept(Accept(START, first), second) == Gateway([x, y], [[x, y]], 1)
  {
    assert [] + [x] == [x] && [x] + [y] == [x, y] && [] + [[x, y]] == [[x, y]];
  }

  lemma TakenAgain(f: Fragment, s: seq<byte>, y: byte)
    requires f == Fragment(1, 2, [y])
    ensures Accept(EndSend(Gateway(s, [s], 1), false), f).scripts == [s, [y]]
    ensures Accept(Gateway(s, [s], 1), f).scripts == [s, s + [y]]
  {
    assert [] + [y] == [y] && [s] + [[y]] == [s, [y]] && [s] + [s + [y]] == [s, s + [y]];
  }

  lemma DoThree(g: Gateway, a: Act, b: Act, c: Act)
    ensures DoAll(g, [a, b, c]) == Do(Do(Do(g, a), b), c)
  {
    DoOne(g, [], a);
    DoOne(g, [a], b);
    DoOne(g, [a, b], c);
    assert [] + [a] == [a] && [a] + [b] == [a, b] && [a, b] + [c] == [a, b, c];
  }

  lemma DoFour(g: Gateway, a: Act, b: Act, c: Act, d: Act)
    ensures DoAll(g, [a, b, c, d]) == Do(Do(Do(Do(g, a), b), c), d)
  {
    DoThree(g, a, b, c);
    DoOne(g, [a, b, c], d);
    assert [a, b, c] + [d] == [a, b, c, d];
  }

  // ----- As code --------------------------------------------------------------------------------

  class ScriptSender {
    const mtu: nat
    var published: seq<Fragment>

    constructor (mtu: nat)
      ensures this.mtu == mtu && published == []
    {
      this.mtu, published := mtu, [];
    }

    method SendScript(data: seq<byte>)
      requires mtu > 0
      modifies this`published
      ensures published == old(published) + AllCuts(data, mtu)
    {
      var chunks := 1;
      if |data| > mtu {
        chunks := |data| / mtu;
        if |data| % mtu != 0 { chunks := chunks + 1; }
      }
      for i := 0 to chunks
        invariant published == old(published) + FirstCuts(data, mtu, i)
      {
        var start := i * mtu;
        var from := if start < |data| then start else |data|;
        var to := if start + mtu < |data| then start + mtu else |data|;
        published := published + [Fragment(i, chunks, data[from..to])];
      }
    }
  }

  class ScriptReceiver {
    var script: seq<byte>
    var passedOn: seq<seq<byte>>

    /** How many calls wait for the device. */
    ghost var sending: nat

    constructor ()
      ensures View() == START
    {
      script, passedOn, sending := [], [], 0;
    }

    ghost function View(): Gateway
      reads this
    {
      Gateway(script, passedOn, sending)
    }

    /** Take a fragment, up to where the device is waited for. */
    method ReceiveFragment(f: Fragment) returns (waiting: bool)
      modifies this
      ensures View() == Accept(old(View()), f) && waiting == IsLast(f)
    {
      if f.index == 0 { script := []; }
      script := script + f.chunk;
      if f.index + 1 != f.count { return false; }
      passedOn := passedOn + [script];
      sending := sending + 1;
      return true;
    }

    /** Go on when the device has answered, or sending has failed. */
    method FinishSend(raised: bool)
      requires sending > 0
      modifies this`script, this`sending
      ensures View() == EndSend(old(View()), raised)
    {
      if !raised { script := []; }
      sending := sending - 1;
    }
  }
}
