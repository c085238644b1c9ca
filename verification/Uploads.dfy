/** Uploads of scripts to a gateway, one after the other, while earlier scripts are still being
    sent to the device. */
module Uploads {
  import opened Bytes
  import opened Fragments

  /** An upload of which the first so many fragments arrive. */
  datatype Upload = Upload(data: seq<byte>, arrived: nat)

  predicate Whole(u: Upload, mtu: nat)
    requires mtu > 0
  {
    u.arrived >= Chunks(|u.data|, mtu)
  }

  function Arrived(u: Upload, mtu: nat): seq<Fragment>
    requires mtu > 0
  {
    FirstCuts(u.data, mtu, Capped(u.arrived, Chunks(|u.data|, mtu)))
  }

  /** All fragments that arrive of uploads one after the other. */
  function Stream(uploads: seq<Upload>, mtu: nat): seq<Fragment>
    requires mtu > 0
  {
    if uploads == [] then [] else Stream(uploads[..|uploads| - 1], mtu) + Arrived(uploads[|uploads| - 1], mtu)
  }

  function WholeScripts(uploads: seq<Upload>, mtu: nat): seq<seq<byte>>
    requires mtu > 0
  {
    if uploads == [] then []
    else
      var u := uploads[|uploads| - 1];
      WholeScripts(uploads[..|uploads| - 1], mtu) + if Whole(u, mtu) then [u.data] else []
  }

  /** Act k is a send that ends without an error when more than `from` and fewer than `to` fragments
      have come. */
  predicate ClearedIn(g: Gateway, acts: seq<Act>, k: nat, from: nat, to: nat)
    requires k < |acts|
  {
    ClearsAt(g, acts, k) && from < |TakesOf(acts[..k])| < to
  }

  predicate ClearedBetween(g: Gateway, acts: seq<Act>, from: nat, to: nat) {
    exists k | 0 <= k < |acts| :: ClearedIn(g, acts, k, from, to)
  }

  lemma TakesPrefix(acts: seq<Act>, k: nat)
    requires k <= |acts|
    ensures TakesOf(acts) == TakesOf(acts[..k]) + TakesOf(acts[k..])
  {
    assert acts == acts[..k] + acts[k..];
    TakesInTwo(acts[..k], acts[k..]);
  }

  lemma TakenAt(acts: seq<Act>, k: nat)
    requires k < |acts| && acts[k].Take?
    ensures var t := |TakesOf(acts[..k])|;
            t < |TakesOf(acts)| && TakesOf(acts)[t] == acts[k].fragment
            && TakesOf(acts[..k + 1]) == TakesOf(acts)[..t + 1]
  {
    TakesPrefix(acts, k + 1);
    assert acts[..k + 1][..k] == acts[..k];
  }

  lemma {:induction false} PassedIsLasts(acts: seq<Act>)
    ensures Passed(acts) == Lasts(TakesOf(acts))
  {
    if acts != [] {
      var front, a := acts[..|acts| - 1], acts[|acts| - 1];
      PassedIsLasts(front);
      if a.Take? {
        assert (TakesOf(front) + [a.fragment])[..|TakesOf(front)|] == TakesOf(front);
      } else {
        assert TakesOf(front) + [] == TakesOf(front);
      }
    }
  }

  /** How many last fragments there are. */
  function Lasts(fragments: seq<Fragment>): nat {
    if fragments == [] then 0
    else Lasts(fragments[..|fragments| - 1]) + if IsLast(fragments[|fragments| - 1]) then 1 else 0
  }

  lemma {:induction false} LastsOfCuts(data: seq<byte>, mtu: nat, k: nat)
    requires mtu > 0 && k <= Chunks(|data|, mtu)
    ensures Lasts(FirstCuts(data, mtu, k)) == if k == Chunks(|data|, mtu) then 1 else 0
  {
    if k > 0 {
      assert FirstCuts(data, mtu, k)[..k - 1] == FirstCuts(data, mtu, k - 1);
      LastsOfCuts(data, mtu, k - 1);
    }
  }

  // ----- One upload ----------------------------------------------------------------------------

  /** The fragments of an upload in order. */
  predicate Sequel(fragments: seq<Fragment>) { forall i | 0 <= i < |fragments| :: fragments[i].index == i }

  lemma CutsInSequel(data: seq<byte>, mtu: nat, k: nat)
    requires mtu > 0
    ensures Sequel(FirstCuts(data, mtu, k))
  {
    forall i | 0 <= i < k ensures FirstCuts(data, mtu, k)[i].index == i { FirstCutsAt(data, mtu, k, i); }
  }

  /** The clearings of a first part are clearings of the whole. */
  lemma ClearedInPart(g: Gateway, acts: seq<Act>, n: nat, k: nat, from: nat, to: nat)
    requires k < n <= |acts|
    ensures ClearedIn(g, acts[..n], k, from, to) <==> ClearedIn(g, acts, k, from, to)
  {
    assert acts[..n][..k] == acts[..k];
  }

  lemma ClearedStep(g: Gateway, acts: seq<Act>, from: nat, to: nat)
    requires acts != []
    ensures var n := |acts| - 1;
            ClearedBetween(g, acts, from, to) <==>
            ClearedBetween(g, acts[..n], from, to) || ClearedIn(g, acts, n, from, to)
  {
    var n := |acts| - 1;
    var front := acts[..n];
    forall k | 0 <= k < n ensures ClearedIn(g, front, k, from, to) <==> ClearedIn(g, acts, k, from, to) {
      ClearedInPart(g, acts, n, k, from, to);
    }
    if ClearedBetween(g, front, from, to) {
      var k :| 0 <= k < |front| && ClearedIn(g, front, k, from, to);
      assert ClearedIn(g, acts, k, from, to);
    }
  }

  /** All fragments that have come are in hand, if no send ended after the first of them. */
  predicate HasAll(g: Gateway, acts: seq<Act>) {
    && |Since(g, acts)| <= |TakesOf(acts)|
    && (|Since(g, acts)| == |TakesOf(acts)| ==> Since(g, acts) == TakesOf(acts))
    && (|Since(g, acts)| == |TakesOf(acts)| <==> !ClearedBetween(g, acts, 0, |TakesOf(acts)| + 1))
  }

  lemma HasAllTaken(g: Gateway, acts: seq<Act>, f: Fragment)
    requires HasAll(g, acts) && f.index == |TakesOf(acts)|
    ensures HasAll(g, acts + [Take(f)])
  {
    var more := acts + [Take(f)];
    assert more[..|acts|] == acts;
    ClearedStep(g, more, 0, |TakesOf(acts)| + 2);
    MoreIsNoMatter(g, acts, |TakesOf(acts)| + 2);
  }

  lemma HasAllEnded(g: Gateway, acts: seq<Act>, raised: bool)
    requires HasAll(g, acts)
    ensures HasAll(g, acts + [SendEnded(raised)])
  {
    var more := acts + [SendEnded(raised)];
    assert more[..|acts|] == acts && TakesOf(more) == TakesOf(acts);
    ClearedStep(g, more, 0, |TakesOf(acts)| + 1);
    if |TakesOf(acts)| == 0 { assert !ClearedBetween(g, acts, 0, 1); }
  }

  /** Fragments that come in order are all in hand unless a send ended after the first of them. */
  lemma {:induction false} InHand(g: Gateway, acts: seq<Act>)
    requires Sequel(TakesOf(acts))
    ensures HasAll(g, acts)
  {
    if acts == [] {
      assert !ClearedBetween(g, acts, 0, 1);
    } else {
      var front, a := acts[..|acts| - 1], acts[|acts| - 1];
      assert acts == front + [a];
      FrontInSequel(acts);
      InHand(g, front);
      match a
      case Take(f) => HasAllTaken(g, front, f);
      case SendEnded(raised) => HasAllEnded(g, front, raised);
    }
  }

  lemma FrontInSequel(acts: seq<Act>)
    requires acts != [] && Sequel(TakesOf(acts))
    ensures var front, a := acts[..|acts| - 1], acts[|acts| - 1];
            Sequel(TakesOf(front)) && (a.Take? ==> a.fragment.index == |TakesOf(front)|)
  {
    var front, a := acts[..|acts| - 1], acts[|acts| - 1];
    assert forall i | 0 <= i < |TakesOf(front)| :: TakesOf(front)[i] == TakesOf(acts)[i];
    if a.Take? { assert TakesOf(acts)[|TakesOf(front)|] == a.fragment; }
  }

  lemma MoreIsNoMatter(g: Gateway, acts: seq<Act>, to: nat)
    requires to > |TakesOf(acts)|
    ensures ClearedBetween(g, acts, 0, to) <==> ClearedBetween(g, acts, 0, |TakesOf(acts)| + 1)
  {
    forall k | 0 <= k < |acts|
      ensures ClearedIn(g, acts, k, 0, to) <==> ClearedIn(g, acts, k, 0, |TakesOf(acts)| + 1)
    {
      TakesPrefix(acts, k);
    }
    if ClearedBetween(g, acts, 0, to) {
      var k :| 0 <= k < |acts| && ClearedIn(g, acts, k, 0, to);
      assert ClearedIn(g, acts, k, 0, |TakesOf(acts)| + 1);
    }
    if ClearedBetween(g, acts, 0, |TakesOf(acts)| + 1) {
      var k :| 0 <= k < |acts| && ClearedIn(g, acts, k, 0, |TakesOf(acts)| + 1);
      assert ClearedIn(g, acts, k, 0, to);
    }
  }

  lemma {:induction false} RenewedByFirst(g: Gateway, acts: seq<Act>)
    requires Sequel(TakesOf(acts)) && TakesOf(acts) != []
    ensures Renewed(g, acts)
  {
    var n := |acts| - 1;
    RenewedStep(g, acts);
    if TakesOf(acts[..n]) != [] {
      assert forall i | 0 <= i < |TakesOf(acts[..n])| :: TakesOf(acts)[i] == TakesOf(acts[..n])[i];
      RenewedByFirst(g, acts[..n]);
    } else {
      assert acts[n].Take? && TakesOf(acts)[0] == acts[n].fragment;
    }
  }

  lemma CutsOfScript(acts: seq<Act>, data: seq<byte>, mtu: nat)
    requires mtu > 0 && TakesOf(acts) == AllCuts(data, mtu)
    ensures OfScript(acts, data, mtu)
  {
    forall k | 0 <= k < |acts| && acts[k].Take? ensures IsCut(acts[k].fragment, data, mtu) {
      TakenAt(acts, k);
      FirstCutsAt(data, mtu, Chunks(|data|, mtu), |TakesOf(acts[..k])|);
    }
  }

  lemma AllCutsCarry(data: seq<byte>, mtu: nat)
    requires mtu > 0
    ensures Carries(AllCuts(data, mtu), data, mtu)
  {
    var n := Chunks(|data|, mtu);
    forall i | 0 <= i < n ensures AllCuts(data, mtu)[i].chunk == Cut(data, mtu, i).chunk {
      FirstCutsAt(data, mtu, n, i);
    }
  }

  /** The last fragment comes after all the others. */
  lemma LastTaken(acts: seq<Act>, data: seq<byte>, mtu: nat) returns (p: nat)
    requires mtu > 0 && TakesOf(acts) == AllCuts(data, mtu)
    ensures OnlyAt(acts, p) && TakesOf(acts[..p + 1]) == AllCuts(data, mtu)
    ensures |TakesOf(acts[..p])| + 1 == |AllCuts(data, mtu)|
  {
    PassedIsLasts(acts);
    LastsOfCuts(data, mtu, Chunks(|data|, mtu));
    p := PassedOnce(acts);
    TakenAt(acts, p);
    FirstCutsAt(data, mtu, Chunks(|data|, mtu), |TakesOf(acts[..p])|);
  }

  /** The fragments of a script come in order, and sends may end at any time: whatever was gathered
      before, exactly this script is passed on if and only if no send ends without an error between
      its first and its last fragment. */
  lemma UploadArrives(g: Gateway, acts: seq<Act>, data: seq<byte>, mtu: nat)
    requires mtu > 0 && TakesOf(acts) == AllCuts(data, mtu)
    ensures DoAll(g, acts).scripts == g.scripts + [data] <==> !ClearedBetween(g, acts, 0, |AllCuts(data, mtu)|)
  {
    var p := LastTaken(acts, data, mtu);
    CutsOfScript(acts, data, mtu);
    ScriptPassedOnAt(g, acts, p, data, mtu);
    CompletesUncleared(g, acts[..p + 1], data, mtu);
    NoneAfterLast(g, acts, p, |AllCuts(data, mtu)|);
  }

  lemma CompletesUncleared(g: Gateway, acts: seq<Act>, data: seq<byte>, mtu: nat)
    requires mtu > 0 && TakesOf(acts) == AllCuts(data, mtu)
    ensures Completes(g, acts, data, mtu) <==> !ClearedBetween(g, acts, 0, |AllCuts(data, mtu)| + 1)
  {
    CutsInSequel(data, mtu, |AllCuts(data, mtu)|);
    InHand(g, acts);
    RenewedByFirst(g, acts);
    AllCutsCarry(data, mtu);
  }

  lemma NoneAfterLast(g: Gateway, acts: seq<Act>, p: nat, n: nat)
    requires p < |acts| && acts[p].Take? && |TakesOf(acts[..p])| + 1 == n == |TakesOf(acts)|
    ensures ClearedBetween(g, acts, 0, n) <==> ClearedBetween(g, acts[..p + 1], 0, n + 1)
  {
    var upTo := acts[..p + 1];
    forall k | 0 <= k < |upTo| ensures ClearedIn(g, upTo, k, 0, n + 1) <==> ClearedIn(g, acts, k, 0, n) {
      TakesUpTo(acts, k, p);
      ClearedInPart(g, acts, p + 1, k, 0, n + 1);
    }
    forall k | p < k < |acts| ensures !ClearedIn(g, acts, k, 0, n) {
      TakenAt(acts, p);
      TakesUpTo(acts, p + 1, k);
    }
    if ClearedBetween(g, upTo, 0, n + 1) {
      var k :| 0 <= k < |upTo| && ClearedIn(g, upTo, k, 0, n + 1);
      assert ClearedIn(g, acts, k, 0, n);
    }
    if ClearedBetween(g, acts, 0, n) {
      var k :| 0 <= k < |acts| && ClearedIn(g, acts, k, 0, n);
      assert ClearedIn(g, upTo, k, 0, n + 1);
    }
  }

  lemma TakesUpTo(acts: seq<Act>, j: nat, k: nat)
    requires j <= k <= |acts|
    ensures |TakesOf(acts[..j])| <= |TakesOf(acts[..k])|
  {
    TakesPrefix(acts[..k], j);
    assert acts[..k][..j] == acts[..j];
  }

  lemma {:induction false} SendsStarted(g: Gateway, acts: seq<Act>)
    ensures DoAll(g, acts).sending <= g.sending + Passed(acts)
  {
    if acts != [] { SendsStarted(g, acts[..|acts| - 1]); }
  }

  lemma NoneBeforeLast(acts: seq<Act>, data: seq<byte>, mtu: nat, k: nat)
    requires mtu > 0 && TakesOf(acts) == AllCuts(data, mtu)
    requires k < |acts| && |TakesOf(acts[..k])| < |AllCuts(data, mtu)|
    ensures Passed(acts[..k]) == 0
  {
    var n, front := Chunks(|data|, mtu), acts[..k];
    PassedIsLasts(front);
    TakesPrefix(acts, k);
    if Lasts(TakesOf(front)) > 0 {
      var p := PassAt(front, 0);
      TakenAt(front, p);
      FirstCutsAt(data, mtu, n, |TakesOf(front[..p])|);
    }
  }

  /** So an upload that begins when nothing is being sent always arrives. */
  lemma UploadAloneArrives(g: Gateway, acts: seq<Act>, data: seq<byte>, mtu: nat)
    requires mtu > 0 && TakesOf(acts) == AllCuts(data, mtu) && g.sending == 0
    ensures DoAll(g, acts).scripts == g.scripts + [data]
  {
    var n := |AllCuts(data, mtu)|;
    UploadArrives(g, acts, data, mtu);
    forall k | 0 <= k < |acts| ensures !ClearedIn(g, acts, k, 0, n) {
      if |TakesOf(acts[..k])| < n {
        NoneBeforeLast(acts, data, mtu, k);
        SendsStarted(g, acts[..k]);
      }
    }
  }

  // ----- Many uploads ----------------------------------------------------------------------------

  lemma UploadAccepted(g: Gateway, acts: seq<Act>, u: Upload, mtu: nat)
    requires mtu > 0 && TakesOf(acts) == Arrived(u, mtu)
    ensures Passed(acts) == if Whole(u, mtu) then 1 else 0
    ensures DoAll(g, acts).scripts == g.scripts + (if Whole(u, mtu) then [u.data] else []) <==>
            (Whole(u, mtu) ==> !ClearedBetween(g, acts, 0, |Arrived(u, mtu)|))
  {
    PassedIsLasts(acts);
    LastsOfCuts(u.data, mtu, |Arrived(u, mtu)|);
    if Whole(u, mtu) { UploadArrives(g, acts, u.data, mtu); } else { NothingPassed(g, acts); }
  }

  lemma NothingPassed(g: Gateway, acts: seq<Act>)
    requires Passed(acts) == 0
    ensures DoAll(g, acts).scripts == g.scripts + []
  {
    PassedOn(g, acts);
  }

  /** Where m fragments have come. */
  lemma {:induction false} SplitAfter(acts: seq<Act>, m: nat) returns (k: nat)
    requires m <= |TakesOf(acts)|
    ensures k <= |acts| && TakesOf(acts[..k]) == TakesOf(acts)[..m] && TakesOf(acts[k..]) == TakesOf(acts)[m..]
  {
    k := |acts|;
    if m < |TakesOf(acts)| {
      var n := |acts| - 1;
      k := SplitAfter(acts[..n], m);
      assert acts[..n][..k] == acts[..k];
    } else {
      assert acts[..k] == acts && acts[k..] == [];
    }
    TakesPrefix(acts, k);
  }

  /** An act after the first k, seen from there. */
  lemma ClearedInRest(g: Gateway, acts: seq<Act>, k: nat, i: nat, n: nat)
    requires k + i < |acts|
    ensures var m := |TakesOf(acts[..k])|;
            ClearedIn(g, acts, k + i, m, m + n) <==> ClearedIn(DoAll(g, acts[..k]), acts[k..], i, 0, n)
  {
    var rest := acts[k..];
    assert acts[..k + i] == acts[..k] + rest[..i];
    DoInTwo(g, acts[..k], rest[..i]);
    TakesInTwo(acts[..k], rest[..i]);
  }

  lemma ClearedShift(g: Gateway, acts: seq<Act>, k: nat, n: nat)
    requires k <= |acts|
    ensures var m := |TakesOf(acts[..k])|;
            ClearedBetween(g, acts, m, m + n) <==> ClearedBetween(DoAll(g, acts[..k]), acts[k..], 0, n)
  {
    var m, rest, mid := |TakesOf(acts[..k])|, acts[k..], DoAll(g, acts[..k]);
    if ClearedBetween(g, acts, m, m + n) {
      var j :| 0 <= j < |acts| && ClearedIn(g, acts, j, m, m + n);
      if j <= k { TakesUpTo(acts, j, k); }
      ClearedInRest(g, acts, k, j - k, n);
      assert ClearedIn(mid, rest, j - k, 0, n);
    }
    if ClearedBetween(mid, rest, 0, n) {
      var i :| 0 <= i < |rest| && ClearedIn(mid, rest, i, 0, n);
      ClearedInRest(g, acts, k, i, n);
      assert ClearedIn(g, acts, k + i, m, m + n);
    }
  }

  /** Clearings while the first fragments come are among the first acts. */
  lemma ClearedEarlier(g: Gateway, acts: seq<Act>, k: nat, from: nat, to: nat)
    requires k <= |acts| && to <= |TakesOf(acts[..k])|
    ensures ClearedBetween(g, acts, from, to) <==> ClearedBetween(g, acts[..k], from, to)
  {
    var front := acts[..k];
    if ClearedBetween(g, acts, from, to) {
      var j :| 0 <= j < |acts| && ClearedIn(g, acts, j, from, to);
      if j >= k { TakesUpTo(acts, k, j); }
      ClearedInPart(g, acts, k, j, from, to);
      assert ClearedIn(g, front, j, from, to);
    }
    if ClearedBetween(g, front, from, to) {
      var j :| 0 <= j < |front| && ClearedIn(g, front, j, from, to);
      ClearedInPart(g, acts, k, j, from, to);
      assert ClearedIn(g, acts, j, from, to);
    }
  }

  /** A send ends without an error between the first and the last fragment of upload j. */
  predicate Disturbed(g: Gateway, acts: seq<Act>, uploads: seq<Upload>, mtu: nat, j: nat)
    requires mtu > 0 && j < |uploads|
  {
    ClearedBetween(g, acts, |Stream(uploads[..j], mtu)|, |Stream(uploads[..j + 1], mtu)|)
  }

  predicate Undisturbed(g: Gateway, acts: seq<Act>, uploads: seq<Upload>, mtu: nat)
    requires mtu > 0
  {
    forall j | 0 <= j < |uploads| :: Spared(g, acts, uploads, mtu, j)
  }

  predicate Spared(g: Gateway, acts: seq<Act>, uploads: seq<Upload>, mtu: nat, j: nat)
    requires mtu > 0 && j < |uploads|
  {
    Whole(uploads[j], mtu) ==> !Disturbed(g, acts, uploads, mtu, j)
  }

  lemma {:induction false} StreamPart(uploads: seq<Upload>, mtu: nat, j: nat)
    requires mtu > 0 && j <= |uploads|
    ensures |Stream(uploads[..j], mtu)| <= |Stream(uploads, mtu)|
  {
    var n := |uploads| - 1;
    if j <= n {
      StreamPart(uploads[..n], mtu, j);
      assert uploads[..n][..j] == uploads[..j];
    } else {
      assert uploads[..j] == uploads;
    }
  }

  lemma SparedEarlier(g: Gateway, acts: seq<Act>, uploads: seq<Upload>, mtu: nat, k: nat, n: nat, j: nat)
    requires mtu > 0 && j < n <= |uploads| && k <= |acts| && TakesOf(acts[..k]) == Stream(uploads[..n], mtu)
    ensures Spared(g, acts, uploads, mtu, j) <==> Spared(g, acts[..k], uploads[..n], mtu, j)
  {
    var front := uploads[..n];
    assert front[..j] == uploads[..j] && front[..j + 1] == uploads[..j + 1];
    StreamPart(front, mtu, j + 1);
    ClearedEarlier(g, acts, k, |Stream(uploads[..j], mtu)|, |Stream(uploads[..j + 1], mtu)|);
  }

  lemma DisturbedLast(g: Gateway, acts: seq<Act>, uploads: seq<Upload>, mtu: nat, k: nat, n: nat)
    requires mtu > 0 && |uploads| == n + 1 && k <= |acts| && TakesOf(acts[..k]) == Stream(uploads[..n], mtu)
    ensures Disturbed(g, acts, uploads, mtu, n) <==>
            ClearedBetween(DoAll(g, acts[..k]), acts[k..], 0, |Arrived(uploads[n], mtu)|)
  {
    assert uploads[..n + 1] == uploads;
    ClearedShift(g, acts, k, |Arrived(uploads[n], mtu)|);
  }

  lemma UndisturbedStep(g: Gateway, acts: seq<Act>, uploads: seq<Upload>, mtu: nat, k: nat, n: nat)
    requires mtu > 0 && |uploads| == n + 1 && k <= |acts| && TakesOf(acts[..k]) == Stream(uploads[..n], mtu)
    ensures Undisturbed(g, acts, uploads, mtu) <==>
            && Undisturbed(g, acts[..k], uploads[..n], mtu)
            && (Whole(uploads[n], mtu) ==>
                  !ClearedBetween(DoAll(g, acts[..k]), acts[k..], 0, |Arrived(uploads[n], mtu)|))
  {
    var front, before := uploads[..n], acts[..k];
    forall j | 0 <= j < n ensures Spared(g, acts, uploads, mtu, j) <==> Spared(g, before, front, mtu, j) {
      SparedEarlier(g, acts, uploads, mtu, k, n, j);
    }
    DisturbedLast(g, acts, uploads, mtu, k, n);
    if Undisturbed(g, acts, uploads, mtu) {
      assert Spared(g, acts, uploads, mtu, n);
      forall j | 0 <= j < n ensures Spared(g, before, front, mtu, j) { assert Spared(g, acts, uploads, mtu, j); }
    }
    if Undisturbed(g, before, front, mtu) && Spared(g, acts, uploads, mtu, n) {
      forall j | 0 <= j <= n ensures Spared(g, acts, uploads, mtu, j) {
        if j < n { assert Spared(g, before, front, mtu, j); }
      }
    }
  }

  lemma {:induction false} LastsInTwo(p: seq<Fragment>, q: seq<Fragment>)
    ensures Lasts(p + q) == Lasts(p) + Lasts(q)
  {
    if q == [] {
      assert p + q == p;
    } else {
      LastsInTwo(p, q[..|q| - 1]);
      assert (p + q)[..|p| + |q| - 1] == p + q[..|q| - 1];
    }
  }

  lemma {:induction false} LastsOfStream(uploads: seq<Upload>, mtu: nat)
    requires mtu > 0
    ensures Lasts(Stream(uploads, mtu)) == |WholeScripts(uploads, mtu)|
  {
    if uploads != [] {
      var n := |uploads| - 1;
      LastsOfStream(uploads[..n], mtu);
      LastsInTwo(Stream(uploads[..n], mtu), Arrived(uploads[n], mtu));
      LastsOfCuts(uploads[n].data, mtu, |Arrived(uploads[n], mtu)|);
    }
  }

  /** Uploads come one after the other, each abandoned anywhere or not at all, and sends end at any
      time.  Exactly the whole ones are passed on, in order, if and only if no send ends without an
      error between the first and the last fragment of a whole one. */
  lemma {:induction false} OnlyWholeUploadsArrive(g: Gateway, acts: seq<Act>, uploads: seq<Upload>, mtu: nat)
    requires mtu > 0 && TakesOf(acts) == Stream(uploads, mtu)
    ensures DoAll(g, acts).scripts == g.scripts + WholeScripts(uploads, mtu) <==> Undisturbed(g, acts, uploads, mtu)
    decreases |uploads|
  {
    if uploads == [] {
      PassedIsLasts(acts);
      NothingPassed(g, acts);
    } else {
      var n := |uploads| - 1;
      var k := SplitAfter(acts, |Stream(uploads[..n], mtu)|);
      OnlyWholeUploadsArrive(g, acts[..k], uploads[..n], mtu);
      UndisturbedStep(g, acts, uploads, mtu, k, n);
      OneUploadMore(g, acts, uploads, mtu, k, n);
    }
  }

  lemma OneUploadMore(g: Gateway, acts: seq<Act>, uploads: seq<Upload>, mtu: nat, k: nat, n: nat)
    requires mtu > 0 && |uploads| == n + 1 && k <= |acts|
    requires TakesOf(acts[..k]) == Stream(uploads[..n], mtu) && TakesOf(acts[k..]) == Arrived(uploads[n], mtu)
    ensures DoAll(g, acts).scripts == g.scripts + WholeScripts(uploads, mtu) <==>
            && DoAll(g, acts[..k]).scripts == g.scripts + WholeScripts(uploads[..n], mtu)
            && (Whole(uploads[n], mtu) ==>
                  !ClearedBetween(DoAll(g, acts[..k]), acts[k..], 0, |Arrived(uploads[n], mtu)|))
  {
    var p, q, u := acts[..k], acts[k..], uploads[n];
    UploadAccepted(DoAll(g, p), q, u, mtu);
    PassedIsLasts(p);
    LastsOfStream(uploads[..n], mtu);
    assert acts == p + q;
    DoInTwo(g, p, q);
    ScriptsInTwo(g, p, q, WholeScripts(uploads[..n], mtu), if Whole(u, mtu) then [u.data] else []);
  }

  /** Both parts pass on what is wanted of them, if there are as many scripts. */
  lemma ScriptsInTwo(g: Gateway, p: seq<Act>, q: seq<Act>, x: seq<seq<byte>>, y: seq<seq<byte>>)
    requires |x| == Passed(p) && |y| == Passed(q)
    ensures DoAll(DoAll(g, p), q).scripts == g.scripts + (x + y) <==>
            DoAll(g, p).scripts == g.scripts + x && DoAll(DoAll(g, p), q).scripts == DoAll(g, p).scripts + y
  {
    PassedOn(g, p);
    PassedOn(DoAll(g, p), q);
    var mid, all := DoAll(g, p).scripts, DoAll(DoAll(g, p), q).scripts;
    var s := all[|mid|..];
    assert all == mid + s && g.scripts + (x + y) == (g.scripts + x) + y;
    SameTails(mid, g.scripts + x, s, y);
    SameTails(mid, mid, s, y);
  }

  /** Script a is still being sent when the first fragment of b0, b1 comes, and the send ends before
      the second one: a and b1 are passed on. */
  lemma ClearedByEarlierSend(a: byte, b0: byte, b1: byte)
    ensures var first, second := AllCuts([a], 1), AllCuts([b0, b1], 1);
            && |first| == 1 && |second| == 2
            && DoAll(START, [Take(first[0]), Take(second[0]), SendEnded(false), Take(second[1])]).scripts == [[a], [b1]]
  {
    var first, second := AllCuts([a], 1), AllCuts([b0, b1], 1);
    ByteCuts([a]);
    ByteCuts([b0, b1]);
    assert first == [Fragment(0, 1, [a])] && second == [Fragment(0, 2, [b0]), Fragment(1, 2, [b1])];
    DoFour(START, Take(first[0]), Take(second[0]), SendEnded(false), Take(second[1]));
    assert [] + [a] == [a] && [] + [b0] == [b0] && [] + [b1] == [b1];
    assert [] + [[a]] == [[a]] && [[a]] + [[b1]] == [[a], [b1]];
  }
}
