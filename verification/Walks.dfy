/** Walks in a finite directed multigraph, and the breadth-first worklist that
    follows every edge again each time a node is taken off the queue (there is no
    visited set).  A graph is given by its adjacency lists: g[n] lists the targets
    of the edges leaving n, with repetitions. */
module Walks {
  import opened Basics

  type Graph = seq<seq<nat>>

  ghost predicate WellFormed(g: Graph) {
    forall n, k | 0 <= n < |g| && 0 <= k < |g[n]| :: g[n][k] < |g|
  }

  ghost predicate Within(g: Graph, q: seq<nat>) {
    forall k | 0 <= k < |q| :: q[k] < |g|
  }

  ghost predicate IsWalk(g: Graph, w: seq<nat>) {
    && |w| > 0
    && Within(g, w)
    && forall i, j | 0 <= i < |w| && j == i + 1 && j < |w| :: w[j] in g[w[i]]
  }

  ghost predicate Repeats(w: seq<nat>) {
    exists i, j :: 0 <= i < j < |w| && w[i] == w[j]
  }

  /** No walk that starts in q comes back to a node it has already been at. */
  ghost predicate AcyclicFrom(g: Graph, q: seq<nat>) {
    forall w | IsWalk(g, w) && w[0] in q :: !Repeats(w)
  }

  ghost predicate Reachable(g: Graph, q: seq<nat>, v: nat) {
    exists w :: IsWalk(g, w) && w[0] in q && w[|w| - 1] == v
  }

  /** Every walk from n has at most f edges. */
  ghost predicate Bounded(g: Graph, n: nat, f: nat) {
    forall w | IsWalk(g, w) && w[0] == n :: |w| <= f + 1
  }

  // ----- Counting walks --------------------------------------------------

  /** The number of walks with at most f edges that lead from n to v. */
  function WalksTo(g: Graph, n: nat, v: nat, f: nat): nat
    requires WellFormed(g) && n < |g|
    decreases f, 0, 0
  {
    (if n == v then 1 else 0) + (if f == 0 then 0 else SumWalksTo(g, g[n], v, f - 1))
  }

  function SumWalksTo(g: Graph, q: seq<nat>, v: nat, f: nat): nat
    requires WellFormed(g) && Within(g, q)
    decreases f, 1, |q|
  {
    if q == [] then 0 else WalksTo(g, q[0], v, f) + SumWalksTo(g, q[1..], v, f)
  }

  /** The number of walks with at most f edges that leave n, wherever they end. */
  function WalksFrom(g: Graph, n: nat, f: nat): (r: nat)
    requires WellFormed(g) && n < |g|
    ensures r > 0
    decreases f, 0, 0
  {
    1 + (if f == 0 then 0 else SumWalksFrom(g, g[n], f - 1))
  }

  function SumWalksFrom(g: Graph, q: seq<nat>, f: nat): nat
    requires WellFormed(g) && Within(g, q)
    decreases f, 1, |q|
  {
    if q == [] then 0 else WalksFrom(g, q[0], f) + SumWalksFrom(g, q[1..], f)
  }

  lemma {:induction false} SumAppend(g: Graph, p: seq<nat>, q: seq<nat>, v: nat, f: nat)
    requires WellFormed(g) && Within(g, p) && Within(g, q)
    ensures Within(g, p + q)
    ensures SumWalksTo(g, p + q, v, f) == SumWalksTo(g, p, v, f) + SumWalksTo(g, q, v, f)
    ensures SumWalksFrom(g, p + q, f) == SumWalksFrom(g, p, f) + SumWalksFrom(g, q, f)
    decreases |p|
  {
    if p == [] {
      assert p + q == q;
    } else {
      SumAppend(g, p[1..], q, v, f);
      assert (p + q)[1..] == p[1..] + q;
    }
  }

  /** On a node whose walks are bounded by f, more fuel finds no more walks. */
  lemma {:induction false} FuelEnough(g: Graph, n: nat, v: nat, f: nat)
    requires WellFormed(g) && n < |g| && Bounded(g, n, f)
    ensures WalksTo(g, n, v, f) == WalksTo(g, n, v, f + 1)
    ensures WalksFrom(g, n, f) == WalksFrom(g, n, f + 1)
    decreases f, 0, 0
  {
    if f == 0 {
      if g[n] != [] {
        assert IsWalk(g, [n, g[n][0]]);
        assert false;
      }
    } else {
      forall s | s in g[n] ensures s < |g| && Bounded(g, s, f - 1) {
        SuccessorBounded(g, n, s, f);
      }
      SumFuelEnough(g, g[n], v, f - 1);
    }
  }

  lemma {:induction false} SumFuelEnough(g: Graph, q: seq<nat>, v: nat, f: nat)
    requires WellFormed(g) && Within(g, q) && forall s | s in q :: Bounded(g, s, f)
    ensures SumWalksTo(g, q, v, f) == SumWalksTo(g, q, v, f + 1)
    ensures SumWalksFrom(g, q, f) == SumWalksFrom(g, q, f + 1)
    decreases f, 1, |q|
  {
    if q != [] {
      FuelEnough(g, q[0], v, f);
      SumFuelEnough(g, q[1..], v, f);
    }
  }

  lemma SuccessorBounded(g: Graph, n: nat, s: nat, f: nat)
    requires WellFormed(g) && n < |g| && Bounded(g, n, f) && s in g[n]
    ensures s < |g| && f > 0 && Bounded(g, s, f - 1)
  {
    assert IsWalk(g, [n, s]);
    forall w | IsWalk(g, w) && w[0] == s ensures |w| <= f {
      assert IsWalk(g, [n] + w);
    }
  }

  /** The number of walks leaving n that the queue's potential is built from: with
      |g| edges of fuel, which on the acyclic part of a graph is all of them. */
  function Potential(g: Graph, q: seq<nat>): nat
    requires WellFormed(g) && Within(g, q)
  {
    SumWalksFrom(g, q, |g|)
  }

  function Visiting(g: Graph, q: seq<nat>, v: nat): nat
    requires WellFormed(g) && Within(g, q)
  {
    SumWalksTo(g, q, v, |g|)
  }

  // ----- Acyclic walks are short ------------------------------------------

  function Interval(n: nat): (s: set<nat>)
    ensures forall k: nat :: k in s <==> k < n
    ensures |s| == n
  {
    if n == 0 then {} else Interval(n - 1) + {n - 1}
  }

  function Elements(w: seq<nat>): set<nat> { set x | x in w }

  lemma {:induction false} DistinctElements(w: seq<nat>)
    requires !Repeats(w)
    ensures |Elements(w)| == |w|
  {
    if w != [] {
      var t := w[1..];
      forall i, j | 0 <= i < j < |t| ensures t[i] != t[j] {
        assert t[i] == w[i + 1] && t[j] == w[j + 1];
      }
      DistinctElements(t);
      assert w[0] !in t;
      assert Elements(w) == {w[0]} + Elements(t);
    }
  }

  lemma AcyclicBounded(g: Graph, q: seq<nat>, n: nat)
    requires WellFormed(g) && AcyclicFrom(g, q) && n in q
    ensures Bounded(g, n, |g|)
  {
    forall w | IsWalk(g, w) && w[0] == n ensures |w| <= |g| + 1 {
      DistinctElements(w);
      SubsetSize(Elements(w), Interval(|g|));
    }
  }

  // ----- The worklist ------------------------------------------------------

  /** One round of the worklist: take the first node, append all its targets. */
  function Next(g: Graph, q: seq<nat>): (r: seq<nat>)
    requires WellFormed(g) && Within(g, q) && q != []
    ensures Within(g, r)
  {
    assert Within(g, g[q[0]]);
    q[1..] + g[q[0]]
  }

  /** The queue after k rounds (a queue that has run empty stays empty). */
  function Queue(g: Graph, q: seq<nat>, k: nat): (r: seq<nat>)
    requires WellFormed(g) && Within(g, q)
    ensures Within(g, r)
    decreases k
  {
    if k == 0 || q == [] then q else Queue(g, Next(g, q), k - 1)
  }

  /** The nodes taken off the queue in the first k rounds, in order. */
  function Visits(g: Graph, q: seq<nat>, k: nat): (r: seq<nat>)
    requires WellFormed(g) && Within(g, q)
    ensures Within(g, r)
    decreases k
  {
    if k == 0 || q == [] then [] else [q[0]] + Visits(g, Next(g, q), k - 1)
  }

  function Count(v: nat, w: seq<nat>): nat {
    if w == [] then 0 else (if w[0] == v then 1 else 0) + Count(v, w[1..])
  }

  ghost predicate Terminates(g: Graph, q: seq<nat>)
    requires WellFormed(g) && Within(g, q)
  {
    exists k: nat :: Queue(g, q, k) == []
  }

  lemma AcyclicNext(g: Graph, q: seq<nat>)
    requires WellFormed(g) && Within(g, q) && q != [] && AcyclicFrom(g, q)
    ensures AcyclicFrom(g, Next(g, q))
  {
    forall w | IsWalk(g, w) && w[0] in Next(g, q) ensures !Repeats(w) {
      if w[0] !in q {
        assert w[0] in g[q[0]];
        var x := [q[0]] + w;
        assert IsWalk(g, x);
        forall i, j | 0 <= i < j < |w| ensures w[i] != w[j] {
          assert x[i + 1] == w[i] && x[j + 1] == w[j];
        }
      }
    }
  }

  /** Each round lowers the potential by exactly one, and lowers the number of
      walks ending in v by one exactly when v is the node taken off the queue. */
  lemma RoundCost(g: Graph, q: seq<nat>, v: nat)
    requires WellFormed(g) && Within(g, q) && q != [] && AcyclicFrom(g, q)
    ensures Potential(g, Next(g, q)) + 1 == Potential(g, q)
    ensures Visiting(g, Next(g, q), v) + (if q[0] == v then 1 else 0) == Visiting(g, q, v)
  {
    var n := q[0];
    AcyclicBounded(g, q, n);
    FuelEnough(g, n, v, |g|);
    assert Within(g, g[n]);
    SumAppend(g, q[1..], g[n], v, |g|);
  }

  /** On an acyclic part of the graph the worklist empties after exactly as many
      rounds as there are walks leaving the initial queue, and node v is taken off
      it exactly as often as there are walks from the initial queue to v. */
  lemma {:induction false} ExactRounds(g: Graph, q: seq<nat>, v: nat)
    requires WellFormed(g) && Within(g, q) && AcyclicFrom(g, q)
    ensures Queue(g, q, Potential(g, q)) == []
    ensures |Visits(g, q, Potential(g, q))| == Potential(g, q)
    ensures Count(v, Visits(g, q, Potential(g, q))) == Visiting(g, q, v)
    decreases Potential(g, q)
  {
    if q != [] {
      AcyclicNext(g, q);
      RoundCost(g, q, v);
      ExactRounds(g, Next(g, q), v);
      var rest := Visits(g, Next(g, q), Potential(g, q) - 1);
      assert Visits(g, q, Potential(g, q))[1..] == rest;
    }
  }

  // ----- A reachable cycle keeps the worklist busy for ever ------------------

  ghost predicate OnLasso(g: Graph, n: nat) {
    exists w :: IsWalk(g, w) && w[0] == n && Repeats(w)
  }

  lemma LassoSuccessor(g: Graph, n: nat)
    requires WellFormed(g) && n < |g| && OnLasso(g, n)
    ensures exists s :: s in g[n] && OnLasso(g, s)
  {
    var w :| IsWalk(g, w) && w[0] == n && Repeats(w);
    var i, j :| 0 <= i < j < |w| && w[i] == w[j];
    var s := w[1];
    assert s in g[w[0]];
    if i > 0 {
      var t := w[1..];
      assert t[i - 1] == t[j - 1];
      assert IsWalk(g, t) && t[0] == s && Repeats(t);
    } else {
      var t := w[1..j + 1] + [s];
      assert IsWalk(g, t) by {
        forall k | 0 <= k < |t| - 1 ensures t[k + 1] in g[t[k]] {
          assert t[k] == w[k + 1];
          if k + 1 < j { assert t[k + 1] == w[k + 2]; }
        }
      }
      assert t[0] == s && t[j] == s;
      assert Repeats(t);
    }
  }

  lemma {:induction false} CycleNeverEmpties(g: Graph, q: seq<nat>, k: nat, n: nat)
    requires WellFormed(g) && Within(g, q) && n in q && OnLasso(g, n)
    ensures Queue(g, q, k) != []
    decreases k
  {
    if k > 0 {
      if n != q[0] {
        assert n in q[1..];
        CycleNeverEmpties(g, Next(g, q), k - 1, n);
      } else {
        LassoSuccessor(g, n);
        var s :| s in g[n] && OnLasso(g, s);
        CycleNeverEmpties(g, Next(g, q), k - 1, s);
      }
    }
  }

  /** The traversal without a visited set ends exactly on graphs in which no cycle
      can be reached from the nodes it starts with. */
  lemma TerminatesIffAcyclic(g: Graph, q: seq<nat>)
    requires WellFormed(g) && Within(g, q)
    ensures Terminates(g, q) <==> AcyclicFrom(g, q)
  {
    if AcyclicFrom(g, q) {
      ExactRounds(g, q, 0);
    } else {
      var w :| IsWalk(g, w) && w[0] in q && Repeats(w);
      assert OnLasso(g, w[0]);
      forall k: nat ensures Queue(g, q, k) != [] {
        CycleNeverEmpties(g, q, k, w[0]);
      }
    }
  }

  // ----- What a finished traversal has seen -----------------------------------

  lemma {:induction false} VisitAt(g: Graph, q: seq<nat>, k: nat, i: nat)
    requires WellFormed(g) && Within(g, q) && i < |Visits(g, q, k)|
    ensures i < k && Queue(g, q, i) != []
    ensures Visits(g, q, k)[i] == Queue(g, q, i)[0]
    ensures Visits(g, q, k)[i + 1..] == Visits(g, Next(g, Queue(g, q, i)), k - i - 1)
    ensures Queue(g, q, k) == Queue(g, Next(g, Queue(g, q, i)), k - i - 1)
    decreases k
  {
    if i > 0 { VisitAt(g, Next(g, q), k - 1, i - 1); }
  }

  lemma {:induction false} QueuedGetsVisited(g: Graph, q: seq<nat>, k: nat, x: nat)
    requires WellFormed(g) && Within(g, q) && Queue(g, q, k) == [] && x in q
    ensures x in Visits(g, q, k)
    decreases k
  {
    if x != q[0] {
      assert x in q[1..];
      QueuedGetsVisited(g, Next(g, q), k - 1, x);
    }
  }

  /** In a finished traversal every visit of a node is followed by a later visit of
      each node it has an edge to. */
  lemma TargetVisitedLater(g: Graph, q: seq<nat>, k: nat, i: nat, v: nat)
    requires WellFormed(g) && Within(g, q) && Queue(g, q, k) == []
    requires i < |Visits(g, q, k)| && v in g[Visits(g, q, k)[i]]
    ensures exists j :: i < j < |Visits(g, q, k)| && Visits(g, q, k)[j] == v
  {
    VisitAt(g, q, k, i);
    var rest := Next(g, Queue(g, q, i));
    QueuedGetsVisited(g, rest, k - i - 1, v);
    var t := Visits(g, rest, k - i - 1);
    var j :| 0 <= j < |t| && t[j] == v;
    assert Visits(g, q, k)[i + 1..][j] == v;
    assert Visits(g, q, k)[i + 1 + j] == v;
  }

  lemma {:induction false} VisitedIsReachable(g: Graph, q: seq<nat>, k: nat, v: nat)
    requires WellFormed(g) && Within(g, q) && v in Visits(g, q, k)
    ensures Reachable(g, q, v)
    decreases k
  {
    if v == q[0] {
      assert IsWalk(g, [v]);
    } else {
      assert v in Visits(g, q, k)[1..];
      VisitedIsReachable(g, Next(g, q), k - 1, v);
      ReachableBefore(g, q, v);
    }
  }

  lemma ReachableBefore(g: Graph, q: seq<nat>, v: nat)
    requires WellFormed(g) && Within(g, q) && q != [] && Reachable(g, Next(g, q), v)
    ensures Reachable(g, q, v)
  {
    var w :| IsWalk(g, w) && w[0] in Next(g, q) && w[|w| - 1] == v;
    if w[0] !in q {
      var x := [q[0]] + w;
      assert IsWalk(g, x) && x[|x| - 1] == v;
    }
  }

  lemma {:induction false} WalkIsVisited(g: Graph, q: seq<nat>, k: nat, w: seq<nat>)
    requires WellFormed(g) && Within(g, q) && Queue(g, q, k) == []
    requires IsWalk(g, w) && w[0] in q
    ensures w[|w| - 1] in Visits(g, q, k)
    decreases |w|
  {
    if |w| == 1 {
      QueuedGetsVisited(g, q, k, w[0]);
    } else {
      var p := w[..|w| - 1];
      assert IsWalk(g, p);
      WalkIsVisited(g, q, k, p);
      var i :| 0 <= i < |Visits(g, q, k)| && Visits(g, q, k)[i] == p[|p| - 1];
      TargetVisitedLater(g, q, k, i, w[|w| - 1]);
    }
  }

  /** A finished traversal has visited exactly the nodes that can be reached. */
  lemma VisitedIffReachable(g: Graph, q: seq<nat>, k: nat, v: nat)
    requires WellFormed(g) && Within(g, q) && Queue(g, q, k) == []
    ensures v in Visits(g, q, k) <==> Reachable(g, q, v)
  {
    if v in Visits(g, q, k) {
      VisitedIsReachable(g, q, k, v);
    }
    if Reachable(g, q, v) {
      var w :| IsWalk(g, w) && w[0] in q && w[|w| - 1] == v;
      WalkIsVisited(g, q, k, w);
    }
  }

  /** The position of the last visit of v in w. */
  function LastVisit(w: seq<nat>, v: nat): (i: nat)
    requires v in w
    ensures i < |w| && w[i] == v
    ensures forall j :: i < j < |w| ==> w[j] != v
  {
    if w[|w| - 1] == v then |w| - 1
    else
      assert w == w[..|w| - 1] + [w[|w| - 1]];
      LastVisit(w[..|w| - 1], v)
  }

  /** When a node is visited for the last time, all its visited predecessors have
      been visited for the last time before. */
  lemma LastVisitsFollowEdges(g: Graph, q: seq<nat>, k: nat, u: nat, v: nat)
    requires WellFormed(g) && Within(g, q) && Queue(g, q, k) == []
    requires u in Visits(g, q, k) && v in g[u]
    ensures v in Visits(g, q, k)
    ensures LastVisit(Visits(g, q, k), u) < LastVisit(Visits(g, q, k), v)
  {
    var w := Visits(g, q, k);
    var i := LastVisit(w, u);
    TargetVisitedLater(g, q, k, i, v);
    var j :| i < j < |w| && w[j] == v;
    assert j <= LastVisit(w, v);
  }

  // ----- The order of visits -------------------------------------------------------

  function Targets(g: Graph, q: seq<nat>): (r: seq<nat>)
    requires WellFormed(g) && Within(g, q)
    ensures Within(g, r)
  {
    if q == [] then [] else g[q[0]] + Targets(g, q[1..])
  }

  lemma OneRound(g: Graph, n: nat, m: seq<nat>, t: seq<nat>, k: nat)
    requires WellFormed(g) && n < |g| && Within(g, m) && t == [n] + m && Queue(g, t, k) == []
    ensures Within(g, t) && Within(g, m + g[n]) && k > 0 && Queue(g, m + g[n], k - 1) == []
    ensures Visits(g, t, k) == [n] + Visits(g, m + g[n], k - 1)
  {
    assert t[1..] == m;
  }

  /** When the queue has been worked off once, what is queued are the targets of all that
      was in it. */
  lemma {:induction false} OnceAround(g: Graph, q: seq<nat>, r: seq<nat>, t: seq<nat>, k: nat)
    requires WellFormed(g) && Within(g, q) && Within(g, r) && t == q + r && Queue(g, t, k) == []
    ensures Within(g, t) && |q| <= k && Queue(g, r + Targets(g, q), k - |q|) == []
    ensures Visits(g, t, k) == q + Visits(g, r + Targets(g, q), k - |q|)
    decreases |q|
  {
    if q == [] {
      assert t == r && r + [] == r;
    } else {
      var n, m, s := q[0], q[1..] + r, r + g[q[0]];
      assert t == [n] + m;
      OneRound(g, n, m, t, k);
      Associative(q[1..], r, g[n]);
      OnceAround(g, q[1..], s, m + g[n], k - 1);
      Associative(r, g[n], Targets(g, q[1..]));
      Associative([n], q[1..], Visits(g, r + Targets(g, q), k - |q|));
      assert q == [n] + q[1..];
    }
  }

  lemma NextLevel(g: Graph, q: seq<nat>, k: nat)
    requires WellFormed(g) && Within(g, q) && Queue(g, q, k) == []
    ensures |q| <= k && Queue(g, Targets(g, q), k - |q|) == []
    ensures Visits(g, q, k) == q + Visits(g, Targets(g, q), k - |q|)
  {
    assert q + [] == q && [] + Targets(g, q) == Targets(g, q);
    OnceAround(g, q, [], q, k);
  }

  /** u has been visited at some time before the last visit of v. */
  ghost predicate VisitedBefore(w: seq<nat>, u: nat, v: nat) {
    exists i, j :: 0 <= i < j < |w| && w[i] == u && w[j] == v
  }

  /** A walk given by positions: p[0] in the list q, then in the outputs of the node there, and
      so on. */
  ghost predicate IsPath(g: Graph, q: seq<nat>, p: seq<nat>)
    requires WellFormed(g) && Within(g, q)
    decreases |p|
  {
    && |p| > 0 && p[0] < |q|
    && (|p| > 1 ==> Within(g, g[q[p[0]]]) && IsPath(g, g[q[p[0]]], p[1..]))
  }

  ghost function PathEnd(g: Graph, q: seq<nat>, p: seq<nat>): (v: nat)
    requires WellFormed(g) && Within(g, q) && IsPath(g, q, p)
    ensures v < |g|
    decreases |p|
  {
    if |p| == 1 then q[p[0]] else PathEnd(g, g[q[p[0]]], p[1..])
  }

  /** Shorter walks first, and walks of the same length by their positions. */
  predicate PathBefore(x: seq<nat>, y: seq<nat>) { |x| < |y| || (|x| == |y| && LexBefore(x, y)) }

  predicate LexBefore(x: seq<nat>, y: seq<nat>)
    requires |x| == |y|
  {
    x != [] && (x[0] < y[0] || (x[0] == y[0] && LexBefore(x[1..], y[1..])))
  }

  /** Where the targets of the i-th node start among all targets. */
  function Offset(g: Graph, q: seq<nat>, i: nat): nat
    requires WellFormed(g) && Within(g, q) && i <= |q|
  {
    if i == 0 then 0 else |g[q[0]]| + Offset(g, q[1..], i - 1)
  }

  lemma {:induction false} OffsetAt(g: Graph, q: seq<nat>, i: nat, e: nat)
    requires WellFormed(g) && Within(g, q) && i < |q| && e < |g[q[i]]|
    ensures Offset(g, q, i) + e < |Targets(g, q)| && Targets(g, q)[Offset(g, q, i) + e] == g[q[i]][e]
  {
    if i > 0 { OffsetAt(g, q[1..], i - 1, e); }
  }

  lemma {:induction false} OffsetRises(g: Graph, q: seq<nat>, i: nat, j: nat)
    requires WellFormed(g) && Within(g, q) && i < j <= |q|
    ensures Offset(g, q, i) + |g[q[i]]| <= Offset(g, q, j)
  {
    if i > 0 { OffsetRises(g, q[1..], i - 1, j - 1); }
  }

  lemma {:induction false} Locate(g: Graph, q: seq<nat>, t: nat) returns (i: nat, e: nat)
    requires WellFormed(g) && Within(g, q) && t < |Targets(g, q)|
    ensures i < |q| && e < |g[q[i]]| && t == Offset(g, q, i) + e
  {
    if t < |g[q[0]]| {
      i, e := 0, t;
    } else {
      i, e := Locate(g, q[1..], t - |g[q[0]]|);
      i := i + 1;
    }
  }

  /** A path of at least two positions, as one in the list of targets. */
  function Lowered(g: Graph, q: seq<nat>, p: seq<nat>): (r: seq<nat>)
    requires WellFormed(g) && Within(g, q) && |p| > 1 && p[0] < |q|
    ensures |r| == |p| - 1
  {
    [Offset(g, q, p[0]) + p[1]] + p[2..]
  }

  lemma LoweredPath(g: Graph, q: seq<nat>, p: seq<nat>)
    requires WellFormed(g) && Within(g, q) && IsPath(g, q, p) && |p| > 1
    ensures IsPath(g, Targets(g, q), Lowered(g, q, p))
    ensures PathEnd(g, Targets(g, q), Lowered(g, q, p)) == PathEnd(g, q, p)
  {
    var r, rest := Lowered(g, q, p), p[1..];
    OffsetAt(g, q, p[0], p[1]);
    assert r[1..] == p[2..] && rest[1..] == p[2..];
  }

  lemma RaisedPath(g: Graph, q: seq<nat>, r: seq<nat>) returns (p: seq<nat>)
    requires WellFormed(g) && Within(g, q) && IsPath(g, Targets(g, q), r)
    ensures IsPath(g, q, p) && |p| == |r| + 1 && Lowered(g, q, p) == r
    ensures PathEnd(g, q, p) == PathEnd(g, Targets(g, q), r)
  {
    var i, e := Locate(g, q, r[0]);
    OffsetAt(g, q, i, e);
    p := [i] + ([e] + r[1..]);
    assert p[1..] == [e] + r[1..] && p[2..] == r[1..] && p[1..][1..] == r[1..];
    assert Lowered(g, q, p) == r;
    LoweredPath(g, q, p);
  }

  lemma LexTwo(x: seq<nat>, y: seq<nat>)
    requires |x| == |y| > 1
    ensures LexBefore(x, y) <==>
            x[0] < y[0] || (x[0] == y[0] && (x[1] < y[1] || (x[1] == y[1] && LexBefore(x[2..], y[2..]))))
  {
    assert x[1..][1..] == x[2..] && y[1..][1..] == y[2..];
  }

  lemma LexFrom(a: nat, b: nat, s: seq<nat>, t: seq<nat>)
    requires |s| == |t|
    ensures LexBefore([a] + s, [b] + t) <==> a < b || (a == b && LexBefore(s, t))
  {
    assert ([a] + s)[1..] == s && ([b] + t)[1..] == t;
  }

  lemma PositionsOrder(g: Graph, q: seq<nat>, i: nat, e: nat, j: nat, f: nat)
    requires WellFormed(g) && Within(g, q) && i < |q| && e < |g[q[i]]| && j < |q| && f < |g[q[j]]|
    ensures Offset(g, q, i) + e < Offset(g, q, j) + f <==> i < j || (i == j && e < f)
    ensures Offset(g, q, i) + e == Offset(g, q, j) + f <==> i == j && e == f
  {
    if i < j { OffsetRises(g, q, i, j); }
    if j < i { OffsetRises(g, q, j, i); }
  }

  lemma SameOrder(g: Graph, q: seq<nat>, x: seq<nat>, y: seq<nat>)
    requires WellFormed(g) && Within(g, q) && IsPath(g, q, x) && IsPath(g, q, y) && |x| > 1 && |y| > 1
    ensures PathBefore(Lowered(g, q, x), Lowered(g, q, y)) <==> PathBefore(x, y)
  {
    if |x| == |y| {
      LexTwo(x, y);
      PositionsOrder(g, q, x[0], x[1], y[0], y[1]);
      LexFrom(Offset(g, q, x[0]) + x[1], Offset(g, q, y[0]) + y[1], x[2..], y[2..]);
    }
  }

  lemma {:induction false} PathVisited(g: Graph, q: seq<nat>, k: nat, p: seq<nat>)
    requires WellFormed(g) && Within(g, q) && Queue(g, q, k) == [] && IsPath(g, q, p)
    ensures PathEnd(g, q, p) in Visits(g, q, k)
    decreases |p|
  {
    NextLevel(g, q, k);
    if |p| > 1 {
      LoweredPath(g, q, p);
      PathVisited(g, Targets(g, q), k - |q|, Lowered(g, q, p));
    }
  }

  /** The end of a walk is visited before the end of every walk that is after it in the order. */
  lemma {:induction false} PathsInOrder(g: Graph, q: seq<nat>, k: nat, x: seq<nat>, y: seq<nat>)
    requires WellFormed(g) && Within(g, q) && Queue(g, q, k) == []
    requires IsPath(g, q, x) && IsPath(g, q, y) && PathBefore(x, y)
    ensures VisitedBefore(Visits(g, q, k), PathEnd(g, q, x), PathEnd(g, q, y))
    decreases |x|
  {
    NextLevel(g, q, k);
    var w, rest := Visits(g, q, k), Visits(g, Targets(g, q), k - |q|);
    if |y| == 1 {
      assert x == [x[0]] + [] && y == [y[0]] + [];
      LexFrom(x[0], y[0], [], []);
      assert w[x[0]] == PathEnd(g, q, x) && w[y[0]] == PathEnd(g, q, y);
    } else {
      LoweredPath(g, q, y);
      if |x| == 1 {
        PathVisited(g, Targets(g, q), k - |q|, Lowered(g, q, y));
        FirstBeforeLater(q, rest, x[0], PathEnd(g, q, y));
      } else {
        LoweredPath(g, q, x);
        SameOrder(g, q, x, y);
        PathsInOrder(g, Targets(g, q), k - |q|, Lowered(g, q, x), Lowered(g, q, y));
        BeforeLater(q, rest, PathEnd(g, q, x), PathEnd(g, q, y));
      }
    }
  }

  lemma FirstBeforeLater(q: seq<nat>, rest: seq<nat>, i: nat, v: nat)
    requires i < |q| && v in rest
    ensures VisitedBefore(q + rest, q[i], v)
  {
    var j :| 0 <= j < |rest| && rest[j] == v;
    assert (q + rest)[i] == q[i] && (q + rest)[|q| + j] == v;
  }

  lemma BeforeLater(q: seq<nat>, rest: seq<nat>, u: nat, v: nat)
    requires VisitedBefore(rest, u, v)
    ensures VisitedBefore(q + rest, u, v)
  {
    var i, j :| 0 <= i < j < |rest| && rest[i] == u && rest[j] == v;
    assert (q + rest)[|q| + i] == u && (q + rest)[|q| + j] == v;
  }

  lemma {:induction false} VisitHasPath(g: Graph, q: seq<nat>, k: nat, i: nat) returns (p: seq<nat>)
    requires WellFormed(g) && Within(g, q) && Queue(g, q, k) == [] && i < |Visits(g, q, k)|
    ensures IsPath(g, q, p) && PathEnd(g, q, p) == Visits(g, q, k)[i] && (i >= |q| ==> |p| > 1)
    decreases i
  {
    NextLevel(g, q, k);
    if i < |q| {
      p := [i];
    } else if q != [] {
      p := VisitHasPath(g, Targets(g, q), k - |q|, i - |q|);
      p := RaisedPath(g, q, p);
    }
  }

  /** What is visited earlier is the end of a walk that comes earlier in the order. */
  lemma {:induction false} VisitsInOrder(g: Graph, q: seq<nat>, k: nat, i: nat, j: nat)
    returns (x: seq<nat>, y: seq<nat>)
    requires WellFormed(g) && Within(g, q) && Queue(g, q, k) == [] && i < j < |Visits(g, q, k)|
    ensures IsPath(g, q, x) && IsPath(g, q, y) && PathBefore(x, y)
    ensures PathEnd(g, q, x) == Visits(g, q, k)[i] && PathEnd(g, q, y) == Visits(g, q, k)[j]
    decreases i
  {
    NextLevel(g, q, k);
    if i < |q| {
      x, y := FirstInOrder(g, q, k, i, j);
    } else if q != [] {
      x, y := VisitsInOrder(g, Targets(g, q), k - |q|, i - |q|, j - |q|);
      x, y := RaisedInOrder(g, q, x, y);
    }
  }

  lemma FirstInOrder(g: Graph, q: seq<nat>, k: nat, i: nat, j: nat) returns (x: seq<nat>, y: seq<nat>)
    requires WellFormed(g) && Within(g, q) && Queue(g, q, k) == [] && i < j < |Visits(g, q, k)| && i < |q|
    ensures IsPath(g, q, x) && IsPath(g, q, y) && PathBefore(x, y)
    ensures PathEnd(g, q, x) == Visits(g, q, k)[i] && PathEnd(g, q, y) == Visits(g, q, k)[j]
  {
    NextLevel(g, q, k);
    x := [i];
    if j < |q| { y := [j]; } else { y := VisitHasPath(g, q, k, j); }
  }

  lemma RaisedInOrder(g: Graph, q: seq<nat>, a: seq<nat>, b: seq<nat>) returns (x: seq<nat>, y: seq<nat>)
    requires WellFormed(g) && Within(g, q) && Within(g, Targets(g, q))
    requires IsPath(g, Targets(g, q), a) && IsPath(g, Targets(g, q), b) && PathBefore(a, b)
    ensures IsPath(g, q, x) && IsPath(g, q, y) && PathBefore(x, y)
    ensures PathEnd(g, q, x) == PathEnd(g, Targets(g, q), a) && PathEnd(g, q, y) == PathEnd(g, Targets(g, q), b)
  {
    x := RaisedPath(g, q, a);
    y := RaisedPath(g, q, b);
    SameOrder(g, q, x, y);
  }

  ghost predicate EndsBefore(g: Graph, q: seq<nat>, x: seq<nat>, y: seq<nat>, u: nat, v: nat)
    requires WellFormed(g) && Within(g, q)
  {
    IsPath(g, q, x) && IsPath(g, q, y) && PathEnd(g, q, x) == u && PathEnd(g, q, y) == v && PathBefore(x, y)
  }

  /** One node is visited at some time before the last visit of another one exactly when some walk
      to the first comes before some walk to the second. */
  lemma VisitedBeforeIff(g: Graph, q: seq<nat>, k: nat, u: nat, v: nat)
    requires WellFormed(g) && Within(g, q) && Queue(g, q, k) == []
    ensures VisitedBefore(Visits(g, q, k), u, v) <==> exists x, y :: EndsBefore(g, q, x, y, u, v)
  {
    var w := Visits(g, q, k);
    if i, j :| 0 <= i < j < |w| && w[i] == u && w[j] == v {
      var x, y := VisitsInOrder(g, q, k, i, j);
      assert EndsBefore(g, q, x, y, u, v);
    }
    if x, y :| EndsBefore(g, q, x, y, u, v) {
      PathsInOrder(g, q, k, x, y);
    }
  }

  /** Round k of a traversal that ends: the head of the queue is the k-th visit. */
  lemma {:induction false} RoundAt(g: Graph, q: seq<nat>, n: nat, k: nat)
    requires WellFormed(g) && Within(g, q) && Queue(g, q, n) == [] && Queue(g, q, k) != []
    ensures k < |Visits(g, q, n)| && Visits(g, q, n)[k] == Queue(g, q, k)[0]
    ensures Queue(g, q, k + 1) == Next(g, Queue(g, q, k))
    decreases k
  {
    if k > 0 { RoundAt(g, Next(g, q), n - 1, k - 1); }
  }

  /** When the queue is empty after k rounds, k is the number of visits. */
  lemma {:induction false} RoundsDone(g: Graph, q: seq<nat>, n: nat, k: nat)
    requires WellFormed(g) && Within(g, q) && k <= |Visits(g, q, n)| && Queue(g, q, k) == []
    ensures k == |Visits(g, q, n)|
    decreases k
  {
    if k > 0 && q != [] { RoundsDone(g, Next(g, q), n - 1, k - 1); }
  }

  // ----- A worklist that only sometimes follows the edges -----------------------

  lemma AcyclicRest(g: Graph, q: seq<nat>, v: nat)
    requires WellFormed(g) && Within(g, q) && q != [] && AcyclicFrom(g, q)
    ensures Within(g, q[1..]) && AcyclicFrom(g, q[1..])
    ensures Potential(g, q[1..]) < Potential(g, q)
    ensures Visiting(g, q[1..], v) + (if q[0] == v then 1 else 0) <= Visiting(g, q, v)
  {
    assert WalksTo(g, q[0], v, |g|) >= if q[0] == v then 1 else 0;
  }

  /** The worklist after its first node has been taken off and has fired, or not. */
  function Advance(g: Graph, q: seq<nat>, fired: bool): (r: seq<nat>)
    requires WellFormed(g) && Within(g, q) && q != []
    ensures Within(g, r)
  {
    if fired then Next(g, q) else q[1..]
  }

  lemma AdvanceCost(g: Graph, q: seq<nat>, fired: bool, v: nat)
    requires WellFormed(g) && Within(g, q) && q != [] && AcyclicFrom(g, q)
    ensures AcyclicFrom(g, Advance(g, q, fired))
    ensures Potential(g, Advance(g, q, fired)) < Potential(g, q)
    ensures Visiting(g, Advance(g, q, fired), v) + (if q[0] == v then 1 else 0) <= Visiting(g, q, v)
  {
    if fired {
      AcyclicNext(g, q);
      RoundCost(g, q, v);
    } else {
      AcyclicRest(g, q, v);
    }
  }

  /** The worklist after n rounds, when the k-th node taken off it fires iff fires[k]
      (and none fires beyond the given ones). */
  function Pending(g: Graph, q: seq<nat>, fires: seq<bool>, n: nat): (r: seq<nat>)
    requires WellFormed(g) && Within(g, q)
    ensures Within(g, r)
    decreases n
  {
    if n == 0 then q
    else
      var p := Pending(g, q, fires, n - 1);
      if p == [] then [] else Advance(g, p, n <= |fires| && fires[n - 1])
  }

  /** The nodes taken off it in n rounds. */
  function Checked(g: Graph, q: seq<nat>, fires: seq<bool>, n: nat): seq<nat>
    requires WellFormed(g) && Within(g, q)
    decreases n
  {
    if n == 0 then []
    else
      var p := Pending(g, q, fires, n - 1);
      Checked(g, q, fires, n - 1) + if p == [] then [] else [p[0]]
  }

  lemma {:induction false} CountSnoc(v: nat, w: seq<nat>, x: nat)
    ensures Count(v, w + [x]) == Count(v, w) + if x == v then 1 else 0
  {
    if w != [] {
      CountSnoc(v, w[1..], x);
      assert (w + [x])[1..] == w[1..] + [x];
    }
  }

  /** The walks left to follow from p pay for the nodes c taken off a queue q. */
  ghost predicate PaidFor(g: Graph, q: seq<nat>, p: seq<nat>, c: seq<nat>, v: nat)
    requires WellFormed(g) && Within(g, q) && Within(g, p)
  {
    && AcyclicFrom(g, p)
    && Potential(g, p) + |c| <= Potential(g, q)
    && Visiting(g, p, v) + Count(v, c) <= Visiting(g, q, v)
  }

  lemma PaidRound(g: Graph, q: seq<nat>, p: seq<nat>, c: seq<nat>, fired: bool, v: nat)
    requires WellFormed(g) && Within(g, q) && Within(g, p) && p != [] && PaidFor(g, q, p, c, v)
    ensures PaidFor(g, q, Advance(g, p, fired), c + [p[0]], v)
  {
    AdvanceCost(g, p, fired, v);
    CountSnoc(v, c, p[0]);
  }

  /** In every round the walks left to follow pay for the nodes taken off. */
  lemma {:induction false} PendingCost(g: Graph, q: seq<nat>, fires: seq<bool>, n: nat, v: nat)
    requires WellFormed(g) && Within(g, q) && AcyclicFrom(g, q)
    ensures PaidFor(g, q, Pending(g, q, fires, n), Checked(g, q, fires, n), v)
  {
    if n > 0 {
      PendingCost(g, q, fires, n - 1, v);
      var p := Pending(g, q, fires, n - 1);
      if p != [] {
        PaidRound(g, q, p, Checked(g, q, fires, n - 1), n <= |fires| && fires[n - 1], v);
      } else {
        assert Checked(g, q, fires, n) == Checked(g, q, fires, n - 1);
      }
    }
  }

  /** Whatever fires, the worklist of an acyclic graph empties within as many rounds as
      there are walks from it, and no node is ever taken off it more often than there
      are walks to it. */
  lemma WorklistEmpties(g: Graph, q: seq<nat>, fires: seq<bool>, n: nat, v: nat)
    requires WellFormed(g) && Within(g, q) && AcyclicFrom(g, q)
    ensures Count(v, Checked(g, q, fires, n)) <= Visiting(g, q, v)
    ensures n >= Potential(g, q) ==> Pending(g, q, fires, n) == []
  {
    PendingCost(g, q, fires, n, v);
    if Pending(g, q, fires, n) != [] {
      StillPending(g, q, fires, n);
    }
  }

  lemma {:induction false} StillPending(g: Graph, q: seq<nat>, fires: seq<bool>, n: nat)
    requires WellFormed(g) && Within(g, q) && Pending(g, q, fires, n) != []
    ensures |Checked(g, q, fires, n)| == n
    ensures Potential(g, Pending(g, q, fires, n)) > 0
  {
    if n > 0 && Pending(g, q, fires, n - 1) != [] { StillPending(g, q, fires, n - 1); }
  }

  lemma {:induction false} QueueSnoc(g: Graph, q: seq<nat>, n: nat)
    requires WellFormed(g) && Within(g, q) && n > 0
    ensures Queue(g, q, n) == if Queue(g, q, n - 1) == [] then [] else Next(g, Queue(g, q, n - 1))
    ensures Visits(g, q, n) == Visits(g, q, n - 1) + if Queue(g, q, n - 1) == [] then [] else [Queue(g, q, n - 1)[0]]
    decreases n
  {
    if n > 1 && q != [] { QueueSnoc(g, Next(g, q), n - 1); }
  }

  /** The queue after one more round. */
  function Turn(g: Graph, p: seq<nat>): (r: seq<nat>)
    requires WellFormed(g) && Within(g, p)
    ensures Within(g, r)
  {
    if p == [] then [] else Next(g, p)
  }

  lemma QueueTurns(g: Graph, q: seq<nat>, n: nat)
    requires WellFormed(g) && Within(g, q) && n > 0
    ensures Queue(g, q, n) == Turn(g, Queue(g, q, n - 1))
    ensures Visits(g, q, n) == Visits(g, q, n - 1) + Queue(g, q, n - 1)[..if Queue(g, q, n - 1) == [] then 0 else 1]
  {
    QueueSnoc(g, q, n);
  }

  /** Round n when its node fires. */
  lemma FiringRound(g: Graph, q: seq<nat>, fires: seq<bool>, n: nat)
    requires WellFormed(g) && Within(g, q) && 0 < n <= |fires| && fires[n - 1]
    ensures Pending(g, q, fires, n) == Turn(g, Pending(g, q, fires, n - 1))
    ensures Checked(g, q, fires, n) ==
            Checked(g, q, fires, n - 1) +
            Pending(g, q, fires, n - 1)[..if Pending(g, q, fires, n - 1) == [] then 0 else 1]
  {
  }

  /** When every node fires, the worklist does the full traversal. */
  lemma {:induction false} AllFiringTraverses(g: Graph, q: seq<nat>, fires: seq<bool>, n: nat)
    requires WellFormed(g) && Within(g, q) && n <= |fires| && forall k | 0 <= k < n :: fires[k]
    ensures Pending(g, q, fires, n) == Queue(g, q, n)
    ensures Checked(g, q, fires, n) == Visits(g, q, n)
  {
    if n > 0 {
      AllFiringTraverses(g, q, fires, n - 1);
      QueueTurns(g, q, n);
      FiringRound(g, q, fires, n);
    }
  }

  /** The outputs of the checked nodes that fired, in the order of the checks. */
  function FiredOutputs(g: Graph, checked: seq<nat>, fires: seq<bool>): seq<nat>
    requires Within(g, checked)
  {
    if checked == [] then []
    else
      var n := |checked| - 1;
      FiredOutputs(g, checked[..n], fires) + if n < |fires| && fires[n] then g[checked[n]] else []
  }

  lemma FiredOneMore(g: Graph, checked: seq<nat>, v: nat, fires: seq<bool>)
    requires Within(g, checked) && v < |g|
    ensures Within(g, checked + [v])
    ensures FiredOutputs(g, checked + [v], fires) ==
            FiredOutputs(g, checked, fires) + if |checked| < |fires| && fires[|checked|] then g[v] else []
  {
    assert (checked + [v])[..|checked|] == checked;
  }

  lemma TakeFirst<T>(done: seq<T>, p: seq<T>, more: seq<T>, start: seq<T>, out: seq<T>)
    requires p != [] && done + p == start + out
    ensures (done + [p[0]]) + (p[1..] + more) == start + (out + more)
  {
    assert p == [p[0]] + p[1..];
    assert (done + [p[0]]) + (p[1..] + more) == (done + p) + more;
    assert (start + out) + more == start + (out + more);
  }

  lemma {:induction false} CheckedWithin(g: Graph, q: seq<nat>, fires: seq<bool>, n: nat)
    requires WellFormed(g) && Within(g, q)
    ensures Within(g, Checked(g, q, fires, n))
    ensures |Checked(g, q, fires, n)| <= n && (Pending(g, q, fires, n) != [] ==> |Checked(g, q, fires, n)| == n)
  {
    if n > 0 { CheckedWithin(g, q, fires, n - 1); }
  }

  /** What has been checked and what is still to be checked is the starting list and the outputs of
      the checks that fired, in the order of these checks. */
  predicate Balanced(g: Graph, q: seq<nat>, done: seq<nat>, p: seq<nat>, fires: seq<bool>)
    requires Within(g, done)
  {
    done + p == q + FiredOutputs(g, done, fires)
  }

  lemma AdvanceBalanced(g: Graph, q: seq<nat>, done: seq<nat>, p: seq<nat>, fires: seq<bool>)
    requires WellFormed(g) && Within(g, done) && Within(g, p) && p != [] && Balanced(g, q, done, p, fires)
    ensures Within(g, done + [p[0]])
    ensures Balanced(g, q, done + [p[0]], Advance(g, p, |done| < |fires| && fires[|done|]), fires)
  {
    var fired := |done| < |fires| && fires[|done|];
    FiredOneMore(g, done, p[0], fires);
    AdvanceAppends(g, p, fired);
    TakeFirst(done, p, if fired then g[p[0]] else [], q, FiredOutputs(g, done, fires));
  }

  lemma AdvanceAppends(g: Graph, p: seq<nat>, fired: bool)
    requires WellFormed(g) && Within(g, p) && p != []
    ensures Advance(g, p, fired) == p[1..] + if fired then g[p[0]] else []
  {
    assert p[1..] + [] == p[1..];
  }

  lemma {:induction false} CheckedAndPending(g: Graph, q: seq<nat>, fires: seq<bool>, n: nat,
                                             done: seq<nat>, p: seq<nat>)
    requires WellFormed(g) && Within(g, q) && done == Checked(g, q, fires, n) && p == Pending(g, q, fires, n)
    ensures Within(g, done) && Balanced(g, q, done, p, fires)
  {
    if n == 0 {
      assert [] + q == q + [];
    } else {
      var before, todo := Checked(g, q, fires, n - 1), Pending(g, q, fires, n - 1);
      CheckedAndPending(g, q, fires, n - 1, before, todo);
      CheckedWithin(g, q, fires, n - 1);
      if todo != [] { AdvanceBalanced(g, q, before, todo, fires); } else { assert done == before; }
    }
  }

  /** What has been checked is the starting list and then the outputs of the checks that fired. */
  ghost predicate FromFired(g: Graph, q: seq<nat>, fires: seq<bool>, checked: seq<nat>) {
    Within(g, checked) && checked == q + FiredOutputs(g, checked, fires)
  }

  lemma AllChecked(g: Graph, q: seq<nat>, fires: seq<bool>, n: nat, checked: seq<nat>)
    requires WellFormed(g) && Within(g, q) && Pending(g, q, fires, n) == [] && checked == Checked(g, q, fires, n)
    ensures FromFired(g, q, fires, checked)
  {
    CheckedAndPending(g, q, fires, n, checked, []);
    assert checked + [] == checked;
  }

  /** When the worklist is empty, each node has been checked as often as it is in the starting list
      and in the outputs of the checks that fired; when nothing fires, only the starting list is
      checked. */
  lemma CheckedExactly(g: Graph, q: seq<nat>, fires: seq<bool>, n: nat, v: nat)
    requires WellFormed(g) && Within(g, q) && Pending(g, q, fires, n) == []
    ensures var checked := Checked(g, q, fires, n);
            && Within(g, checked) && checked == q + FiredOutputs(g, checked, fires)
            && Count(v, checked) == Count(v, q) + FiredCount(g, checked, fires, v)
            && ((forall k | 0 <= k < |fires| :: !fires[k]) ==> checked == q)
  {
    var checked := Checked(g, q, fires, n);
    AllChecked(g, q, fires, n, checked);
    CountAppend(v, q, FiredOutputs(g, checked, fires));
    FiredCounted(g, checked, fires, v);
    if forall k | 0 <= k < |fires| :: !fires[k] {
      NoneFired(g, checked, fires);
      assert q + [] == q;
    }
  }

  lemma {:induction false} CountAppend(v: nat, p: seq<nat>, q: seq<nat>)
    ensures Count(v, p + q) == Count(v, p) + Count(v, q)
  {
    if p == [] {
      assert p + q == q;
    } else {
      CountAppend(v, p[1..], q);
      assert (p + q)[1..] == p[1..] + q;
    }
  }

  /** How often v is in the outputs of the checks that fired. */
  function FiredCount(g: Graph, checked: seq<nat>, fires: seq<bool>, v: nat): nat
    requires Within(g, checked)
  {
    if checked == [] then 0
    else
      var n := |checked| - 1;
      FiredCount(g, checked[..n], fires, v) + if n < |fires| && fires[n] then Count(v, g[checked[n]]) else 0
  }

  lemma {:induction false} FiredCounted(g: Graph, checked: seq<nat>, fires: seq<bool>, v: nat)
    requires Within(g, checked)
    ensures Count(v, FiredOutputs(g, checked, fires)) == FiredCount(g, checked, fires, v)
  {
    if checked != [] {
      var n := |checked| - 1;
      FiredCounted(g, checked[..n], fires, v);
      CountAppend(v, FiredOutputs(g, checked[..n], fires), if n < |fires| && fires[n] then g[checked[n]] else []);
    }
  }

  lemma {:induction false} NoneFired(g: Graph, checked: seq<nat>, fires: seq<bool>)
    requires Within(g, checked) && forall k | 0 <= k < |fires| :: !fires[k]
    ensures FiredOutputs(g, checked, fires) == []
  {
    if checked != [] { NoneFired(g, checked[..|checked| - 1], fires); }
  }
}
