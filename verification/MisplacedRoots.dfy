/** A small graph whose roots could come first and that sorting nevertheless refuses, as a node
    that is no root has the smaller number on the level of a root. */
module MisplacedRoots {
  import opened Basics
  import opened Streams
  import opened Walks
  import opened Wiring
  import opened SmallGraphs
  import opened Toposort
  import opened Ordering

  /** Node 0 reads input 1 and writes unbuffered 1; node 1 reads unbuffered 1 and writes
      unbuffered 2; node 2 reads input 2 and unbuffered 1 and writes unbuffered 3. */
  predicate Sample(ds: seq<NodeSpec>) {
    && |ds| == 3
    && ds[0] == NodeSpec(User(UNBUFFERED, 1), [Single(INPUT, 1)])
    && ds[1] == NodeSpec(User(UNBUFFERED, 2), [Single(UNBUFFERED, 1)])
    && ds[2] == NodeSpec(User(UNBUFFERED, 3), [Single(INPUT, 2), Single(UNBUFFERED, 1)])
  }

  /** Nodes 1 and 2 read node 0. */
  predicate Follows(a: nat, b: nat) { a == 0 && (b == 1 || b == 2) }

  lemma WhoReads(ds: seq<NodeSpec>, a: nat, b: nat)
    requires Sample(ds) && a < 3 && b < 3
    ensures Reads(ds[b], ds[a].stream) <==> Follows(a, b)
    ensures MatchCount(ds[b].inputs, ds[a].stream) == Bit(Reads(ds[b], ds[a].stream))
    ensures (IsRoot(ds[b].inputs) <==> b != 1) && !Hidden(ds, a, b)
  {
    if b == 2 {
      ReadsTwo(ds[b], Single(INPUT, 2), Single(UNBUFFERED, 1), ds[a].stream);
    } else {
      ReadsOne(ds[b], if b == 0 then Single(INPUT, 1) else Single(UNBUFFERED, 1), ds[a].stream);
    }
    if Hidden(ds, a, b) { HiddenWritesInput(ds, a, b); }
  }

  lemma ConnectedOnce(ds: seq<NodeSpec>, g: Graph, a: nat, b: nat)
    requires Sample(ds) && g == Build(ds).outputs && a < 3 && b < 3
    ensures |g| == 3 && (b in g[a] <==> Follows(a, b)) && Count(b, g[a]) == Bit(Follows(a, b))
  {
    WhoReads(ds, a, b);
    EdgeIffReads(ds, a, b);
    CountPositive(b, g[a]);
    if a != b {
      Multiplicity(ds, a, b);
      WiredExactlyWhen(ds, a, b);
      NoneHidden(ds, a, b);
    }
  }

  lemma NoneHidden(ds: seq<NodeSpec>, a: nat, b: nat)
    requires Sample(ds) && a < 3 && b < 3
    ensures !FirstInputMatches(ds[b], ds[a].stream)
  {
  }

  lemma Roots(ds: seq<NodeSpec>)
    requires Sample(ds)
    ensures Build(ds).roots == [0, 2]
  {
    var q := Build(ds).roots;
    RootsRise(ds);
    forall b: nat ensures b in q <==> b == 0 || b == 2 {
      if b < 3 {
        RootsBuilt(ds, b);
        WhoReads(ds, b, b);
      }
    }
    TwoRoots(q, 0, 2);
  }

  /** Connections lead from node 0 to nodes 1 and 2 only. */
  ghost predicate Fork(g: Graph) {
    |g| == 3 && forall a: nat, b: nat | a < 3 :: b in g[a] <==> Follows(a, b)
  }

  lemma ForkIsAcyclic(g: Graph, q: seq<nat>)
    requires Fork(g)
    ensures AcyclicFrom(g, q)
  {
    forall w | IsWalk(g, w) && w[0] in q ensures !Repeats(w) {
      forall i, j | 0 <= i < j < |w| ensures w[i] != w[j] {
        Rises(g, w, i, j);
      }
    }
  }

  lemma {:induction false} Rises(g: Graph, w: seq<nat>, i: nat, j: nat)
    requires Fork(g) && IsWalk(g, w) && i < j < |w|
    ensures w[i] < w[j]
  {
    var m := j - 1;
    assert w[j] in g[w[m]];
    if i < m { Rises(g, w, i, m); }
  }

  lemma AllReachable(g: Graph, v: nat)
    requires Fork(g)
    ensures Reachable(g, [0, 2], v) <==> v < 3
  {
    if v < 3 {
      var w := if v == 1 then [0, 1] else [v];
      assert IsWalk(g, w) && w[0] in [0, 2] && w[|w| - 1] == v;
    }
  }

  lemma BuiltSample(ds: seq<NodeSpec>, net: Net)
    requires Sample(ds) && net == Build(ds)
    ensures Fork(net.outputs) && net.roots == [0, 2] && BuiltFrom(net, ds)
  {
    BuildShape(ds);
    Roots(ds);
    forall a: nat, b: nat | a < 3 ensures b in net.outputs[a] <==> Follows(a, b) {
      if b < 3 { ConnectedOnce(ds, net.outputs, a, b); }
    }
  }

  lemma SampleNeeds(ds: seq<NodeSpec>, net: Net, v: nat)
    requires Sample(ds) && Traversable(net) && BuiltFrom(net, ds) && Fork(net.outputs) && net.roots == [0, 2]
    ensures v in Dependencies(net) <==> v < 3
    ensures Needs(Dependencies(net), v) == if v == 1 || v == 2 then {0} else {}
  {
    AllReachable(net.outputs, v);
    NeedsAreBefore(net, ds, v);
    forall u: nat ensures Before(net, ds, u, v) <==> Follows(u, v) {
      AllReachable(net.outputs, u);
      if u < 3 && v < 3 { WhoReads(ds, u, v); }
    }
  }

  /** What is known of the dependencies: nodes 1 and 2 need node 0. */
  predicate ForkNeeds(deps: map<nat, set<nat>>) {
    && deps.Keys == {0, 1, 2}
    && Needs(deps, 0) == {} && Needs(deps, 1) == {0} && Needs(deps, 2) == {0}
  }

  lemma ForkItems(deps: map<nat, set<nat>>)
    requires ForkNeeds(deps)
    ensures Items(deps) == {0, 1, 2}
  {
  }

  lemma RootsLead(deps: map<nat, set<nat>>)
    requires ForkNeeds(deps)
    ensures IsTopologicalOrder(deps, [0, 2, 1]) && RootsFirst([0, 2], [0, 2, 1])
  {
    var w := [0, 2, 1];
    ForkItems(deps);
    assert w[..1] == [0] && w[..2] == [0, 2];
    assert NeedsMet(deps, w, 0) && NeedsMet(deps, w, 1) && NeedsMet(deps, w, 2);
  }

  lemma SameLevels(deps: map<nat, set<nat>>, k: nat)
    requires ForkNeeds(deps)
    ensures 1 in Done(deps, k) <==> 2 in Done(deps, k)
  {
    ForkItems(deps);
  }

  lemma OneIsEarlier(deps: map<nat, set<nat>>)
    requires ForkNeeds(deps)
    ensures Earlier(deps, 1, 2) && !Earlier(deps, 2, 1)
  {
    if LowerLevel(deps, 2, 1) {
      var k: nat :| 2 in Done(deps, k) && 1 !in Done(deps, k);
      SameLevels(deps, k);
    }
    EarlierIsOrder(deps, 1, 2);
  }

  lemma SampleDependencies(ds: seq<NodeSpec>, net: Net)
    requires Sample(ds) && Traversable(net) && BuiltFrom(net, ds) && Fork(net.outputs) && net.roots == [0, 2]
    ensures ForkNeeds(Dependencies(net))
  {
    forall v: nat ensures v in Dependencies(net).Keys <==> v in {0, 1, 2} {
      SampleNeeds(ds, net, v);
    }
    SampleNeeds(ds, net, 0);
    SampleNeeds(ds, net, 1);
    SampleNeeds(ds, net, 2);
  }

  lemma OrderHasNoCircle(net: Net, ds: seq<NodeSpec>, w: seq<nat>)
    requires Traversable(net) && BuiltFrom(net, ds) && IsTopologicalOrder(Dependencies(net), w)
    ensures !HasCircle(net, ds)
  {
    DeadlockIffCircle(net, ds);
    forall stuck ensures !Deadlock(Dependencies(net), stuck) {
      OrderHasNoDeadlock(Dependencies(net), w, stuck);
    }
  }

  /** Whatever the sort emits, the check on roots refuses it. */
  ghost predicate Refused(net: Net)
    requires net.Valid()
  {
    forall w | IsTopologicalOrder(Dependencies(net), w) && LevelOrder(Dependencies(net), w) :: !RootsFirst(net.roots, w)
  }

  lemma NotFirst(net: Net, ds: seq<NodeSpec>, deps: map<nat, set<nat>>, w: seq<nat>)
    requires Traversable(net) && BuiltFrom(net, ds) && net.roots == [0, 2] && deps == Dependencies(net) &&
             ForkNeeds(deps)
    requires IsTopologicalOrder(deps, w) && LevelOrder(deps, w)
    ensures !RootsFirst(net.roots, w)
  {
    OneIsEarlier(deps);
    ForkItems(deps);
    assert 1 in Elements(w);
    RootsListed(net, ds, w);
    RootsFirstExactly(deps, net.roots, w);
  }

  lemma AlwaysRefused(net: Net, ds: seq<NodeSpec>)
    requires Traversable(net) && BuiltFrom(net, ds) && net.roots == [0, 2] && ForkNeeds(Dependencies(net))
    ensures Refused(net)
  {
    forall w | IsTopologicalOrder(Dependencies(net), w) && LevelOrder(Dependencies(net), w)
      ensures !RootsFirst(net.roots, w)
    {
      NotFirst(net, ds, Dependencies(net), w);
    }
  }

  lemma CouldLead(net: Net, ds: seq<NodeSpec>)
    requires Traversable(net) && BuiltFrom(net, ds) && net.roots == [0, 2] && ForkNeeds(Dependencies(net))
    ensures !HasCircle(net, ds) && RootsCanLead(Dependencies(net), net.roots)
  {
    RootsLead(Dependencies(net));
    OrderHasNoCircle(net, ds, [0, 2, 1]);
  }

  /** No node writes an input stream, and each connection is there; no nodes wait for each other
      in a circle, and the order 0, 2, 1 has the roots first.  But the sort emits node 1 before
      root 2, as both are on one level, and the check on roots refuses that. */
  lemma SortingRefuses(ds: seq<NodeSpec>, net: Net)
    requires Sample(ds) && net == Build(ds)
    ensures NoInputWriters(ds) && Fork(net.outputs) && net.roots == [0, 2] && Traversable(net) && BuiltFrom(net, ds)
    ensures ForkNeeds(Dependencies(net)) && !HasCircle(net, ds)
    ensures RootsCanLead(Dependencies(net), net.roots) && Refused(net)
  {
    SampleGraph(ds, net);
    SampleDependencies(ds, net);
    CouldLead(net, ds);
    AlwaysRefused(net, ds);
  }

  lemma SampleGraph(ds: seq<NodeSpec>, net: Net)
    requires Sample(ds) && net == Build(ds)
    ensures NoInputWriters(ds) && Fork(net.outputs) && net.roots == [0, 2] && Traversable(net) && BuiltFrom(net, ds)
  {
    BuiltSample(ds, net);
    ForkIsAcyclic(net.outputs, net.roots);
  }
}
