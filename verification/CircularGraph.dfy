/** A small graph without a cycle of connections that sorting nevertheless rejects: one node
    writes the input stream that makes another one, added later, a root. */
module CircularGraph {
  import opened Basics
  import opened Streams
  import opened Walks
  import opened Wiring
  import opened SmallGraphs
  import opened Toposort
  import opened Ordering

  /** Node 0 reads unbuffered 1 and writes input 5; node 1 reads input 5 and unbuffered 2 and
      writes unbuffered 1; node 2 reads input 6 and writes unbuffered 2. */
  predicate Sample(ds: seq<NodeSpec>) {
    && |ds| == 3
    && ds[0] == NodeSpec(User(INPUT, 5), [Single(UNBUFFERED, 1)])
    && ds[1] == NodeSpec(User(UNBUFFERED, 1), [Single(INPUT, 5), Single(UNBUFFERED, 2)])
    && ds[2] == NodeSpec(User(UNBUFFERED, 2), [Single(INPUT, 6)])
  }

  /** Which node reads which: 1 reads 0, but hidden, 0 reads 1 and 1 reads 2. */
  lemma WhoReads(ds: seq<NodeSpec>, a: nat, b: nat)
    requires Sample(ds) && a < 3 && b < 3
    ensures Reads(ds[b], ds[a].stream) <==> (a == 0 && b == 1) || (a == 1 && b == 0) || (a == 2 && b == 1)
    ensures MatchCount(ds[b].inputs, ds[a].stream) == Bit(Reads(ds[b], ds[a].stream))
    ensures IsRoot(ds[b].inputs) <==> b > 0
  {
    if b == 1 {
      ReadsTwo(ds[b], Single(INPUT, 5), Single(UNBUFFERED, 2), ds[a].stream);
    } else {
      ReadsOne(ds[b], if b == 0 then Single(UNBUFFERED, 1) else Single(INPUT, 6), ds[a].stream);
    }
  }

  lemma HiddenPair(ds: seq<NodeSpec>)
    requires Sample(ds)
    ensures Hidden(ds, 0, 1) && !Hidden(ds, 2, 1) && !Hidden(ds, 1, 0)
  {
    WhoReads(ds, 0, 1);
    assert FirstInput(ds[1].inputs, 0) && ds[1].inputs[0].Matches(ds[0].stream);
  }

  lemma Connections(ds: seq<NodeSpec>, g: Graph)
    requires Sample(ds) && g == Build(ds).outputs
    ensures |g| == 3 && g[0] == [] && g[1] == [0] && g[2] == [1]
  {
    EachOnce(ds, g);
    forall a, x | 0 <= a < 3 && x in g[a] ensures (a == 1 && x == 0) || (a == 2 && x == 1) {
      EdgeOf(ds, g, a, x);
    }
    HeadIsIn(g[0]);
    OneOutput(g[1], 0);
    OneOutput(g[2], 1);
  }

  lemma EdgeOf(ds: seq<NodeSpec>, g: Graph, a: nat, x: nat)
    requires Sample(ds) && g == Build(ds).outputs && a < |g| && x in g[a]
    ensures (a == 1 && x == 0) || (a == 2 && x == 1)
  {
    assert WellFormed(g);
    WhoReads(ds, a, x);
    EdgeIffReads(ds, a, x);
    HiddenPair(ds);
  }

  lemma EachOnce(ds: seq<NodeSpec>, g: Graph)
    requires Sample(ds) && g == Build(ds).outputs
    ensures |g| == 3 && Count(0, g[1]) == 1 && Count(1, g[2]) == 1
  {
    WhoReads(ds, 1, 0);
    WhoReads(ds, 2, 1);
    Multiplicity(ds, 1, 0);
    Multiplicity(ds, 2, 1);
  }

  lemma Roots(ds: seq<NodeSpec>)
    requires Sample(ds)
    ensures Build(ds).roots == [1, 2]
  {
    var q := Build(ds).roots;
    RootsRise(ds);
    forall b: nat ensures b in q <==> b == 1 || b == 2 {
      if b < 3 {
        RootsBuilt(ds, b);
        WhoReads(ds, b, b);
      }
    }
    TwoRoots(q, 1, 2);
  }

  lemma NoCycle(g: Graph, q: seq<nat>)
    requires g == [[], [0], [1]]
    ensures AcyclicFrom(g, q)
  {
    forall w | IsWalk(g, w) && w[0] in q ensures !Repeats(w) {
      forall i, j | 0 <= i < j < |w| ensures w[i] != w[j] {
        Falls(g, w, i, j);
      }
    }
  }

  lemma {:induction false} Falls(g: Graph, w: seq<nat>, i: nat, j: nat)
    requires g == [[], [0], [1]] && IsWalk(g, w) && i < j < |w|
    ensures w[j] < w[i]
  {
    var m := j - 1;
    assert w[j] in g[w[m]];
    if i < m { Falls(g, w, i, m); }
  }

  lemma Rounds(g: Graph)
    requires g == [[], [0], [1]]
    ensures WellFormed(g) && Within(g, [1, 2])
    ensures Queue(g, [1, 2], 2) == [0, 1] && Queue(g, [1, 2], 3) == [1]
  {
    assert Next(g, [1, 2]) == [2, 0];
    assert Next(g, [2, 0]) == [0, 1];
    assert Next(g, [0, 1]) == [1];
    assert Queue(g, [2, 0], 1) == [0, 1] && Queue(g, [2, 0], 2) == Queue(g, [0, 1], 1) == [1];
  }

  lemma ZeroSeenFirst(net: Net)
    requires Traversable(net) && net.outputs == [[], [0], [1]] && net.roots == [1, 2]
    ensures SeenFirst(net, 0, 1)
  {
    var g, q := net.outputs, net.roots;
    Rounds(g);
    ExactRounds(g, q, 0);
    RoundAt(g, q, Potential(g, q), 2);
    RoundAt(g, q, Potential(g, q), 3);
    assert Traversal(net)[2] == 0 && Traversal(net)[3] == 1;
  }

  lemma BothReachable(g: Graph)
    requires g == [[], [0], [1]]
    ensures Reachable(g, [1, 2], 0) && Reachable(g, [1, 2], 1)
  {
    assert IsWalk(g, [1]) && [1][0] in [1, 2] && [1][|[1]| - 1] == 1;
    assert IsWalk(g, [1, 0]) && [1, 0][0] in [1, 2] && [1, 0][|[1, 0]| - 1] == 0;
  }

  lemma Mutual(net: Net, ds: seq<NodeSpec>)
    requires Sample(ds) && Traversable(net) && net.outputs == [[], [0], [1]] && net.roots == [1, 2]
    ensures Circle(net, ds, [0, 1, 0])
  {
    BothReachable(net.outputs);
    WhoReads(ds, 0, 1);
    WhoReads(ds, 1, 0);
    HiddenPair(ds);
    ZeroSeenFirst(net);
    assert ReadsFrom(net, ds, 1, 0) && ReadsFrom(net, ds, 0, 1);
    assert Before(net, ds, 0, 1) && Before(net, ds, 1, 0);
  }

  lemma Backward(net: Net, ds: seq<NodeSpec>)
    requires Sample(ds) && Traversable(net) && BuiltFrom(net, ds) && Circle(net, ds, [0, 1, 0]) && net.roots == [1, 2]
    ensures HiddenBack(net, ds, 0, 1)
  {
    HiddenPair(ds);
    assert Before(net, ds, [0, 1, 0][1], [0, 1, 0][2]);
    ConnectedSeenFirst(net, ds, 1, 0);
  }

  lemma BuiltSample(ds: seq<NodeSpec>, net: Net)
    requires Sample(ds) && net == Build(ds)
    ensures net.outputs == [[], [0], [1]] && net.roots == [1, 2] && BuiltFrom(net, ds)
  {
    BuildShape(ds);
    Connections(ds, net.outputs);
    SameOutputs(net.outputs);
    Roots(ds);
  }

  lemma SameOutputs(g: Graph)
    requires |g| == 3 && g[0] == [] && g[1] == [0] && g[2] == [1]
    ensures g == [[], [0], [1]]
  {
  }

  /** The nodes are visited in the order 1, 2, 0, 1, 0: node 0 before the last visit of 1,
      and 1 before that of 0.  Each reads the other, so both wait for each other. */
  lemma SortingRejects(ds: seq<NodeSpec>, net: Net)
    requires Sample(ds) && net == Build(ds)
    ensures net.outputs == [[], [0], [1]] && net.roots == [1, 2] && Traversable(net) && BuiltFrom(net, ds)
    ensures Circle(net, ds, [0, 1, 0]) && HiddenBack(net, ds, 0, 1)
    ensures Deadlock(Dependencies(net), Elements([0, 1, 0]))
  {
    BuiltSample(ds, net);
    WaitsInCircle(ds, net);
  }

  lemma WaitsInCircle(ds: seq<NodeSpec>, net: Net)
    requires Sample(ds) && BuiltFrom(net, ds) && net.Valid() && net.outputs == [[], [0], [1]] && net.roots == [1, 2]
    ensures Traversable(net) && Circle(net, ds, [0, 1, 0]) && HiddenBack(net, ds, 0, 1)
    ensures Deadlock(Dependencies(net), Elements([0, 1, 0]))
  {
    NoCycle(net.outputs, net.roots);
    Mutual(net, ds);
    CircleDeadlocks(net, ds, [0, 1, 0]);
    Backward(net, ds);
  }
}
