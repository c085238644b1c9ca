/** The dependency table that sorting reads off the breadth-first traversal, and when
    it is complete: the traversal visits nodes over and over, and the table keeps
    what was known at each node's last visit. */
module Ordering {
  import opened Basics
  import opened Streams
  import opened Walks
  import opened Wiring
  import opened Toposort

  /** One pass over the nodes seen so far for one input. */
  function Scan(specs: seq<NodeSpec>, sel: Selector, seen: seq<nat>, found: seq<nat>): seq<nat>
    requires forall k | 0 <= k < |seen| :: seen[k] < |specs|
  {
    if seen == [] then found
    else
      var found' := if sel.Matches(specs[seen[0]].stream) && seen[0] !in found then found + [seen[0]] else found;
      Scan(specs, sel, seen[1..], found')
  }

  /** The input list that is yielded for a node: over its inputs in order, every
      matching node seen so far, each once. */
  function Collect(specs: seq<NodeSpec>, inputs: seq<Selector>, seen: seq<nat>, found: seq<nat>): seq<nat>
    requires forall k | 0 <= k < |seen| :: seen[k] < |specs|
  {
    if inputs == [] then found
    else Collect(specs, inputs[1..], seen, Scan(specs, inputs[0], seen, found))
  }

  lemma {:induction false} ScanFinds(specs: seq<NodeSpec>, sel: Selector, seen: seq<nat>, found: seq<nat>)
    requires forall k | 0 <= k < |seen| :: seen[k] < |specs|
    requires Distinct(found)
    ensures Distinct(Scan(specs, sel, seen, found))
    ensures forall u: nat :: u in Scan(specs, sel, seen, found) <==>
                             u in found || (u in seen && sel.Matches(specs[u].stream))
  {
    if seen != [] {
      var found' := if sel.Matches(specs[seen[0]].stream) && seen[0] !in found then found + [seen[0]] else found;
      ScanFinds(specs, sel, seen[1..], found');
      assert seen == [seen[0]] + seen[1..];
    }
  }

  /** The list yielded for a node has no repetitions and holds exactly the nodes seen
      so far whose stream one of its inputs reads. */
  lemma {:induction false} CollectFinds(specs: seq<NodeSpec>, inputs: seq<Selector>, seen: seq<nat>, found: seq<nat>)
    requires forall k | 0 <= k < |seen| :: seen[k] < |specs|
    requires Distinct(found)
    ensures Distinct(Collect(specs, inputs, seen, found))
    ensures forall u: nat :: u in Collect(specs, inputs, seen, found) <==>
                             u in found ||
                             (u in seen && exists i :: 0 <= i < |inputs| && inputs[i].Matches(specs[u].stream))
  {
    if inputs != [] {
      var found' := Scan(specs, inputs[0], seen, found);
      ScanFinds(specs, inputs[0], seen, found);
      CollectFinds(specs, inputs[1..], seen, found');
      forall u: nat ensures u in Collect(specs, inputs, seen, found) <==>
                            u in found ||
                            (u in seen && exists i :: 0 <= i < |inputs| && inputs[i].Matches(specs[u].stream))
      {
        if i :| 0 <= i < |inputs[1..]| && u in seen && inputs[1..][i].Matches(specs[u].stream) {
          assert inputs[i + 1].Matches(specs[u].stream);
        }
        if i :| 0 <= i < |inputs| && u in seen && inputs[i].Matches(specs[u].stream) && i > 0 {
          assert inputs[1..][i - 1].Matches(specs[u].stream);
        }
      }
    }
  }

  // ----- The traversal of a net ---------------------------------------------

  ghost predicate Traversable(net: Net) {
    net.Valid() && AcyclicFrom(net.outputs, net.roots)
  }

  function Traversal(net: Net): (w: seq<nat>)
    requires net.Valid()
    ensures Within(net.outputs, w)
  {
    Visits(net.outputs, net.roots, Potential(net.outputs, net.roots))
  }

  /** One round of the traversal, in terms of the list of all visits. */
  lemma TraversalRound(net: Net, working: seq<nat>, k: nat)
    requires Traversable(net) && k <= |Traversal(net)| && working == Queue(net.outputs, net.roots, k)
    ensures |Traversal(net)| == Potential(net.outputs, net.roots)
    ensures working == [] ==> k == |Traversal(net)|
    ensures working != [] ==>
              && k < |Traversal(net)| && working[0] == Traversal(net)[k]
              && Traversal(net)[..k + 1] == Traversal(net)[..k] + [working[0]]
              && working[1..] + net.outputs[working[0]] == Queue(net.outputs, net.roots, k + 1)
  {
    var g, q, n := net.outputs, net.roots, Potential(net.outputs, net.roots);
    TraversalEnds(net);
    if working == [] {
      RoundsDone(g, q, n, k);
    } else {
      RoundAt(g, q, n, k);
      OneMoreVisit(Traversal(net), k);
    }
  }

  lemma TraversalEnds(net: Net)
    requires Traversable(net)
    ensures |Traversal(net)| == Potential(net.outputs, net.roots)
    ensures Queue(net.outputs, net.roots, Potential(net.outputs, net.roots)) == []
  {
    ExactRounds(net.outputs, net.roots, 0);
  }

  lemma OneMoreVisit(w: seq<nat>, k: nat)
    requires k < |w|
    ensures w[..k + 1] == w[..k] + [w[k]]
  {
  }

  /** The input list yielded at visit k. */
  function YieldedInputs(net: Net, k: nat): seq<nat>
    requires net.Valid() && k < |Traversal(net)|
  {
    Collect(net.specs, net.specs[Traversal(net)[k]].inputs, Traversal(net)[..k], [])
  }

  /** The dependency table after k visits: later visits overwrite earlier ones. */
  function Table(net: Net, k: nat): map<nat, set<nat>>
    requires net.Valid() && k <= |Traversal(net)|
  {
    if k == 0 then map[]
    else Table(net, k - 1)[Traversal(net)[k - 1] := Elements(YieldedInputs(net, k - 1))]
  }

  lemma {:induction false} TableKeepsLast(net: Net, k: nat, v: nat)
    requires net.Valid() && k <= |Traversal(net)|
    ensures v in Table(net, k) <==> v in Traversal(net)[..k]
    ensures v in Table(net, k) ==>
              Table(net, k)[v] == Elements(YieldedInputs(net, LastVisit(Traversal(net)[..k], v)))
  {
    if k > 0 {
      var w := Traversal(net);
      TableKeepsLast(net, k - 1, v);
      assert w[..k] == w[..k - 1] + [w[k - 1]];
      assert w[..k][..k - 1] == w[..k - 1];
    }
  }

  function Dependencies(net: Net): map<nat, set<nat>>
    requires net.Valid()
  {
    Table(net, |Traversal(net)|)
  }

  /** The net is one that adding nodes has built. */
  ghost predicate BuiltFrom(net: Net, ds: seq<NodeSpec>) {
    && net.specs == ds
    && net.outputs == Build(ds).outputs
    && net.roots == Build(ds).roots
  }

  /** What is recorded for a node: the matching nodes seen before its last visit. */
  lemma NeedsBeforeLastVisit(net: Net, v: nat)
    requires net.Valid()
    ensures v in Dependencies(net) <==> v in Traversal(net)
    ensures v in Dependencies(net) ==> forall u: nat ::
              u in Needs(Dependencies(net), v) <==>
              u != v && u in Traversal(net)[..LastVisit(Traversal(net), v)] && Reads(net.specs[v], net.specs[u].stream)
  {
    var w := Traversal(net);
    TableKeepsLast(net, |w|, v);
    assert w[..|w|] == w;
    if v in w {
      var l := LastVisit(w, v);
      CollectFinds(net.specs, net.specs[v].inputs, w[..l], []);
    }
  }

  // ----- What sorting knows ------------------------------------------------------

  /** Two different reachable nodes of which the second reads the first's stream. */
  ghost predicate ReadsFrom(net: Net, ds: seq<NodeSpec>, v: nat, u: nat)
    requires |ds| == |net.outputs|
  {
    && u != v && u < |ds| && v < |ds|
    && Reachable(net.outputs, net.roots, u) && Reachable(net.outputs, net.roots, v)
    && Reads(ds[v], ds[u].stream)
  }

  /** The traversal comes to u at some time before it comes to v for the last time. */
  ghost predicate SeenFirst(net: Net, u: nat, v: nat)
    requires net.Valid()
  {
    VisitedBefore(Traversal(net), u, v)
  }

  /** v reads u, and the two are connected or at least visited in this order. */
  ghost predicate Before(net: Net, ds: seq<NodeSpec>, u: nat, v: nat)
    requires net.Valid() && |ds| == |net.outputs|
  {
    ReadsFrom(net, ds, v, u) && (Hidden(ds, u, v) ==> SeenFirst(net, u, v))
  }

  lemma Visited(net: Net, v: nat)
    requires Traversable(net)
    ensures v in Traversal(net) <==> Reachable(net.outputs, net.roots, v)
  {
    ExactRounds(net.outputs, net.roots, v);
    VisitedIffReachable(net.outputs, net.roots, Potential(net.outputs, net.roots), v);
  }

  lemma SeenBeforeLast(w: seq<nat>, u: nat, v: nat)
    requires v in w
    ensures VisitedBefore(w, u, v) <==> u in w[..LastVisit(w, v)]
  {
    var l := LastVisit(w, v);
    if u in w[..l] {
      var i :| 0 <= i < l && w[..l][i] == u;
      assert w[i] == u && w[l] == v;
    }
    if i, j :| 0 <= i < j < |w| && w[i] == u && w[j] == v {
      assert w[..l][i] == u;
    }
  }

  lemma LastVisitSeen(w: seq<nat>, u: nat, v: nat)
    requires u in w && v in w && LastVisit(w, u) < LastVisit(w, v)
    ensures VisitedBefore(w, u, v)
  {
    assert w[LastVisit(w, u)] == u && w[LastVisit(w, v)] == v;
  }

  /** A node that v reads and that is connected to it has its last visit before v's. */
  lemma ConnectedSeenFirst(net: Net, ds: seq<NodeSpec>, u: nat, v: nat)
    requires Traversable(net) && BuiltFrom(net, ds) && ReadsFrom(net, ds, v, u) && !Hidden(ds, u, v)
    ensures u in Traversal(net) && v in Traversal(net)
    ensures LastVisit(Traversal(net), u) < LastVisit(Traversal(net), v)
    ensures SeenFirst(net, u, v)
  {
    Visited(net, u);
    Visited(net, v);
    EdgeIffReads(ds, u, v);
    ExactRounds(net.outputs, net.roots, v);
    LastVisitsFollowEdges(net.outputs, net.roots, Potential(net.outputs, net.roots), u, v);
    LastVisitSeen(Traversal(net), u, v);
  }

  /** The recorded dependencies of a built net: every reachable node needs exactly the
      nodes before it. */
  lemma NeedsAreBefore(net: Net, ds: seq<NodeSpec>, v: nat)
    requires Traversable(net) && BuiltFrom(net, ds)
    ensures v in Dependencies(net) <==> Reachable(net.outputs, net.roots, v)
    ensures forall u: nat :: u in Needs(Dependencies(net), v) <==> Before(net, ds, u, v)
  {
    NeedsBeforeLastVisit(net, v);
    Visited(net, v);
    forall u: nat ensures u in Needs(Dependencies(net), v) <==> Before(net, ds, u, v) {
      if v in Traversal(net) {
        NeededIffBefore(net, ds, u, v);
      }
    }
  }

  lemma NeededIffBefore(net: Net, ds: seq<NodeSpec>, u: nat, v: nat)
    requires Traversable(net) && BuiltFrom(net, ds) && v in Traversal(net)
    ensures u in Needs(Dependencies(net), v) <==> Before(net, ds, u, v)
  {
    var w := Traversal(net);
    NeedsBeforeLastVisit(net, v);
    Visited(net, v);
    Visited(net, u);
    SeenBeforeLast(w, u, v);
    if ReadsFrom(net, ds, v, u) && !Hidden(ds, u, v) { ConnectedSeenFirst(net, ds, u, v); }
    if u in w[..LastVisit(w, v)] { assert u in w; }
  }

  /** Everything reachable that v reads is recorded as needed by it. */
  ghost predicate Complete(net: Net, ds: seq<NodeSpec>, v: nat)
    requires net.Valid() && |ds| == |net.outputs|
  {
    forall u | ReadsFrom(net, ds, v, u) :: u in Needs(Dependencies(net), v)
  }

  /** The last time a node is yielded its input list holds every other reachable node
      whose stream it reads if and only if all of them that are not connected to it have
      been visited before. */
  lemma LastYieldIsComplete(net: Net, ds: seq<NodeSpec>, v: nat)
    requires Traversable(net) && BuiltFrom(net, ds)
    ensures Complete(net, ds, v) <==>
            forall u | ReadsFrom(net, ds, v, u) && Hidden(ds, u, v) :: SeenFirst(net, u, v)
  {
    NeedsAreBefore(net, ds, v);
    if forall u | ReadsFrom(net, ds, v, u) && Hidden(ds, u, v) :: SeenFirst(net, u, v) {
      forall u | ReadsFrom(net, ds, v, u) ensures u in Needs(Dependencies(net), v) {
        assert Before(net, ds, u, v);
      }
    }
    if Complete(net, ds, v) {
      forall u | ReadsFrom(net, ds, v, u) && Hidden(ds, u, v) ensures SeenFirst(net, u, v) {
        assert u in Needs(Dependencies(net), v);
      }
    }
  }

  /** Whether u is visited before v shows in the graph: some walk from the roots to u comes before
      some walk to v, where shorter walks come first, and walks of the same length in the order
      of the positions of their root and connections. */
  lemma SeenFirstIff(net: Net, u: nat, v: nat)
    requires Traversable(net)
    ensures SeenFirst(net, u, v) <==> exists x, y :: EndsBefore(net.outputs, net.roots, x, y, u, v)
  {
    ExactRounds(net.outputs, net.roots, 0);
    VisitedBeforeIff(net.outputs, net.roots, Potential(net.outputs, net.roots), u, v);
  }

  // ----- When sorting fails --------------------------------------------------------

  /** A closed walk of nodes each of which is before the next. */
  ghost predicate Circle(net: Net, ds: seq<NodeSpec>, c: seq<nat>)
    requires net.Valid() && |ds| == |net.outputs|
  {
    && |c| > 1 && c[0] == c[|c| - 1]
    && forall i, j | 0 <= i < |c| && j == i + 1 && j < |c| :: Before(net, ds, c[i], c[j])
  }

  ghost predicate HasCircle(net: Net, ds: seq<NodeSpec>)
    requires net.Valid() && |ds| == |net.outputs|
  {
    exists c :: Circle(net, ds, c)
  }

  /** The recorded dependencies of a built net deadlock the topological sort exactly when
      nodes are before each other in a circle. */
  lemma DeadlockIffCircle(net: Net, ds: seq<NodeSpec>)
    requires Traversable(net) && BuiltFrom(net, ds)
    ensures (exists stuck :: Deadlock(Dependencies(net), stuck)) <==> HasCircle(net, ds)
  {
    if stuck :| Deadlock(Dependencies(net), stuck) {
      var c := StuckChain(net, ds, stuck, |stuck| + 1);
      ChainCloses(net, ds, stuck, c);
    }
    if c :| Circle(net, ds, c) {
      CircleDeadlocks(net, ds, c);
    }
  }

  ghost predicate Chain(net: Net, ds: seq<NodeSpec>, c: seq<nat>)
    requires net.Valid() && |ds| == |net.outputs|
  {
    forall i, j | 0 <= i < |c| && j == i + 1 && j < |c| :: Before(net, ds, c[i], c[j])
  }

  lemma StuckWaits(net: Net, ds: seq<NodeSpec>, stuck: set<nat>, v: nat) returns (u: nat)
    requires Traversable(net) && BuiltFrom(net, ds) && Deadlock(Dependencies(net), stuck) && v in stuck
    ensures u in stuck && Before(net, ds, u, v)
  {
    assert Needs(Dependencies(net), v) * stuck != {};
    u :| u in Needs(Dependencies(net), v) * stuck;
    NeedsAreBefore(net, ds, v);
  }

  lemma ChainGrows(net: Net, ds: seq<NodeSpec>, c: seq<nat>, u: nat)
    requires net.Valid() && |ds| == |net.outputs| && |c| > 0 && Chain(net, ds, c) && Before(net, ds, u, c[0])
    ensures Chain(net, ds, [u] + c) && Elements([u] + c) == {u} + Elements(c)
  {
    var d := [u] + c;
    forall i, j | 0 <= i < |d| && j == i + 1 && j < |d| ensures Before(net, ds, d[i], d[j]) {
      if i > 0 { assert Before(net, ds, c[i - 1], c[j - 1]); }
    }
  }

  /** Going back from a stuck node to one that it waits for, again and again. */
  lemma {:induction false} StuckChain(net: Net, ds: seq<NodeSpec>, stuck: set<nat>, n: nat) returns (c: seq<nat>)
    requires Traversable(net) && BuiltFrom(net, ds) && Deadlock(Dependencies(net), stuck) && n > 0
    ensures |c| == n && Elements(c) <= stuck && Chain(net, ds, c)
  {
    if n == 1 {
      var v :| v in stuck;
      c := [v];
    } else {
      c := StuckChain(net, ds, stuck, n - 1);
      assert c[0] in Elements(c);
      var u := StuckWaits(net, ds, stuck, c[0]);
      ChainGrows(net, ds, c, u);
      c := [u] + c;
    }
  }

  lemma ChainCloses(net: Net, ds: seq<NodeSpec>, stuck: set<nat>, c: seq<nat>)
    requires net.Valid() && |ds| == |net.outputs|
    requires Chain(net, ds, c) && Elements(c) <= stuck && |c| > |stuck|
    ensures HasCircle(net, ds)
  {
    if !Repeats(c) {
      DistinctElements(c);
      SubsetSize(Elements(c), stuck);
    }
    var i, j :| 0 <= i < j < |c| && c[i] == c[j];
    PartIsCircle(net, ds, c, i, j);
  }

  lemma PartIsCircle(net: Net, ds: seq<NodeSpec>, c: seq<nat>, i: nat, j: nat)
    requires net.Valid() && |ds| == |net.outputs|
    requires Chain(net, ds, c) && i < j < |c| && c[i] == c[j]
    ensures Circle(net, ds, c[i..j + 1])
  {
    var d := c[i..j + 1];
    forall k, l | 0 <= k < |d| && l == k + 1 && l < |d| ensures Before(net, ds, d[k], d[l]) {
      assert d[k] == c[i + k] && d[l] == c[i + l];
    }
  }

  lemma CircleDeadlocks(net: Net, ds: seq<NodeSpec>, c: seq<nat>)
    requires Traversable(net) && BuiltFrom(net, ds) && Circle(net, ds, c)
    ensures Deadlock(Dependencies(net), Elements(c))
  {
    assert c[0] in Elements(c);
    forall v | v in Elements(c) ensures Needs(Dependencies(net), v) * Elements(c) != {} {
      var k :| 0 <= k < |c| && c[k] == v;
      var j := if k == 0 then |c| - 1 else k;
      var u := c[j - 1];
      assert Before(net, ds, c[j - 1], c[j]);
      NeedsAreBefore(net, ds, v);
      assert u in Elements(c);
      assert u in Needs(Dependencies(net), v) * Elements(c);
    }
  }

  /** Every circle passes from a node to a root that reads it without being connected to it,
      and whose last visit is the earlier one. */
  lemma CircleHasHidden(net: Net, ds: seq<NodeSpec>, c: seq<nat>)
    requires Traversable(net) && BuiltFrom(net, ds) && Circle(net, ds, c)
    ensures exists i, j :: 0 <= i < |c| && j == i + 1 && j < |c| && HiddenBack(net, ds, c[i], c[j])
  {
    if forall i, j | 0 <= i < |c| && j == i + 1 && j < |c| :: !HiddenBack(net, ds, c[i], c[j]) {
      VisitsRise(net, ds, c, |c| - 1);
    }
  }

  ghost predicate HiddenBack(net: Net, ds: seq<NodeSpec>, u: nat, v: nat)
    requires net.Valid() && |ds| == |net.outputs|
  {
    && u < |ds| && v < |ds| && Hidden(ds, u, v) && v in net.roots
    && u in Traversal(net) && v in Traversal(net)
    && LastVisit(Traversal(net), v) < LastVisit(Traversal(net), u)
  }

  lemma {:induction false} VisitsRise(net: Net, ds: seq<NodeSpec>, c: seq<nat>, n: nat)
    requires Traversable(net) && BuiltFrom(net, ds) && Circle(net, ds, c) && 0 < n < |c|
    requires forall i, j | 0 <= i < |c| && j == i + 1 && j < |c| :: !HiddenBack(net, ds, c[i], c[j])
    ensures c[0] in Traversal(net) && c[n] in Traversal(net)
    ensures LastVisit(Traversal(net), c[0]) < LastVisit(Traversal(net), c[n])
  {
    if n > 1 { VisitsRise(net, ds, c, n - 1); }
    var m := n - 1;
    assert Before(net, ds, c[m], c[n]) && !HiddenBack(net, ds, c[m], c[n]);
    RiseOrHidden(net, ds, c[m], c[n]);
  }

  lemma RiseOrHidden(net: Net, ds: seq<NodeSpec>, u: nat, v: nat)
    requires Traversable(net) && BuiltFrom(net, ds) && Before(net, ds, u, v) && !HiddenBack(net, ds, u, v)
    ensures u in Traversal(net) && v in Traversal(net)
    ensures LastVisit(Traversal(net), u) < LastVisit(Traversal(net), v)
  {
    if Hidden(ds, u, v) {
      HiddenWritesInput(ds, u, v);
      HiddenRises(net, ds, u, v);
    } else {
      ConnectedSeenFirst(net, ds, u, v);
    }
  }

  lemma OneIsLater(w: seq<nat>, u: nat, v: nat)
    requires u in w && v in w && u != v
    ensures LastVisit(w, u) < LastVisit(w, v) || LastVisit(w, v) < LastVisit(w, u)
  {
  }

  lemma HiddenRises(net: Net, ds: seq<NodeSpec>, u: nat, v: nat)
    requires Traversable(net) && |ds| == |net.outputs| && ReadsFrom(net, ds, v, u) && Hidden(ds, u, v) && v in net.roots
    requires !HiddenBack(net, ds, u, v)
    ensures u in Traversal(net) && v in Traversal(net)
    ensures LastVisit(Traversal(net), u) < LastVisit(Traversal(net), v)
  {
    Visited(net, u);
    Visited(net, v);
    OneIsLater(Traversal(net), u, v);
  }

  /** No reachable node reads another one that is not connected to it. */
  ghost predicate AllWired(net: Net, ds: seq<NodeSpec>)
    requires |ds| == |net.outputs|
  {
    forall u: nat, v: nat | u < |ds| && v < |ds| && ReadsFrom(net, ds, v, u) :: !Hidden(ds, u, v)
  }

  /** So sorting cannot fail when all nodes that read each other are connected, as they are
      when no node writes an input stream. */
  lemma DependenciesSortable(net: Net, ds: seq<NodeSpec>)
    requires Traversable(net) && BuiltFrom(net, ds)
    ensures NoInputWriters(ds) ==> AllWired(net, ds)
    ensures AllWired(net, ds) ==> forall stuck :: !Deadlock(Dependencies(net), stuck)
    ensures AllWired(net, ds) ==> forall v :: Complete(net, ds, v)
  {
    if NoInputWriters(ds) {
      forall u: nat, v: nat | u < |ds| && v < |ds| && ReadsFrom(net, ds, v, u) ensures !Hidden(ds, u, v) {
        if Hidden(ds, u, v) { HiddenWritesInput(ds, u, v); }
      }
    }
    if AllWired(net, ds) {
      forall v ensures Complete(net, ds, v) {
        LastYieldIsComplete(net, ds, v);
      }
      WiredHasNoCircle(net, ds);
      DeadlockIffCircle(net, ds);
    }
  }

  lemma WiredHasNoCircle(net: Net, ds: seq<NodeSpec>)
    requires Traversable(net) && BuiltFrom(net, ds) && AllWired(net, ds)
    ensures !HasCircle(net, ds)
  {
    if c :| Circle(net, ds, c) {
      CircleHasHidden(net, ds, c);
    }
  }

  // ----- What a sorted list is ------------------------------------------------------

  /** w lists exactly the reachable nodes, each once; every edge of the graph between listed
      nodes points forward in it, and so does everything else sorting knows. */
  ghost predicate SortedNodes(net: Net, ds: seq<NodeSpec>, w: seq<nat>)
    requires net.Valid() && |ds| == |net.outputs|
  {
    && Distinct(w)
    && (forall v: nat :: v in w <==> Reachable(net.outputs, net.roots, v))
    && EdgesForward(net.outputs, w)
    && forall i, j | 0 <= i < |w| && 0 <= j < |w| && Before(net, ds, w[i], w[j]) :: i < j
  }

  ghost predicate EdgesForward(g: Graph, w: seq<nat>) {
    forall i, j | 0 <= i < |w| && 0 <= j < |w| && w[i] < |g| && w[j] in g[w[i]] :: i < j
  }

  lemma OrderListsReachable(net: Net, ds: seq<NodeSpec>, w: seq<nat>, v: nat)
    requires Traversable(net) && BuiltFrom(net, ds) && IsTopologicalOrder(Dependencies(net), w)
    ensures v in w <==> Reachable(net.outputs, net.roots, v)
  {
    var deps := Dependencies(net);
    NeedsAreBefore(net, ds, v);
    assert v in w <==> v in Elements(w);
    if v in w && v !in deps {
      var x :| x in deps && v in Needs(deps, x);
      NeedsAreBefore(net, ds, x);
    }
    if v in deps { assert v in Items(deps); }
  }

  lemma NeededStandsBefore(deps: map<nat, set<nat>>, w: seq<nat>, i: nat, j: nat)
    requires IsTopologicalOrder(deps, w) && i < |w| && j < |w| && w[i] in Needs(deps, w[j])
    ensures i < j
  {
    assert NeedsMet(deps, w, j);
    var k :| 0 <= k < j && w[k] == w[i];
  }

  /** Any topological order of the recorded dependencies sorts the nodes. */
  lemma TopologicalOrderSorts(net: Net, ds: seq<NodeSpec>, w: seq<nat>)
    requires Traversable(net) && BuiltFrom(net, ds)
    requires IsTopologicalOrder(Dependencies(net), w)
    ensures SortedNodes(net, ds, w)
  {
    forall v: nat ensures v in w <==> Reachable(net.outputs, net.roots, v) {
      OrderListsReachable(net, ds, w, v);
    }
    forall i, j | 0 <= i < |w| && 0 <= j < |w| && Before(net, ds, w[i], w[j]) ensures i < j {
      NeedsAreBefore(net, ds, w[j]);
      NeededStandsBefore(Dependencies(net), w, i, j);
    }
    forall i, j | 0 <= i < |w| && 0 <= j < |w| && w[i] < |net.outputs| && w[j] in net.outputs[w[i]] ensures i < j {
      assert w[i] in w && w[j] in w;
      EdgeIsBefore(net, ds, w[i], w[j]);
    }
  }

  lemma EdgeIsBefore(net: Net, ds: seq<NodeSpec>, u: nat, v: nat)
    requires net.Valid() && BuiltFrom(net, ds) && u < |net.outputs| && v in net.outputs[u]
    requires Reachable(net.outputs, net.roots, u) && Reachable(net.outputs, net.roots, v)
    ensures Before(net, ds, u, v)
  {
    EdgeIffReads(ds, u, v);
  }

  // ----- The check on roots ----------------------------------------------------------

  /** The check at the end of sorting: every root among the first |roots| nodes. */
  predicate RootsFirst(roots: seq<nat>, w: seq<nat>) {
    forall k | 0 <= k < |roots| ::
      roots[k] in (if |roots| <= |w| then w[..|roots|] else w)
  }

  /** Every root is emitted before every other node. */
  ghost predicate RootsEarlier(deps: map<nat, set<nat>>, roots: seq<nat>, w: seq<nat>) {
    forall r, v | r in roots && v in w && v !in roots :: Earlier(deps, r, v)
  }

  /** The check passes exactly when the roots are the first ones in the order of levels. */
  lemma RootsFirstExactly(deps: map<nat, set<nat>>, roots: seq<nat>, w: seq<nat>)
    requires Distinct(w) && Distinct(roots) && Elements(roots) <= Elements(w) && LevelOrder(deps, w)
    ensures RootsFirst(roots, w) <==> RootsEarlier(deps, roots, w)
  {
    DistinctElements(w);
    DistinctElements(roots);
    SubsetSize(Elements(roots), Elements(w));
    if RootsFirst(roots, w) {
      forall r, v | r in roots && v in w && v !in roots ensures Earlier(deps, r, v) {
        FirstAreEarlier(deps, roots, w, r, v);
      }
    }
    if RootsEarlier(deps, roots, w) {
      forall k | 0 <= k < |roots| ensures roots[k] in w[..|roots|] {
        EarlierAreFirst(deps, roots, w, k);
      }
    }
  }

  lemma PrefixDistinct(w: seq<nat>, n: nat)
    requires Distinct(w) && n <= |w|
    ensures Distinct(w[..n]) && |Elements(w[..n])| == n
  {
    DistinctElements(w[..n]);
  }

  lemma SameSize(a: set<nat>, b: set<nat>)
    requires a <= b && |a| == |b|
    ensures a == b
  {
    assert b == a + (b - a);
  }

  lemma FirstAreEarlier(deps: map<nat, set<nat>>, roots: seq<nat>, w: seq<nat>, r: nat, v: nat)
    requires Distinct(w) && Distinct(roots) && |roots| <= |w| && LevelOrder(deps, w)
    requires RootsFirst(roots, w) && r in roots && v in w && v !in roots
    ensures Earlier(deps, r, v)
  {
    var n := |roots|;
    PrefixDistinct(w, n);
    DistinctElements(roots);
    forall x | x in Elements(roots) ensures x in Elements(w[..n]) {
      var k :| 0 <= k < |roots| && roots[k] == x;
    }
    SameSize(Elements(roots), Elements(w[..n]));
    var i :| 0 <= i < |w[..n]| && w[..n][i] == r;
    var j :| 0 <= j < |w| && w[j] == v;
    forall k | 0 <= k < n ensures w[k] != v {
      assert w[..n][k] in Elements(w[..n]);
    }
  }

  lemma EarlierAreFirst(deps: map<nat, set<nat>>, roots: seq<nat>, w: seq<nat>, k: nat)
    requires Distinct(w) && Distinct(roots) && |roots| <= |w| && LevelOrder(deps, w)
    requires Elements(roots) <= Elements(w) && RootsEarlier(deps, roots, w) && k < |roots|
    ensures roots[k] in w[..|roots|]
  {
    var n, r := |roots|, roots[k];
    assert r in Elements(roots);
    if r !in w[..n] {
      PrefixDistinct(w, n);
      DistinctElements(roots);
      if Elements(w[..n]) <= Elements(roots) { SameSize(Elements(w[..n]), Elements(roots)); }
      var v :| v in Elements(w[..n]) && v !in Elements(roots);
      var i :| 0 <= i < n && w[..n][i] == v;
      var j :| 0 <= j < |w| && w[j] == r;
      assert w[i] == v && w[j] != w[i];
      assert Earlier(deps, w[i], w[j]);
      EarlierIsOrder(deps, v, r);
    }
  }

  // ----- When roots can come first at all ----------------------------------------------

  /** Some order of all items has the roots first. */
  ghost predicate RootsCanLead(deps: map<nat, set<nat>>, roots: seq<nat>) {
    exists w :: IsTopologicalOrder(deps, w) && RootsFirst(roots, w)
  }

  /** No root needs an item that is no root; so none does indirectly either. */
  predicate RootsClosed(deps: map<nat, set<nat>>, roots: seq<nat>) {
    forall r | r in roots :: Needs(deps, r) <= Elements(roots)
  }

  function Only(w: seq<nat>, roots: set<nat>, inside: bool): seq<nat> {
    if w == [] then []
    else
      var front, x := Only(w[..|w| - 1], roots, inside), w[|w| - 1];
      if (x in roots) == inside then front + [x] else front
  }

  lemma {:induction false} OnlyMembers(w: seq<nat>, roots: set<nat>, inside: bool, x: nat)
    ensures x in Only(w, roots, inside) <==> x in w && (x in roots) == inside
  {
    if w != [] {
      OnlyMembers(w[..|w| - 1], roots, inside, x);
      assert w == w[..|w| - 1] + [w[|w| - 1]];
    }
  }

  lemma DistinctFront(w: seq<nat>)
    requires w != [] && Distinct(w)
    ensures Distinct(w[..|w| - 1]) && w[|w| - 1] !in w[..|w| - 1]
  {
  }

  lemma DistinctSnoc(w: seq<nat>, x: nat)
    requires Distinct(w) && x !in w
    ensures Distinct(w + [x])
  {
  }

  lemma {:induction false} OnlyDistinct(w: seq<nat>, roots: set<nat>, inside: bool)
    requires Distinct(w)
    ensures Distinct(Only(w, roots, inside))
  {
    if w != [] {
      DistinctFront(w);
      OnlyDistinct(w[..|w| - 1], roots, inside);
      OnlyMembers(w[..|w| - 1], roots, inside, w[|w| - 1]);
      if (w[|w| - 1] in roots) == inside { DistinctSnoc(Only(w[..|w| - 1], roots, inside), w[|w| - 1]); }
    }
  }

  /** Everything needed by an item that is picked out of an order is picked out before it. */
  ghost predicate PickedAfter(deps: map<nat, set<nat>>, w: seq<nat>, earlier: set<nat>) {
    forall k | 0 <= k < |w| :: PickedAt(deps, w, earlier, k)
  }

  ghost predicate PickedAt(deps: map<nat, set<nat>>, w: seq<nat>, earlier: set<nat>, k: nat)
    requires k < |w|
  {
    forall u | u in Needs(deps, w[k]) :: u in earlier || u in w[..k]
  }

  lemma MetFront(deps: map<nat, set<nat>>, w: seq<nat>)
    requires w != [] && AllMet(deps, w)
    ensures AllMet(deps, w[..|w| - 1])
  {
    var front := w[..|w| - 1];
    forall k | 0 <= k < |front| ensures NeedsMet(deps, front, k) {
      assert NeedsMet(deps, w, k) && front[..k] == w[..k] && front[k] == w[k];
    }
  }

  lemma PickedSnoc(deps: map<nat, set<nat>>, w: seq<nat>, earlier: set<nat>, x: nat)
    requires PickedAfter(deps, w, earlier) && forall u | u in Needs(deps, x) :: u in earlier || u in w
    ensures PickedAfter(deps, w + [x], earlier)
  {
    var r := w + [x];
    forall k | 0 <= k < |r| ensures PickedAt(deps, r, earlier, k) {
      assert r[..k] == w[..k];
      if k < |w| { assert PickedAt(deps, w, earlier, k); } else { assert w[..k] == w; }
    }
  }

  /** Picking out what is inside (or outside) the roots, when nothing picked needs anything else
      than that and `earlier`. */
  lemma {:induction false} OnlyPicked(deps: map<nat, set<nat>>, w: seq<nat>, roots: set<nat>, inside: bool,
                                      earlier: set<nat>)
    requires AllMet(deps, w)
    requires forall x, u | x in w && (x in roots) == inside && u in Needs(deps, x) ::
               u in earlier || (u in roots) == inside
    ensures PickedAfter(deps, Only(w, roots, inside), earlier)
  {
    if w != [] {
      var front, x := w[..|w| - 1], w[|w| - 1];
      assert w == front + [x];
      MetFront(deps, w);
      OnlyPicked(deps, front, roots, inside, earlier);
      if (x in roots) == inside {
        assert NeedsMet(deps, w, |w| - 1);
        forall u | u in Needs(deps, x) ensures u in earlier || u in Only(front, roots, inside) {
          OnlyMembers(front, roots, inside, u);
        }
        PickedSnoc(deps, Only(front, roots, inside), earlier, x);
      }
    }
  }

  lemma PickedMet(deps: map<nat, set<nat>>, p: seq<nat>, q: seq<nat>)
    requires PickedAfter(deps, p, {}) && PickedAfter(deps, q, Elements(p))
    ensures AllMet(deps, p + q)
  {
    var r := p + q;
    forall k | 0 <= k < |r| ensures NeedsMet(deps, r, k) {
      if k < |p| {
        assert PickedAt(deps, p, {}, k) && r[..k] == p[..k];
      } else {
        assert PickedAt(deps, q, Elements(p), k - |p|) && r[..k] == p + q[..k - |p|];
      }
    }
  }

  lemma DistinctJoin(p: seq<nat>, q: seq<nat>)
    requires Distinct(p) && Distinct(q) && forall x | x in p :: x !in q
    ensures Distinct(p + q)
  {
    forall i, j | 0 <= i < j < |p + q| ensures (p + q)[i] != (p + q)[j] {
      if i < |p| <= j { assert p[i] in p && q[j - |p|] in q; }
    }
  }

  /** Any order can be rearranged to have the roots first, if these need only each other. */
  lemma RootsMovedFirst(deps: map<nat, set<nat>>, roots: seq<nat>, w: seq<nat>)
    requires IsTopologicalOrder(deps, w) && RootsClosed(deps, roots)
    requires Distinct(roots) && Elements(roots) <= Elements(w)
    ensures RootsCanLead(deps, roots)
  {
    var s := Elements(roots);
    var p, q := Only(w, s, true), Only(w, s, false);
    forall x ensures (x in p <==> x in w && x in s) && (x in q <==> x in w && x !in s) {
      OnlyMembers(w, s, true, x);
      OnlyMembers(w, s, false, x);
    }
    OnlyDistinct(w, s, true);
    OnlyDistinct(w, s, false);
    DistinctJoin(p, q);
    assert Elements(p) == s;
    OnlyPicked(deps, w, s, true, {});
    OnlyPicked(deps, w, s, false, Elements(p));
    PickedMet(deps, p, q);
    assert Elements(p + q) == Elements(w);
    SameLength(roots, p);
    RootsAreFirst(roots, p, q);
    assert IsTopologicalOrder(deps, p + q);
  }

  lemma SameLength(p: seq<nat>, q: seq<nat>)
    requires Distinct(p) && Distinct(q) && Elements(p) == Elements(q)
    ensures |p| == |q|
  {
    DistinctElements(p);
    DistinctElements(q);
  }

  lemma RootsAreFirst(roots: seq<nat>, p: seq<nat>, q: seq<nat>)
    requires |roots| == |p| && Elements(p) == Elements(roots)
    ensures RootsFirst(roots, p + q)
  {
    assert (p + q)[..|roots|] == p;
    forall k | 0 <= k < |roots| ensures roots[k] in p {
      assert roots[k] in Elements(roots);
    }
  }

  lemma FirstAreRoots(roots: seq<nat>, w: seq<nat>)
    requires Distinct(roots) && Distinct(w) && |roots| <= |w| && RootsFirst(roots, w)
    ensures Elements(w[..|roots|]) == Elements(roots)
  {
    PrefixDistinct(w, |roots|);
    DistinctElements(roots);
    forall x | x in Elements(roots) ensures x in Elements(w[..|roots|]) {
      var k :| 0 <= k < |roots| && roots[k] == x;
    }
    SameSize(Elements(roots), Elements(w[..|roots|]));
  }

  /** Items can be ordered with all roots first if and only if they can be ordered and no root
      needs an item that is no root. */
  lemma RootsCanLeadIff(deps: map<nat, set<nat>>, roots: seq<nat>)
    requires Distinct(roots) && Elements(roots) <= Items(deps)
    ensures RootsCanLead(deps, roots) <==> (exists w :: IsTopologicalOrder(deps, w)) && RootsClosed(deps, roots)
  {
    if w :| IsTopologicalOrder(deps, w) && RootsFirst(roots, w) {
      forall r | r in roots ensures Needs(deps, r) <= Elements(roots) {
        LeadingRootNeeds(deps, roots, w, r);
      }
    }
    if w :| IsTopologicalOrder(deps, w) && RootsClosed(deps, roots) {
      RootsMovedFirst(deps, roots, w);
    }
  }

  lemma LeadingRootNeeds(deps: map<nat, set<nat>>, roots: seq<nat>, w: seq<nat>, r: nat)
    requires Distinct(roots) && Elements(roots) <= Items(deps)
    requires IsTopologicalOrder(deps, w) && RootsFirst(roots, w) && r in roots
    ensures Needs(deps, r) <= Elements(roots)
  {
    var n := |roots|;
    DistinctElements(roots);
    DistinctElements(w);
    SubsetSize(Elements(roots), Elements(w));
    FirstAreRoots(roots, w);
    assert r in Elements(w[..n]);
    var k :| 0 <= k < n && w[..n][k] == r;
    assert NeedsMet(deps, w, k) && w[k] == r;
    forall u | u in Needs(deps, r) ensures u in Elements(w[..n]) {
      assert u in w[..k];
      var i :| 0 <= i < k && w[..k][i] == u;
      assert w[..n][i] == u;
    }
  }

  /** A reachable node that needs nothing is a root. */
  lemma FreeNodesAreRoots(net: Net, ds: seq<NodeSpec>, v: nat)
    requires Traversable(net) && BuiltFrom(net, ds)
    requires Reachable(net.outputs, net.roots, v) && Needs(Dependencies(net), v) == {}
    ensures v in net.roots
  {
    var g, q := net.outputs, net.roots;
    NeedsAreBefore(net, ds, v);
    var w :| IsWalk(g, w) && w[0] in q && w[|w| - 1] == v;
    if |w| > 1 {
      var u := w[|w| - 2];
      assert IsWalk(g, w[..|w| - 1]);
      assert w[..|w| - 1][|w| - 2] == u;
      assert Reachable(g, q, u);
      assert v in g[u];
      EdgeIsBefore(net, ds, u, v);
    }
  }

  /** No root reads the stream of another reachable node. */
  ghost predicate IndependentRoots(net: Net, ds: seq<NodeSpec>)
    requires |ds| == |net.outputs|
  {
    forall r: nat, u: nat | r in net.roots :: !ReadsFrom(net, ds, r, u)
  }

  lemma RootsListed(net: Net, ds: seq<NodeSpec>, w: seq<nat>)
    requires Traversable(net) && BuiltFrom(net, ds) && IsTopologicalOrder(Dependencies(net), w)
    ensures Distinct(net.roots) && Elements(net.roots) <= Elements(w)
  {
    forall r: nat | r in Elements(net.roots) ensures r in Elements(w) {
      assert IsWalk(net.outputs, [r]);
      OrderListsReachable(net, ds, w, r);
    }
  }

  /** The check passes if no root reads the stream of another reachable node. */
  lemma IndependentRootsComeFirst(net: Net, ds: seq<NodeSpec>, w: seq<nat>)
    requires Traversable(net) && BuiltFrom(net, ds)
    requires IsTopologicalOrder(Dependencies(net), w) && LevelOrder(Dependencies(net), w)
    ensures RootsFirst(net.roots, w) <==> RootsEarlier(Dependencies(net), net.roots, w)
    ensures IndependentRoots(net, ds) ==> RootsFirst(net.roots, w)
  {
    var deps := Dependencies(net);
    RootsListed(net, ds, w);
    RootsFirstExactly(deps, net.roots, w);
    if IndependentRoots(net, ds) {
      forall r, v | r in net.roots && v in w && v !in net.roots ensures Earlier(deps, r, v) {
        RootIsLower(net, ds, w, r, v);
      }
    }
  }

  lemma RootIsLower(net: Net, ds: seq<NodeSpec>, w: seq<nat>, r: nat, v: nat)
    requires Traversable(net) && BuiltFrom(net, ds) && IsTopologicalOrder(Dependencies(net), w)
    requires IndependentRoots(net, ds) && r in net.roots && v in w && v !in net.roots
    ensures Earlier(Dependencies(net), r, v)
  {
    var deps := Dependencies(net);
    RootsListed(net, ds, w);
    assert r in Elements(net.roots) && v in Elements(w);
    NeedsAreBefore(net, ds, r);
    OrderListsReachable(net, ds, w, v);
    if Needs(deps, v) == {} { FreeNodesAreRoots(net, ds, v); }
    assert r in Done(deps, 1) && v !in Done(deps, 1);
    assert LowerLevel(deps, r, v);
  }

  /** On a built graph whose nodes can be ordered: there is an order with the roots first exactly
      when no root reads a node that is no root and is before it; so sorting refuses without need
      exactly when that holds and yet some other node is emitted before a root. */
  lemma RefusedWithoutNeed(net: Net, ds: seq<NodeSpec>, w: seq<nat>)
    requires Traversable(net) && BuiltFrom(net, ds)
    requires IsTopologicalOrder(Dependencies(net), w) && LevelOrder(Dependencies(net), w)
    ensures RootsCanLead(Dependencies(net), net.roots) <==>
            forall r: nat, u: nat | r in net.roots && Before(net, ds, u, r) :: u in net.roots
    ensures RootsFirst(net.roots, w) ==> RootsCanLead(Dependencies(net), net.roots)
    ensures RootsFirst(net.roots, w) <==> RootsEarlier(Dependencies(net), net.roots, w)
  {
    var deps, roots := Dependencies(net), net.roots;
    RootsListed(net, ds, w);
    RootsCanLeadIff(deps, roots);
    RootsFirstExactly(deps, roots, w);
    ClosedByReading(net, ds);
  }

  lemma ClosedByReading(net: Net, ds: seq<NodeSpec>)
    requires Traversable(net) && BuiltFrom(net, ds)
    ensures RootsClosed(Dependencies(net), net.roots) <==>
            forall r: nat, u: nat | r in net.roots && Before(net, ds, u, r) :: u in net.roots
  {
    forall r | r in net.roots
      ensures Needs(Dependencies(net), r) <= Elements(net.roots) <==>
              forall u: nat | Before(net, ds, u, r) :: u in net.roots
    {
      NeedsAreBefore(net, ds, r);
    }
  }
}
