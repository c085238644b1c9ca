/** The sensor graph engine: nodes that are wired in place, traversed breadth first,
    evaluated from a worklist and sorted.  A node is referred to by its number, its
    place in the pool of all nodes ever created. */
module SensorGraphs {
  import opened Streams
  import opened Walks
  import opened Wiring
  import opened WiringSteps
  import opened Toposort
  import opened Ordering

  /** A node's record; the graph object updates the records in its pool. */
  datatype SGNode = SGNode(stream: DataStream, inputs: seq<Selector>, outputs: seq<nat>)

  function SpecsOf(pool: seq<SGNode>): (r: seq<NodeSpec>)
    ensures |r| == |pool| && forall i | 0 <= i < |pool| :: r[i] == NodeSpec(pool[i].stream, pool[i].inputs)
  {
    seq(|pool|, i requires 0 <= i < |pool| => NodeSpec(pool[i].stream, pool[i].inputs))
  }

  function StreamsIn(pool: seq<SGNode>): (r: seq<DataStream>)
    ensures |r| == |pool| && forall i | 0 <= i < |pool| :: r[i] == pool[i].stream
  {
    seq(|pool|, i requires 0 <= i < |pool| => pool[i].stream)
  }

  function OutputsOf(pool: seq<SGNode>): (r: Graph)
    ensures |r| == |pool| && forall i | 0 <= i < |pool| :: r[i] == pool[i].outputs
  {
    seq(|pool|, i requires 0 <= i < |pool| => pool[i].outputs)
  }

  /** Only outputs differ. */
  ghost predicate SameButOutputs(p: seq<SGNode>, q: seq<SGNode>) {
    SpecsOf(p) == SpecsOf(q) && StreamsIn(p) == StreamsIn(q)
  }

  /** What is yielded for a visited node: its number, its inputs' and outputs' nodes. */
  datatype Visit = Visit(node: nat, inputs: seq<nat>, outputs: seq<nat>)

  ghost function NodeVisit(net: Net, k: nat): Visit
    requires net.Valid() && k < |Traversal(net)|
  {
    Visit(Traversal(net)[k], YieldedInputs(net, k), net.outputs[Traversal(net)[k]])
  }

  /** q is p with v appended any number of times. */
  predicate GrownBy(p: seq<nat>, q: seq<nat>, v: nat) {
    p <= q && forall k | |p| <= k < |q| :: q[k] == v
  }

  /** Outputs have only gained connections to v. */
  predicate Grown(g: Graph, g': Graph, v: nat) {
    |g| == |g'| && forall a | 0 <= a < |g| :: GrownBy(g[a], g'[a], v)
  }

  lemma GrownStep(g: Graph, g1: Graph, a: nat, v: nat)
    requires Grown(g, g1, v) && a < |g|
    ensures Grown(g, g1[a := g1[a] + [v]], v)
  {
    assert GrownBy(g[a], g1[a], v);
  }

  lemma GrownMore(g: Graph, g1: Graph, g2: Graph, v: nat)
    requires Grown(g, g1, v) && Grown(g1, g2, v)
    ensures Grown(g, g2, v)
  {
    forall a | 0 <= a < |g| ensures GrownBy(g[a], g2[a], v) {
      assert GrownBy(g[a], g1[a], v) && GrownBy(g1[a], g2[a], v);
    }
  }

  lemma IsAdded(net: Net, d: NodeSpec, net': Net)
    requires net.Valid() && net'.specs == net.specs + [d] && net'.outputs == Wiring.AddNode(net, d).outputs
    requires net'.roots == if IsRoot(d.inputs) then net.roots + [|net.specs|] else net.roots
    requires net'.order == net.order + [|net.specs|]
    ensures net' == Wiring.AddNode(net, d) && net'.Valid()
  {
  }

  /** What a failed attempt to add d leaves behind: the new node is in no list but maybe
      among the roots, and some nodes may be connected to it. */
  ghost predicate Leftover(net: Net, d: NodeSpec, net': Net) {
    var v := |net.specs|;
    && |net'.specs| == |net'.outputs| == v + 1 && |net.outputs| == v
    && net'.specs[..v] == net.specs && net'.specs[v].stream == d.stream && net'.specs[v].inputs <= d.inputs
    && Grown(net.outputs, net'.outputs[..v], v)
    && (net'.roots == net.roots || net'.roots == net.roots + [v])
    && net'.order == net.order
  }

  /** The visits so far. */
  ghost predicate VisitsUpTo(net: Net, visits: seq<Visit>)
    requires net.Valid()
  {
    |visits| <= |Traversal(net)| && forall k | 0 <= k < |visits| :: visits[k] == NodeVisit(net, k)
  }

  datatype SortOutcome = Sorted | Circular | RootMisplaced

  class SensorGraph {
    var roots: seq<nat>
    var nodes: seq<nat>
    var pool: seq<SGNode>
    const maxNodes: Option<nat>
    const maxInputs: nat
    const maxOutputs: nat

    ghost function View(): Net
      reads this
    {
      Net(SpecsOf(pool), OutputsOf(pool), roots, nodes)
    }

    ghost predicate Valid()
      reads this
    {
      View().Valid() && forall i | 0 <= i < |pool| :: |pool[i].outputs| <= maxOutputs
    }

    constructor (maxNodes: Option<nat>, maxInputs: nat, maxOutputs: nat)
      ensures Valid() && View() == EMPTY
      ensures this.maxNodes == maxNodes && this.maxInputs == maxInputs && this.maxOutputs == maxOutputs
    {
      this.maxNodes, this.maxInputs, this.maxOutputs := maxNodes, maxInputs, maxOutputs;
      roots, nodes, pool := [], [], [];
    }

    // ----- Adding a node -------------------------------------------------------

    /** Append v to the outputs of node a, unless they are full. */
    method ConnectOutput(a: nat, v: nat) returns (ok: bool)
      requires a < |pool|
      modifies this`pool
      ensures SameButOutputs(pool, old(pool))
      ensures ok <==> |old(pool)[a].outputs| != maxOutputs
      ensures OutputsOf(pool) ==
              if ok then OutputsOf(old(pool))[a := old(pool)[a].outputs + [v]] else OutputsOf(old(pool))
    {
      if |pool[a].outputs| == maxOutputs { return false; }
      pool := pool[a := pool[a].(outputs := pool[a].outputs + [v])];
      return true;
    }

    /** Connect the output of every node in the list that the selector matches to node v. */
    method ConnectSources(v: nat, sel: Selector) returns (ok: bool, found: bool)
      requires forall k | 0 <= k < |nodes| :: nodes[k] < |pool|
      modifies this`pool
      ensures SameButOutputs(pool, old(pool))
      ensures Search(OutputsOf(old(pool)), StreamsIn(pool), nodes, sel, v, maxOutputs, |nodes|) ==
              if ok then Some(OutputsOf(pool)) else None
      ensures Grown(OutputsOf(old(pool)), OutputsOf(pool), v)
      ensures ok ==> found == Found(StreamsIn(pool), nodes, sel, |nodes|)
    {
      ghost var was, streams := OutputsOf(pool), StreamsIn(pool);
      found := false;
      for k := 0 to |nodes|
        invariant SameButOutputs(pool, old(pool))
        invariant Search(was, streams, nodes, sel, v, maxOutputs, k) == Some(OutputsOf(pool))
        invariant Grown(was, OutputsOf(pool), v)
        invariant found == Found(streams, nodes, sel, k)
      {
        SearchNext(was, OutputsOf(pool), streams, nodes, sel, v, maxOutputs, k);
        if sel.Matches(pool[nodes[k]].stream) {
          GrownStep(was, OutputsOf(pool), nodes[k], v);
          ok := ConnectOutput(nodes[k], v);
          if !ok { return; }
          found := true;
        }
      }
      ok := true;
    }

    /** Connect one input of node v: its first input of input type makes it a root, every
        other input is looked up among the nodes. */
    method ConnectInput(v: nat, sel: Selector, inRoot: bool) returns (ok: bool)
      requires v < |pool| && forall k | 0 <= k < |nodes| :: nodes[k] < |pool|
      modifies this`roots, this`pool
      ensures SpecsOf(pool) == SpecsOf(old(pool))[v := NodeSpec(old(pool)[v].stream, old(pool)[v].inputs + [sel])]
      ensures StreamsIn(pool) == StreamsIn(old(pool))
      ensures roots == if sel.Input() && !inRoot then old(roots) + [v] else old(roots)
      ensures ConnectOne(OutputsOf(old(pool)), StreamsIn(pool), nodes, sel, inRoot, v, maxOutputs) ==
              if ok then Some(OutputsOf(pool)) else None
      ensures Grown(OutputsOf(old(pool)), OutputsOf(pool), v)
    {
      pool := pool[v := pool[v].(inputs := pool[v].inputs + [sel])];
      assert OutputsOf(pool) == OutputsOf(old(pool));
      assert StreamsIn(pool) == StreamsIn(old(pool));
      if sel.Input() && !inRoot {
        roots := roots + [v];
        return true;
      }
      var connected, found := ConnectSources(v, sel);
      return connected && (found || !sel.Buffered());
    }

    /** Connect the inputs of node v one by one; n of them have been looked at when it ends. */
    method ConnectInputs(v: nat, inputs: seq<Selector>) returns (ok: bool, ghost n: nat)
      requires v < |pool| && pool[v].inputs == [] && forall k | 0 <= k < |nodes| :: nodes[k] < |pool|
      modifies this`roots, this`pool
      ensures StreamsIn(pool) == StreamsIn(old(pool)) && n <= |inputs| && (ok ==> n == |inputs|)
      ensures SpecsOf(pool) == SpecsOf(old(pool))[v := NodeSpec(old(pool)[v].stream, inputs[..n])]
      ensures roots == if IsRoot(inputs[..n]) then old(roots) + [v] else old(roots)
      ensures Grown(OutputsOf(old(pool)), OutputsOf(pool), v)
      ensures Connect(OutputsOf(old(pool)), StreamsIn(pool), nodes, inputs, v, maxInputs, maxOutputs, |inputs|) ==
              if ok then Some(OutputsOf(pool)) else None
    {
      ghost var was, streams := OutputsOf(pool), StreamsIn(pool);
      var inRoot := false;
      n := 0;
      for i := 0 to |inputs|
        invariant StreamsIn(pool) == streams && n == i
        invariant SpecsOf(pool) == SpecsOf(old(pool))[v := NodeSpec(old(pool)[v].stream, inputs[..i])]
        invariant inRoot == IsRoot(inputs[..i])
        invariant roots == if inRoot then old(roots) + [v] else old(roots)
        invariant Grown(was, OutputsOf(pool), v)
        invariant Connect(was, streams, nodes, inputs, v, maxInputs, maxOutputs, i) == Some(OutputsOf(pool))
      {
        ghost var before := OutputsOf(pool);
        ConnectNext(was, before, streams, nodes, inputs, v, maxInputs, maxOutputs, i);
        if i >= maxInputs { return false, n; }
        assert SpecsOf(pool)[v].inputs == inputs[..i];
        assert inputs[..i + 1] == inputs[..i] + [inputs[i]];
        ok := ConnectInput(v, inputs[i], inRoot);
        GrownMore(was, before, OutputsOf(pool), v);
        n := i + 1;
        if !ok { return; }
        inRoot := inRoot || inputs[i].Input();
      }
      assert inputs[..|inputs|] == inputs;
      ok := true;
    }

    method ConnectTarget(v: nat, other: nat, inputs: seq<Selector>) returns (ok: bool)
      requires v < |pool| && |pool[v].outputs| <= maxOutputs
      modifies this`pool
      ensures SameButOutputs(pool, old(pool))
      ensures ok ==> OutputsOf(pool) == OutputsOf(old(pool))[v := old(pool)[v].outputs +
                                          Repeat(other, MatchCount(inputs, pool[v].stream))]
      ensures ok <==> |old(pool)[v].outputs| + MatchCount(inputs, old(pool)[v].stream) <= maxOutputs
      ensures OutputsOf(pool) == OutputsOf(old(pool))[v := pool[v].outputs]
    {
      var s := pool[v].stream;
      ghost var before := pool[v].outputs;
      RepeatStep(before, other, 0);
      for j := 0 to |inputs|
        invariant SameButOutputs(pool, old(pool))
        invariant OutputsOf(pool) == OutputsOf(old(pool))[v := before + Repeat(other, MatchCount(inputs[..j], s))]
        invariant |before| + MatchCount(inputs[..j], s) <= maxOutputs
      {
        PrefixMatches(inputs, j, s);
        RepeatStep(before, other, MatchCount(inputs[..j], s));
        assert OutputsOf(pool)[v] == pool[v].outputs;
        if inputs[j].Matches(s) {
          ok := ConnectOutput(v, other);
          if !ok { return; }
        }
      }
      assert inputs[..|inputs|] == inputs;
      assert OutputsOf(pool)[v] == pool[v].outputs;
      ok := true;
    }

    /** Connect the output of node v to every input of a node in the list that reads it. */
    method ConnectTargets(v: nat) returns (ok: bool)
      requires v < |pool| && pool[v].outputs == [] && forall k | 0 <= k < |nodes| :: nodes[k] < |pool|
      modifies this`pool
      ensures SameButOutputs(pool, old(pool))
      ensures ok ==> OutputsOf(pool) == OutputsOf(old(pool))[v := Fed(SpecsOf(pool), nodes, pool[v].stream)]
      ensures ok <==> |Fed(SpecsOf(pool), nodes, pool[v].stream)| <= maxOutputs
      ensures OutputsOf(pool) == OutputsOf(old(pool))[v := pool[v].outputs]
    {
      ghost var specs, s := SpecsOf(pool), pool[v].stream;
      for k := 0 to |nodes|
        invariant SameButOutputs(pool, old(pool))
        invariant OutputsOf(pool) == OutputsOf(old(pool))[v := Fed(specs, nodes[..k], s)]
        invariant |Fed(specs, nodes[..k], s)| <= maxOutputs
      {
        FedStep(specs, nodes, k, s);
        assert OutputsOf(pool)[v] == pool[v].outputs && StreamsIn(pool)[v] == s;
        assert SpecsOf(pool)[nodes[k]].inputs == pool[nodes[k]].inputs;
        ok := ConnectTarget(v, nodes[k], pool[nodes[k]].inputs);
        if !ok { return; }
      }
      assert nodes[..|nodes|] == nodes;
      assert StreamsIn(pool)[v] == s;
      ok := true;
    }

    /** Whether every new connection fits: what the caller can check beforehand. */
    ghost predicate Accepts(d: NodeSpec, hasFunction: bool)
      requires Valid()
      reads this
    {
      && (maxNodes.Some? ==> |nodes| < maxNodes.value)
      && Fits(OutputsOf(pool), StreamsIn(pool), nodes, d.inputs, maxInputs, maxOutputs)
      && |Fed(SpecsOf(pool), nodes, d.stream)| <= maxOutputs
      && hasFunction
    }

    /** The new node's record is in the pool and its inputs are connected. */
    ghost predicate InputsWired(net: Net, d: NodeSpec)
      requires net.Valid()
      reads this
    {
      && SpecsOf(pool) == net.specs + [d] && nodes == net.order
      && Linked(net.outputs + [[]], OutputsOf(pool), StreamsIn(pool), nodes, d.inputs, |net.specs|, maxOutputs)
      && roots == (if IsRoot(d.inputs) then net.roots + [|net.specs|] else net.roots)
      && pool[|net.specs|].outputs == []
    }

    /** Put a record for the new node into the pool and connect its inputs. */
    method WireInputs(d: NodeSpec) returns (ok: bool)
      requires Valid()
      modifies this`pool, this`roots
      ensures ok <==> Fits(OutputsOf(old(pool)), StreamsIn(old(pool)), nodes, d.inputs, maxInputs, maxOutputs)
      ensures ok ==> InputsWired(old(View()), d)
      ensures Leftover(old(View()), d, View())
    {
      ghost var net := View();
      var v := |pool|;
      pool := pool + [SGNode(d.stream, [], [])];
      NewRecord(old(pool), d, nodes, maxInputs, maxOutputs);
      assert OutputsOf(pool) == net.outputs + [[]] && SpecsOf(pool)[v] == NodeSpec(d.stream, []);
      ghost var n;
      ok, n := ConnectInputs(v, d.inputs);
      assert SpecsOf(pool) == net.specs + [NodeSpec(d.stream, d.inputs[..n])];
      LeftBehind(net, d, View(), OutputsOf(pool), n);
      assert d.inputs[..|d.inputs|] == d.inputs;
    }

    /** Connect the new node's output. */
    method WireOutputs(ghost net: Net, d: NodeSpec) returns (ok: bool)
      requires net.Valid() && InputsWired(net, d) && Leftover(net, d, View())
      modifies this`pool
      ensures ok <==> |Fed(net.specs, nodes, d.stream)| <= maxOutputs
      ensures ok ==> SpecsOf(pool) == net.specs + [d] && OutputsOf(pool) == Wiring.AddNode(net, d).outputs
      ensures ok ==> forall i | 0 <= i < |pool| :: |pool[i].outputs| <= maxOutputs
      ensures Leftover(net, d, View())
    {
      var v := |pool| - 1;
      ghost var linked := OutputsOf(pool);
      assert SpecsOf(pool)[v] == d && linked[v] == pool[v].outputs;
      FedSame(net.specs, SpecsOf(pool), nodes, d.stream);
      ok := ConnectTargets(v);
      assert SpecsOf(pool)[v].stream == pool[v].stream;
      if ok { AddedNet(net, d, pool, linked, maxOutputs); }
    }

    /** Add a node.  When it does not fit, the call fails and what it had connected so
        far stays connected. */
    method AddNode(d: NodeSpec, hasFunction: bool) returns (ok: bool)
      requires Valid()
      modifies this
      ensures ok <==> old(Accepts(d, hasFunction))
      ensures ok ==> Valid() && View() == Wiring.AddNode(old(View()), d)
      ensures ok ==> forall ds | old(View()) == Build(ds) :: View() == Build(ds + [d])
      ensures !ok ==> View() == old(View()) || Leftover(old(View()), d, View())
    {
      if maxNodes.Some? && |nodes| >= maxNodes.value { return false; }
      ghost var net := View();
      ok := WireInputs(d);
      if !ok { return; }
      ok := WireOutputs(net, d);
      if !ok || !hasFunction { return false; }
      nodes := nodes + [|pool| - 1];
      IsAdded(net, d, View());
      forall ds | net == Build(ds) ensures Build(ds + [d]) == Wiring.AddNode(net, d) {
        BuildSnoc(ds, d);
      }
    }

    // ----- Traversing ----------------------------------------------------------

    /** The nodes seen so far that one of the inputs reads, each once. */
    method InputsOf(inputs: seq<Selector>, seen: seq<nat>) returns (found: seq<nat>)
      requires forall k | 0 <= k < |seen| :: seen[k] < |pool|
      ensures found == Collect(SpecsOf(pool), inputs, seen, [])
    {
      ghost var specs := SpecsOf(pool);
      found := [];
      for i := 0 to |inputs|
        invariant Collect(specs, inputs[i..], seen, found) == Collect(specs, inputs, seen, [])
      {
        ghost var before := found;
        for j := 0 to |seen|
          invariant Scan(specs, inputs[i], seen[j..], found) == Scan(specs, inputs[i], seen, before)
        {
          if inputs[i].Matches(pool[seen[j]].stream) && seen[j] !in found {
            found := found + [seen[j]];
          }
        }
      }
    }

    /** Visit every node from the roots on, breadth first and without remembering which
        nodes have been visited. */
    method IterateBfs() returns (visits: seq<Visit>)
      requires Valid() && Traversable(View())
      ensures |visits| == |Traversal(View())| && VisitsUpTo(View(), visits)
    {
      ghost var net := View();
      visits := [];
      var working, seen := roots, [];
      TraversalRound(net, roots, 0);
      while |working| > 0
        invariant |seen| == |visits| && VisitsUpTo(net, visits)
        invariant working == Queue(net.outputs, net.roots, |seen|)
        invariant seen == Traversal(net)[..|seen|]
        decreases |Traversal(net)| - |seen|
      {
        TraversalRound(net, working, |seen|);
        var curr := working[0];
        var inputs := InputsOf(pool[curr].inputs, seen);
        NextVisit(net, visits, Visit(curr, inputs, pool[curr].outputs));
        visits := visits + [Visit(curr, inputs, pool[curr].outputs)];
        working := working[1..] + pool[curr].outputs;
        seen := seen + [curr];
      }
      TraversalRound(net, working, |seen|);
    }

    // ----- Evaluating ------------------------------------------------------------

    /** Look at the nodes from the roots on; the k-th node looked at produces output
        exactly when fires[k], and then its targets are put on the worklist. */
    method ProcessInput(fires: seq<bool>) returns (checked: seq<nat>)
      requires Valid() && Traversable(View())
      ensures checked == Checked(View().outputs, roots, fires, |checked|)
      ensures Pending(View().outputs, roots, fires, |checked|) == []
      ensures FromFired(View().outputs, roots, fires, checked)
    {
      ghost var net := View();
      checked := [];
      var toCheck := roots;
      while |toCheck| > 0
        invariant AtRound(net, fires, checked, toCheck)
        decreases Potential(net.outputs, roots) - |checked|
      {
        var fired := |checked| < |fires| && fires[|checked|];
        RoundWithin(net, fires, checked, toCheck);
        var node := toCheck[0];
        NextRound(net, fires, checked, toCheck, fired, pool[node].outputs);
        toCheck := toCheck[1..];
        checked := checked + [node];
        if fired {
          toCheck := toCheck + pool[node].outputs;
        }
      }
      AllChecked(net.outputs, roots, fires, |checked|, checked);
    }

    // ----- Sorting -----------------------------------------------------------------

    /** What each visited node needs, as known at its last visit. */
    method FindDependencies() returns (deps: map<nat, set<nat>>)
      requires Valid() && Traversable(View())
      ensures deps == Dependencies(View())
    {
      ghost var net := View();
      var visits := IterateBfs();
      deps := map[];
      for k := 0 to |visits|
        invariant deps == Table(net, k)
      {
        assert visits[k] == NodeVisit(net, k);
        deps := deps[visits[k].node := Elements(visits[k].inputs)];
      }
    }

    /** Reorder the node list by the dependencies that the traversal found.  Nodes that
        cannot be reached from the roots are dropped from the list. */
    method SortNodes() returns (outcome: SortOutcome)
      requires Valid() && Traversable(View())
      modifies this`nodes
      ensures outcome == Circular <==> exists stuck :: Deadlock(Dependencies(old(View())), stuck)
      ensures if outcome == Circular then nodes == old(nodes)
              else IsTopologicalOrder(Dependencies(old(View())), nodes) && LevelOrder(Dependencies(old(View())), nodes)
      ensures outcome != Circular ==> (outcome == Sorted <==> RootsFirst(roots, nodes))
      ensures forall ds | BuiltFrom(old(View()), ds) ::
                if outcome == Circular then HasCircle(old(View()), ds)
                else SortsBuilt(old(View()), ds, nodes) &&
                     (outcome == Sorted <==> RootsEarlier(Dependencies(old(View())), roots, nodes))
    {
      ghost var net := View();
      var deps := FindDependencies();
      var order := Flatten(deps);
      forall ds | BuiltFrom(net, ds)
        ensures if order.None? then HasCircle(net, ds)
                else SortsBuilt(net, ds, order.value) &&
                     (RootsFirst(net.roots, order.value) <==> RootsEarlier(deps, net.roots, order.value))
      {
        SortingSucceeds(net, ds, order);
      }
      if order.None? { return Circular; }
      nodes := order.value;
      if RootsFirst(roots, nodes) {
        return Sorted;
      } else {
        return RootMisplaced;
      }
    }
  }

  lemma LeftBehind(net: Net, d: NodeSpec, net': Net, linked: Graph, n: nat)
    requires net.Valid() && n <= |d.inputs| && net'.order == net.order
    requires net'.specs == net.specs + [NodeSpec(d.stream, d.inputs[..n])]
    requires Grown(net.outputs + [[]], linked, |net.specs|)
    requires |net'.outputs| == |linked| && net'.outputs[..|net.specs|] == linked[..|net.specs|]
    requires net'.roots == if IsRoot(d.inputs[..n]) then net.roots + [|net.specs|] else net.roots
    ensures Leftover(net, d, net')
  {
    var v := |net.specs|;
    forall a | 0 <= a < v ensures GrownBy(net.outputs[a], net'.outputs[..v][a], v) {
      assert GrownBy((net.outputs + [[]])[a], linked[a], v);
      assert net'.outputs[..v][a] == linked[..v][a];
    }
  }

  lemma NextVisit(net: Net, visits: seq<Visit>, v: Visit)
    requires net.Valid() && VisitsUpTo(net, visits) && |visits| < |Traversal(net)| && v == NodeVisit(net, |visits|)
    ensures VisitsUpTo(net, visits + [v])
  {
  }

  /** These nodes have been checked and those are to be checked after so many rounds of the worklist. */
  ghost predicate AtRound(net: Net, fires: seq<bool>, checked: seq<nat>, toCheck: seq<nat>) {
    && Traversable(net)
    && toCheck == Pending(net.outputs, net.roots, fires, |checked|)
    && checked == Checked(net.outputs, net.roots, fires, |checked|)
  }

  lemma RoundWithin(net: Net, fires: seq<bool>, checked: seq<nat>, toCheck: seq<nat>)
    requires AtRound(net, fires, checked, toCheck) && toCheck != []
    ensures toCheck[0] < |net.outputs| && |checked| < Potential(net.outputs, net.roots)
  {
    WorklistEmpties(net.outputs, net.roots, fires, |checked|, 0);
  }

  lemma NextRound(net: Net, fires: seq<bool>, checked: seq<nat>, toCheck: seq<nat>, fired: bool, outputs: seq<nat>)
    requires AtRound(net, fires, checked, toCheck) && toCheck != [] && toCheck[0] < |net.outputs|
    requires outputs == net.outputs[toCheck[0]] && fired == (|checked| < |fires| && fires[|checked|])
    ensures AtRound(net, fires, checked + [toCheck[0]], if fired then toCheck[1..] + outputs else toCheck[1..])
  {
    var n := |checked|;
    assert Pending(net.outputs, net.roots, fires, n + 1) == Advance(net.outputs, toCheck, fired);
    assert Checked(net.outputs, net.roots, fires, n + 1) == checked + [toCheck[0]];
  }

  /** What a successful sort of a built net says and needs: the nodes are sorted, there is
      no circle, and roots that read no other node come first. */
  ghost predicate SortsBuilt(net: Net, ds: seq<NodeSpec>, w: seq<nat>)
    requires net.Valid() && |ds| == |net.outputs|
  {
    && SortedNodes(net, ds, w) && !HasCircle(net, ds)
    && (IndependentRoots(net, ds) ==> RootsFirst(net.roots, w))
  }

  lemma SortingSucceeds(net: Net, ds: seq<NodeSpec>, order: Option<seq<nat>>)
    requires Traversable(net) && BuiltFrom(net, ds)
    requires order.None? <==> exists stuck :: Deadlock(Dependencies(net), stuck)
    requires order.Some? ==>
             IsTopologicalOrder(Dependencies(net), order.value) && LevelOrder(Dependencies(net), order.value)
    ensures if order.None? then HasCircle(net, ds)
            else SortsBuilt(net, ds, order.value) &&
                 (RootsFirst(net.roots, order.value) <==> RootsEarlier(Dependencies(net), net.roots, order.value))
  {
    DeadlockIffCircle(net, ds);
    if order.Some? {
      TopologicalOrderSorts(net, ds, order.value);
      IndependentRootsComeFirst(net, ds, order.value);
    }
  }

  /** What is known when all connections of a new node have been made. */
  lemma AddedNet(net: Net, d: NodeSpec, pool: seq<SGNode>, linked: Graph, maxOutputs: nat)
    requires net.Valid() && SpecsOf(pool) == net.specs + [d]
    requires Linked(net.outputs + [[]], linked, StreamsIn(pool), net.order, d.inputs, |net.specs|, maxOutputs)
    requires OutputsOf(pool) == linked[|net.specs| := Fed(SpecsOf(pool), net.order, d.stream)]
    requires |Fed(SpecsOf(pool), net.order, d.stream)| <= maxOutputs
    ensures OutputsOf(pool) == Wiring.AddNode(net, d).outputs
    ensures forall i | 0 <= i < |pool| :: |pool[i].outputs| <= maxOutputs
  {
    var v := |net.specs|;
    assert (net.outputs + [[]])[v] == [];
    assert linked == OutputsOf(pool)[v := []];
    assert StreamsIn(pool) == StreamsOf(SpecsOf(pool));
    WiredIsAdded(net, d, SpecsOf(pool), net.outputs + [[]], OutputsOf(pool), maxOutputs);
    forall i | 0 <= i < |pool| ensures |pool[i].outputs| <= maxOutputs {
      assert pool[i].outputs == OutputsOf(pool)[i];
      assert i < v ==> linked[i] == pool[i].outputs;
    }
  }

  /** What is known when a new node's record has just been put into the pool. */
  lemma NewRecord(pool: seq<SGNode>, d: NodeSpec, nodes: seq<nat>, maxInputs: nat, maxOutputs: nat)
    requires forall k | 0 <= k < |nodes| :: nodes[k] < |pool|
    requires forall i, j | 0 <= i < j < |nodes| :: nodes[i] != nodes[j]
    requires forall i | 0 <= i < |pool| :: |pool[i].outputs| <= maxOutputs
    ensures var pool' := pool + [SGNode(d.stream, [], [])];
            && SpecsOf(pool') == SpecsOf(pool) + [NodeSpec(d.stream, [])]
            && OutputsOf(pool') == OutputsOf(pool) + [[]]
            && var r := Connect(OutputsOf(pool'), StreamsIn(pool'), nodes, d.inputs, |pool|, maxInputs, maxOutputs,
                 |d.inputs|);
               && (r.Some? <==> Fits(OutputsOf(pool), StreamsIn(pool), nodes, d.inputs, maxInputs, maxOutputs))
               && (r.Some? ==> Linked(OutputsOf(pool'), r.value, StreamsIn(pool'), nodes, d.inputs, |pool|, maxOutputs))
  {
    var v := |pool|;
    var pool' := pool + [SGNode(d.stream, [], [])];
    assert SpecsOf(pool') == SpecsOf(pool) + [NodeSpec(d.stream, [])];
    assert OutputsOf(pool') == OutputsOf(pool) + [[]];
    assert StreamsIn(pool') == StreamsIn(pool) + [d.stream];
    ConnectLinks(OutputsOf(pool'), StreamsIn(pool'), nodes, d.inputs, v, maxInputs, maxOutputs, |d.inputs|);
    assert d.inputs[..|d.inputs|] == d.inputs;
    FitsExtended(OutputsOf(pool), StreamsIn(pool), nodes, d, maxInputs, maxOutputs);
  }

  lemma FitsExtended(g: Graph, streams: seq<DataStream>, nodes: seq<nat>, d: NodeSpec, maxInputs: nat, maxOutputs: nat)
    requires |g| == |streams| && forall k | 0 <= k < |nodes| :: nodes[k] < |g|
    ensures Fits(g + [[]], streams + [d.stream], nodes, d.inputs, maxInputs, maxOutputs) <==>
            Fits(g, streams, nodes, d.inputs, maxInputs, maxOutputs)
  {
    forall i | 0 <= i < |d.inputs|
      ensures HasSource(streams + [d.stream], nodes, d.inputs[i]) <==> HasSource(streams, nodes, d.inputs[i])
    {
    }
  }
}
