/** How adding nodes one after another wires the outputs of a sensor graph.
    Nodes are named by the position in which they were added. */
module Wiring {
  import opened Basics
  import opened Streams
  import opened Walks

  datatype NodeSpec = NodeSpec(stream: DataStream, inputs: seq<Selector>)

  /** specs and outputs are indexed by node; order is the engine's node list. */
  datatype Net = Net(specs: seq<NodeSpec>, outputs: Graph, roots: seq<nat>, order: seq<nat>) {
    ghost predicate Valid() {
      && |specs| == |outputs|
      && WellFormed(outputs)
      && Within(outputs, roots)
      && Within(outputs, order)
      && (forall i, j | 0 <= i < j < |order| :: order[i] != order[j])
      && (forall i, j | 0 <= i < j < |roots| :: roots[i] != roots[j])
    }
  }

  const EMPTY := Net([], [], [], [])

  // ----- Counting matching inputs --------------------------------------------

  /** How many of the inputs match the stream. */
  function MatchCount(inputs: seq<Selector>, s: DataStream): nat {
    if inputs == [] then 0 else Bit(inputs[0].Matches(s)) + MatchCount(inputs[1..], s)
  }

  /** The inputs that are looked up among the existing nodes: the first input of
      input type makes its node a root instead. */
  function Looked(inputs: seq<Selector>): seq<Selector> {
    if inputs == [] then []
    else if inputs[0].Input() then inputs[1..]
    else [inputs[0]] + Looked(inputs[1..])
  }

  function Repeat(v: nat, n: nat): (r: seq<nat>)
    ensures |r| == n && forall i | 0 <= i < n :: r[i] == v
  {
    seq(n, i => v)
  }

  // ----- Adding a node ---------------------------------------------------------

  /** The existing nodes fed by a new stream, in node order, once for every input. */
  function Fed(specs: seq<NodeSpec>, order: seq<nat>, s: DataStream): (r: seq<nat>)
    requires forall k | 0 <= k < |order| :: order[k] < |specs|
    ensures forall k | 0 <= k < |r| :: r[k] < |specs|
  {
    if order == [] then []
    else Repeat(order[0], MatchCount(specs[order[0]].inputs, s)) + Fed(specs, order[1..], s)
  }

  /** The new outputs of existing node a when node |specs| = d is added. */
  function Extended(net: Net, d: NodeSpec, a: nat): seq<nat>
    requires a < |net.specs| && |net.specs| == |net.outputs|
  {
    net.outputs[a] +
    Repeat(|net.specs|, if a in net.order then MatchCount(Looked(d.inputs), net.specs[a].stream) else 0)
  }

  predicate IsRoot(inputs: seq<Selector>) {
    exists i :: 0 <= i < |inputs| && inputs[i].Input()
  }

  function AddNode(net: Net, d: NodeSpec): (r: Net)
    requires net.Valid()
    ensures r.Valid()
  {
    var v := |net.specs|;
    var outputs := seq(v, a requires 0 <= a < v => Extended(net, d, a)) + [Fed(net.specs, net.order, d.stream)];
    Net(net.specs + [d], outputs, if IsRoot(d.inputs) then net.roots + [v] else net.roots, net.order + [v])
  }

  function Build(ds: seq<NodeSpec>): (net: Net)
    ensures net.Valid() && |net.outputs| == |ds|
  {
    if ds == [] then EMPTY else AddNode(Build(ds[..|ds| - 1]), ds[|ds| - 1])
  }

  // ----- How often one node feeds another -------------------------------------

  lemma {:induction false} CountRepeat(v: nat, x: nat, n: nat)
    ensures Count(v, Repeat(x, n)) == if v == x then n else 0
  {
    if n > 0 {
      CountRepeat(v, x, n - 1);
      assert Repeat(x, n)[1..] == Repeat(x, n - 1);
    }
  }

  lemma {:induction false} CountAbsent(v: nat, w: seq<nat>)
    requires v !in w
    ensures Count(v, w) == 0
  {
    if w != [] { CountAbsent(v, w[1..]); }
  }

  lemma {:induction false} FedCount(specs: seq<NodeSpec>, order: seq<nat>, s: DataStream, b: nat)
    requires forall k | 0 <= k < |order| :: order[k] < |specs|
    requires forall i, j | 0 <= i < j < |order| :: order[i] != order[j]
    ensures Count(b, Fed(specs, order, s)) == if b in order then MatchCount(specs[b].inputs, s) else 0
  {
    if order != [] {
      var x := order[0];
      FedCount(specs, order[1..], s, b);
      CountRepeat(b, x, MatchCount(specs[x].inputs, s));
      CountAppend(b, Repeat(x, MatchCount(specs[x].inputs, s)), Fed(specs, order[1..], s));
      assert x !in order[1..];
    }
  }

  /** The numbers below n in order. */
  predicate Numbers(order: seq<nat>, n: nat) { |order| == n && forall i | 0 <= i < n :: order[i] == i }

  lemma NumbersMembers(order: seq<nat>, n: nat)
    requires Numbers(order, n)
    ensures forall i: nat :: i in order <==> i < n
  {
    forall i: nat | i < n ensures i in order { assert order[i] == i; }
  }

  lemma {:induction false} BuildNumbers(ds: seq<NodeSpec>)
    ensures Build(ds).specs == ds && Numbers(Build(ds).order, |ds|)
  {
    if ds != [] {
      var front, last := ds[..|ds| - 1], ds[|ds| - 1];
      BuildNumbers(front);
      AddNodeShape(Build(front), last);
      assert ds == front + [last];
    }
  }

  lemma AddNodeShape(net: Net, d: NodeSpec)
    requires net.Valid()
    ensures AddNode(net, d).specs == net.specs + [d] && AddNode(net, d).order == net.order + [|net.specs|]
  {
  }

  lemma BuildShape(ds: seq<NodeSpec>)
    ensures Build(ds).specs == ds && |Build(ds).order| == |ds|
    ensures forall i: nat :: i in Build(ds).order <==> i < |ds|
    ensures forall i | 0 <= i < |ds| :: Build(ds).order[i] == i
  {
    BuildNumbers(ds);
    NumbersMembers(Build(ds).order, |ds|);
  }

  lemma AddNodeOldOutputs(net: Net, d: NodeSpec, a: nat, b: nat)
    requires net.Valid() && a < |net.specs| && a in net.order
    ensures Count(b, AddNode(net, d).outputs[a]) == Count(b, net.outputs[a]) +
            if b == |net.specs| then MatchCount(Looked(d.inputs), net.specs[a].stream) else 0
  {
    var c := MatchCount(Looked(d.inputs), net.specs[a].stream);
    CountAppend(b, net.outputs[a], Repeat(|net.specs|, c));
    CountRepeat(b, |net.specs|, c);
  }

  lemma AddNodeNewOutputs(net: Net, d: NodeSpec, b: nat)
    requires net.Valid() && (b < |net.specs| ==> b in net.order)
    ensures Count(b, AddNode(net, d).outputs[|net.specs|]) ==
            if b < |net.specs| then MatchCount(net.specs[b].inputs, d.stream) else 0
  {
    FedCount(net.specs, net.order, d.stream, b);
  }

  /** The number of inputs of b that a's output is connected to. */
  function Connected(ds: seq<NodeSpec>, a: nat, b: nat): nat
    requires a < |ds| && b < |ds|
  {
    if a == b then 0
    else if a < b then MatchCount(Looked(ds[b].inputs), ds[a].stream)
    else MatchCount(ds[b].inputs, ds[a].stream)
  }

  /** How often b is listed in a's outputs, for every graph that was built by adding
      nodes: once for every input of b that matches a's stream - except that when b
      was added after a, b's first input of input type is not counted; and never for
      a itself. */
  lemma {:induction false} Multiplicity(ds: seq<NodeSpec>, a: nat, b: nat)
    requires a < |ds| && b < |ds|
    ensures Count(b, Build(ds).outputs[a]) == Connected(ds, a, b)
  {
    var n := |ds| - 1;
    BuildShape(ds[..n]);
    if a < n && b < n {
      Multiplicity(ds[..n], a, b);
      assert Connected(ds[..n], a, b) == Connected(ds, a, b);
    }
    MultiplicityStep(Build(ds[..n]), ds, a, b);
  }

  lemma MultiplicityStep(before: Net, ds: seq<NodeSpec>, a: nat, b: nat)
    requires before.Valid() && |ds| > 0 && before.specs == ds[..|ds| - 1]
    requires forall i: nat :: i in before.order <==> i < |ds| - 1
    requires a < |ds| && b < |ds|
    requires a < |ds| - 1 && b < |ds| - 1 ==> Count(b, before.outputs[a]) == Connected(ds, a, b)
    ensures Count(b, AddNode(before, ds[|ds| - 1]).outputs[a]) == Connected(ds, a, b)
  {
    var n := |ds| - 1;
    if a < n {
      AddNodeOldOutputs(before, ds[n], a, b);
      if b == n { CountAbsent(n, before.outputs[a]); }
    } else {
      AddNodeNewOutputs(before, ds[n], b);
    }
  }

  lemma {:induction false} LookedCount(inputs: seq<Selector>, s: DataStream)
    ensures MatchCount(inputs, s) ==
            MatchCount(Looked(inputs), s) + Bit(exists i :: FirstInput(inputs, i) && inputs[i].Matches(s))
  {
    if inputs != [] {
      if inputs[0].Input() {
        assert FirstInput(inputs, 0);
      } else {
        LookedCount(inputs[1..], s);
        forall i ensures FirstInput(inputs, i) <==> FirstInput(inputs[1..], i - 1) {
          if FirstInput(inputs[1..], i - 1) {
            assert inputs[i] == inputs[1..][i - 1];
            forall k | 0 <= k < i ensures !inputs[k].Input() {
              if k > 0 { assert inputs[k] == inputs[1..][k - 1]; }
            }
          }
        }
        if i :| FirstInput(inputs[1..], i) && inputs[1..][i].Matches(s) {
          assert FirstInput(inputs, i + 1);
        }
        if i :| FirstInput(inputs, i) && inputs[i].Matches(s) {
          assert FirstInput(inputs[1..], i - 1);
        }
        assert Looked(inputs)[1..] == Looked(inputs[1..]);
      }
    }
  }

  ghost predicate FirstInput(inputs: seq<Selector>, i: int) {
    && 0 <= i < |inputs|
    && inputs[i].Input()
    && forall k | 0 <= k < i :: !inputs[k].Input()
  }

  /** b is listed in a's outputs once for every matching input, in whichever order the
      two were added, unless a's stream is one that b's first input-type input reads
      and a was there before b - and then it is listed exactly once too few. */
  lemma WiredExactlyWhen(ds: seq<NodeSpec>, a: nat, b: nat)
    requires a < |ds| && b < |ds| && a != b
    ensures Count(b, Build(ds).outputs[a]) == MatchCount(ds[b].inputs, ds[a].stream) <==>
            !(a < b && exists i :: FirstInput(ds[b].inputs, i) && ds[b].inputs[i].Matches(ds[a].stream))
  {
    Multiplicity(ds, a, b);
    LookedCount(ds[b].inputs, ds[a].stream);
  }

  ghost predicate Reads(d: NodeSpec, s: DataStream) {
    exists i :: 0 <= i < |d.inputs| && d.inputs[i].Matches(s)
  }

  ghost predicate FirstInputMatches(d: NodeSpec, s: DataStream) {
    exists i :: FirstInput(d.inputs, i) && d.inputs[i].Matches(s)
  }

  /** b reads a, which was there before, through its first input-type input alone: that
      input makes b a root and is not looked up, so the two are never connected. */
  ghost predicate Hidden(ds: seq<NodeSpec>, a: nat, b: nat)
    requires a < |ds| && b < |ds|
  {
    a < b && FirstInputMatches(ds[b], ds[a].stream) && MatchCount(ds[b].inputs, ds[a].stream) == 1
  }

  lemma {:induction false} MatchCountPositive(inputs: seq<Selector>, s: DataStream)
    ensures MatchCount(inputs, s) > 0 <==> exists i :: 0 <= i < |inputs| && inputs[i].Matches(s)
  {
    if inputs != [] {
      MatchCountPositive(inputs[1..], s);
      if i :| 0 <= i < |inputs| && inputs[i].Matches(s) && i > 0 {
        assert inputs[1..][i - 1].Matches(s);
      }
      if i :| 0 <= i < |inputs[1..]| && inputs[1..][i].Matches(s) {
        assert inputs[i + 1].Matches(s);
      }
    }
  }

  lemma {:induction false} CountPositive(v: nat, w: seq<nat>)
    ensures Count(v, w) > 0 <==> v in w
  {
    if w != [] { CountPositive(v, w[1..]); }
  }

  /** In every graph built by adding nodes the edges are exactly the pairs of distinct
      nodes of which the second reads the first's stream, but for the hidden pairs. */
  lemma EdgeIffReads(ds: seq<NodeSpec>, a: nat, b: nat)
    requires a < |ds| && b < |ds|
    ensures |Build(ds).outputs| == |ds|
    ensures b in Build(ds).outputs[a] <==> a != b && Reads(ds[b], ds[a].stream) && !Hidden(ds, a, b)
  {
    BuildShape(ds);
    Multiplicity(ds, a, b);
    CountPositive(b, Build(ds).outputs[a]);
    MatchCountPositive(ds[b].inputs, ds[a].stream);
    LookedCount(ds[b].inputs, ds[a].stream);
  }

  /** No node writes to a stream of input type. */
  ghost predicate NoInputWriters(ds: seq<NodeSpec>) {
    forall i | 0 <= i < |ds| :: ds[i].stream.kind != INPUT
  }

  /** Only a node that writes an input stream can be one of a hidden pair. */
  lemma HiddenWritesInput(ds: seq<NodeSpec>, a: nat, b: nat)
    requires a < |ds| && b < |ds| && Hidden(ds, a, b)
    ensures ds[a].stream.kind == INPUT && b in Build(ds).roots
  {
    var i :| FirstInput(ds[b].inputs, i) && ds[b].inputs[i].Matches(ds[a].stream);
    RootsBuilt(ds, b);
  }

  lemma RootsStep(before: Net, d: NodeSpec, b: nat)
    requires before.Valid() && b <= |before.specs|
    requires b < |before.specs| ==> (b in before.roots <==> IsRoot(before.specs[b].inputs))
    ensures b in AddNode(before, d).roots <==> IsRoot(AddNode(before, d).specs[b].inputs)
  {
  }

  /** The roots are the nodes with an input of input type. */
  lemma {:induction false} RootsBuilt(ds: seq<NodeSpec>, b: nat)
    requires b < |ds|
    ensures b in Build(ds).roots <==> IsRoot(ds[b].inputs)
  {
    var n := |ds| - 1;
    BuildShape(ds[..n]);
    BuildShape(ds);
    if b < n { RootsBuilt(ds[..n], b); }
    RootsStep(Build(ds[..n]), ds[n], b);
  }

  /** Adding a node to a built graph gives the graph built with one more node. */
  lemma BuildSnoc(ds: seq<NodeSpec>, d: NodeSpec)
    ensures Build(ds + [d]) == AddNode(Build(ds), d)
  {
    assert (ds + [d])[..|ds|] == ds;
  }
}
