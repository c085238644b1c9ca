/** Which nodes of a built graph are roots, and in which order connections are listed. */
module WiringOrder {
  import opened Streams
  import opened Walks
  import opened Wiring

  /** The node has an input of the type with code 3. */
  predicate ReadsInput(d: NodeSpec) { exists i :: 0 <= i < |d.inputs| && d.inputs[i].kind == 3 }

  lemma RootInputs(d: NodeSpec)
    ensures IsRoot(d.inputs) <==> ReadsInput(d)
  {
    if i :| 0 <= i < |d.inputs| && d.inputs[i].kind == 3 { assert d.inputs[i].Input(); }
  }

  predicate Rising(w: seq<nat>, n: nat) {
    && (forall i, j | 0 <= i < j < |w| :: w[i] < w[j])
    && forall i | 0 <= i < |w| :: w[i] < n
  }

  /** The roots are the nodes with an input of input type, in the order in which they were added. */
  lemma {:induction false} RootsExactly(ds: seq<NodeSpec>, v: nat)
    ensures Rising(Build(ds).roots, |ds|)
    ensures v in Build(ds).roots <==> v < |ds| && ReadsInput(ds[v])
  {
    if ds != [] {
      var n := |ds| - 1;
      RootsExactly(ds[..n], v);
      BuildShape(ds[..n]);
      RootsAdded(Build(ds[..n]), ds[n], v);
    }
  }

  lemma RootsAdded(net: Net, d: NodeSpec, v: nat)
    requires net.Valid() && Rising(net.roots, |net.specs|)
    ensures Rising(AddNode(net, d).roots, |net.specs| + 1)
    ensures v in AddNode(net, d).roots <==> v in net.roots || (v == |net.specs| && ReadsInput(d))
  {
    RootInputs(d);
  }

  predicate InOrder(w: seq<nat>) { forall i, j | 0 <= i < j < |w| :: w[i] <= w[j] }

  predicate Below(w: seq<nat>, n: nat) { forall i | 0 <= i < |w| :: w[i] < n }

  lemma OrderedThenLater(w: seq<nat>, n: nat, k: nat)
    requires InOrder(w) && Below(w, n)
    ensures InOrder(w + Repeat(n, k)) && Below(w + Repeat(n, k), n + 1)
  {
  }

  /** The fed nodes come in the order of the list. */
  lemma {:induction false} FedInOrder(specs: seq<NodeSpec>, order: seq<nat>, s: DataStream, from: nat)
    requires forall k | 0 <= k < |order| :: order[k] == from + k && order[k] < |specs|
    ensures InOrder(Fed(specs, order, s))
    ensures forall k | 0 <= k < |Fed(specs, order, s)| :: from <= Fed(specs, order, s)[k] < from + |order|
  {
    if order != [] { FedInOrder(specs, order[1..], s, from + 1); }
  }

  /** Each node's outputs are listed in the order in which the nodes they go to were added; so how often
      each is listed says all about them. */
  lemma {:induction false} OutputsInOrder(ds: seq<NodeSpec>, a: nat)
    requires a < |ds|
    ensures InOrder(Build(ds).outputs[a]) && Below(Build(ds).outputs[a], |ds|)
  {
    var n := |ds| - 1;
    BuildShape(ds[..n]);
    if a < n { OutputsInOrder(ds[..n], a); }
    AddedInOrder(Build(ds[..n]), ds[n], a);
  }

  lemma AddedInOrder(net: Net, d: NodeSpec, a: nat)
    requires net.Valid() && Numbers(net.order, |net.specs|) && a <= |net.specs|
    requires a < |net.specs| ==> InOrder(net.outputs[a]) && Below(net.outputs[a], |net.specs|)
    ensures InOrder(AddNode(net, d).outputs[a]) && Below(AddNode(net, d).outputs[a], |net.specs| + 1)
  {
    var n := |net.specs|;
    if a < n {
      OrderedThenLater(net.outputs[a], n,
        if a in net.order then MatchCount(Looked(d.inputs), net.specs[a].stream) else 0);
    } else {
      FedInOrder(net.specs, net.order, d.stream, 0);
    }
  }
}
