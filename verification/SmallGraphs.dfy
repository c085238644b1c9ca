/** Facts that give the connections of a graph of a few nodes. */
module SmallGraphs {
  import opened Basics
  import opened Streams
  import opened Walks
  import opened Wiring

  function User(kind: nat, id: nat): DataStream { DataStream(kind, id, false) }

  function Single(kind: nat, id: nat): Selector { Selector(kind, Some(id), UserOnly) }

  lemma MatchOne(a: Selector, s: DataStream)
    ensures MatchCount([a], s) == Bit(a.Matches(s))
  {
  }

  /** A node with one input, and one with two. */
  lemma ReadsOne(d: NodeSpec, a: Selector, s: DataStream)
    requires d.inputs == [a]
    ensures Reads(d, s) <==> a.Matches(s)
    ensures MatchCount(d.inputs, s) == Bit(a.Matches(s)) && (IsRoot(d.inputs) <==> a.Input())
  {
    assert d.inputs[0] == a;
    MatchOne(a, s);
  }

  lemma ReadsTwo(d: NodeSpec, a: Selector, b: Selector, s: DataStream)
    requires d.inputs == [a, b]
    ensures Reads(d, s) <==> a.Matches(s) || b.Matches(s)
    ensures MatchCount(d.inputs, s) == Bit(a.Matches(s)) + Bit(b.Matches(s))
    ensures IsRoot(d.inputs) <==> a.Input() || b.Input()
  {
    assert d.inputs[0] == a && d.inputs[1] == b && d.inputs[1..] == [b];
    MatchOne(b, s);
  }

  lemma {:induction false} CountBelow(v: nat, w: seq<nat>)
    requires forall x | x in w :: x == v
    ensures Count(v, w) == |w|
  {
    if w != [] {
      assert w[0] in w && forall x | x in w[1..] :: x in w;
      CountBelow(v, w[1..]);
    }
  }

  lemma HeadIsIn(w: seq<nat>)
    ensures w == [] || w[0] in w
  {
  }

  /** Outputs that hold one node only, once. */
  lemma OneOutput(w: seq<nat>, v: nat)
    requires Count(v, w) == 1 && forall x | x in w :: x == v
    ensures w == [v]
  {
    CountBelow(v, w);
    assert w[0] in w;
  }

  ghost predicate Rising(w: seq<nat>) { forall i, j | 0 <= i < j < |w| :: w[i] < w[j] }

  /** Roots are listed in the order of adding. */
  lemma {:induction false} RootsRise(ds: seq<NodeSpec>)
    ensures Rising(Build(ds).roots)
  {
    if ds != [] { RootsRise(ds[..|ds| - 1]); }
  }

  lemma TwoRoots(w: seq<nat>, a: nat, b: nat)
    requires Rising(w) && a < b && forall x :: x in w <==> x == a || x == b
    ensures w == [a, b]
  {
    DistinctElements(w);
    assert Elements(w) == {a, b};
    assert w[0] in w && w[1] in w && w[0] < w[1];
  }
}
