/** The steps in which adding a node wires it, one input and one edge at a time. */
module WiringSteps {
  import opened Basics
  import opened Streams
  import opened Walks
  import opened Wiring

  /** Input i is looked up among the existing nodes and matches s. */
  ghost predicate Connects(inputs: seq<Selector>, i: nat, s: DataStream)
    requires i < |inputs|
  {
    inputs[i].Matches(s) && !(inputs[i].Input() && !IsRoot(inputs[..i]))
  }

  lemma PrefixMatches(inputs: seq<Selector>, j: nat, s: DataStream)
    requires j < |inputs|
    ensures MatchCount(inputs[..j + 1], s) == MatchCount(inputs[..j], s) + Bit(inputs[j].Matches(s))
    ensures MatchCount(inputs[..j + 1], s) <= MatchCount(inputs, s)
  {
    assert inputs[..j] + [inputs[j]] == inputs[..j + 1];
    MatchCountStep(inputs[..j], inputs[j], s);
    MatchCountPrefix(inputs, j + 1, s);
  }

  lemma {:induction false} MatchCountPrefix(inputs: seq<Selector>, j: nat, s: DataStream)
    requires j <= |inputs|
    ensures MatchCount(inputs[..j], s) <= MatchCount(inputs, s)
  {
    if j > 0 {
      MatchCountPrefix(inputs[1..], j - 1, s);
      assert inputs[..j][1..] == inputs[1..][..j - 1];
    }
  }

  lemma {:induction false} FedAppend(specs: seq<NodeSpec>, p: seq<nat>, q: seq<nat>, s: DataStream)
    requires forall k | 0 <= k < |p| :: p[k] < |specs|
    requires forall k | 0 <= k < |q| :: q[k] < |specs|
    ensures forall k | 0 <= k < |p + q| :: (p + q)[k] < |specs|
    ensures Fed(specs, p + q, s) == Fed(specs, p, s) + Fed(specs, q, s)
  {
    if p == [] {
      assert p + q == q;
    } else {
      FedAppend(specs, p[1..], q, s);
      assert (p + q)[1..] == p[1..] + q;
    }
  }

  lemma PrefixCount(inputs: seq<Selector>, i: nat, s: DataStream)
    requires i < |inputs|
    ensures MatchCount(Looked(inputs[..i + 1]), s) == MatchCount(Looked(inputs[..i]), s) + Bit(Connects(inputs, i, s))
    ensures MatchCount(Looked(inputs[..i + 1]), s) <= MatchCount(Looked(inputs), s)
  {
    LookedStep(inputs, i);
    assert Looked(inputs[..i]) + [] == Looked(inputs[..i]);
    MatchCountStep(Looked(inputs[..i]), inputs[i], s);
    LookedGrows(inputs, i + 1, s);
  }

  lemma {:induction false} LookedStep(inputs: seq<Selector>, i: nat)
    requires i < |inputs|
    ensures Looked(inputs[..i + 1]) == Looked(inputs[..i]) +
            if inputs[i].Input() && !IsRoot(inputs[..i]) then [] else [inputs[i]]
  {
    if i == 0 {
      assert inputs[..1] == [inputs[0]];
    } else if inputs[0].Input() {
      assert inputs[..i + 1][1..] == inputs[..i][1..] + [inputs[i]];
    } else {
      LookedStep(inputs[1..], i - 1);
      assert inputs[1..][..i] == inputs[..i + 1][1..];
      assert inputs[1..][..i - 1] == inputs[..i][1..];
      assert (forall k | 0 <= k < i :: !inputs[k].Input()) <==>
             (forall k | 0 <= k < i - 1 :: !inputs[1..][k].Input()) by {
        if k :| 0 <= k < i && inputs[k].Input() { assert inputs[1..][k - 1].Input(); }
        if k :| 0 <= k < i - 1 && inputs[1..][k].Input() { assert inputs[k + 1].Input(); }
      }
    }
  }

  lemma {:induction false} MatchCountStep(inputs: seq<Selector>, sel: Selector, s: DataStream)
    ensures MatchCount(inputs + [sel], s) == MatchCount(inputs, s) + Bit(sel.Matches(s))
  {
    if inputs != [] {
      MatchCountStep(inputs[1..], sel, s);
      assert (inputs + [sel])[1..] == inputs[1..] + [sel];
    }
  }

  lemma {:induction false} LookedGrows(inputs: seq<Selector>, i: nat, s: DataStream)
    requires i <= |inputs|
    ensures MatchCount(Looked(inputs[..i]), s) <= MatchCount(Looked(inputs), s)
    decreases |inputs| - i
  {
    if i < |inputs| {
      LookedStep(inputs, i);
      assert Looked(inputs[..i]) + [] == Looked(inputs[..i]);
      MatchCountStep(Looked(inputs[..i]), inputs[i], s);
      LookedGrows(inputs, i + 1, s);
    } else {
      assert inputs[..i] == inputs;
    }
  }

  // ----- One input of the new node v ------------------------------------------

  /** From was to now, the outputs of the nodes before v have grown by one entry v for
      each input that is connected to them, within the limit. */
  ghost predicate Linked(was: Graph, now: Graph, streams: seq<DataStream>, order: seq<nat>,
                         inputs: seq<Selector>, v: nat, maxOutputs: nat)
  {
    && |was| == |now| == |streams| && v < |now|
    && now[v] == was[v]
    && forall a | 0 <= a < v ::
         && now[a] == was[a] + Repeat(v, if a in order then MatchCount(Looked(inputs), streams[a]) else 0)
         && |now[a]| <= maxOutputs
  }

  /** One more selector has been connected. */
  ghost predicate OneMore(now: Graph, later: Graph, streams: seq<DataStream>, order: seq<nat>, sel: Selector, v: nat)
  {
    && |now| == |later| == |streams| && v < |now|
    && later[v] == now[v]
    && forall a | 0 <= a < v ::
         later[a] == now[a] + (if a in order && sel.Matches(streams[a]) then [v] else [])
  }

  /** Some node that the selector matches has no free output. */
  ghost predicate Full(now: Graph, streams: seq<DataStream>, order: seq<nat>, sel: Selector, maxOutputs: nat) {
    exists a :: a in order && a < |now| == |streams| && sel.Matches(streams[a]) && |now[a]| >= maxOutputs
  }

  ghost predicate HasSource(streams: seq<DataStream>, order: seq<nat>, sel: Selector) {
    exists a :: a in order && a < |streams| && sel.Matches(streams[a])
  }

  /** Node a is connected to v when the selector matches it; None when it is full. */
  function SearchOne(g: Graph, streams: seq<DataStream>, a: nat, sel: Selector, v: nat,
                     maxOutputs: nat): (r: Option<Graph>)
    requires |g| == |streams| && a < |g|
    ensures r.Some? ==> |r.value| == |g|
  {
    if !sel.Matches(streams[a]) then Some(g)
    else if |g[a]| == maxOutputs then None
    else Some(g[a := g[a] + [v]])
  }

  /** The outputs after the first k nodes of the list have been connected to v where
      the selector matches; None when one of them has no free output. */
  function Search(g: Graph, streams: seq<DataStream>, order: seq<nat>, sel: Selector, v: nat,
      maxOutputs: nat, k: nat): (r: Option<Graph>)
    requires |g| == |streams| && k <= |order| && forall i | 0 <= i < |order| :: order[i] < |g|
    ensures r.Some? ==> |r.value| == |g|
  {
    if k == 0 then Some(g)
    else
      var r := Search(g, streams, order, sel, v, maxOutputs, k - 1);
      if r.None? then None else SearchOne(r.value, streams, order[k - 1], sel, v, maxOutputs)
  }

  lemma SearchNext(g: Graph, now: Graph, streams: seq<DataStream>, order: seq<nat>, sel: Selector, v: nat,
      maxOutputs: nat, k: nat)
    requires |g| == |streams| && k < |order| && forall i | 0 <= i < |order| :: order[i] < |g|
    requires Search(g, streams, order, sel, v, maxOutputs, k) == Some(now)
    ensures |now| == |g|
    ensures Search(g, streams, order, sel, v, maxOutputs, k + 1) ==
            SearchOne(now, streams, order[k], sel, v, maxOutputs)
    ensures Found(streams, order, sel, k + 1) <==> sel.Matches(streams[order[k]]) || Found(streams, order, sel, k)
    ensures SearchOne(now, streams, order[k], sel, v, maxOutputs).None? ==>
              Search(g, streams, order, sel, v, maxOutputs, |order|).None?
  {
    if sel.Matches(streams[order[k]]) && |now[order[k]]| == maxOutputs {
      SearchFails(g, streams, order, sel, v, maxOutputs, k + 1);
    }
  }

  lemma {:induction false} SearchFails(g: Graph, streams: seq<DataStream>, order: seq<nat>, sel: Selector, v: nat,
      maxOutputs: nat, k: nat)
    requires |g| == |streams| && k <= |order| && forall i | 0 <= i < |order| :: order[i] < |g|
    requires Search(g, streams, order, sel, v, maxOutputs, k).None?
    ensures Search(g, streams, order, sel, v, maxOutputs, |order|).None?
    decreases |order| - k
  {
    if k < |order| { SearchFails(g, streams, order, sel, v, maxOutputs, k + 1); }
  }

  /** Whether the selector matches one of the first k nodes of the list. */
  function Found(streams: seq<DataStream>, order: seq<nat>, sel: Selector, k: nat): bool
    requires k <= |order| && forall i | 0 <= i < |order| :: order[i] < |streams|
  {
    k > 0 && (sel.Matches(streams[order[k - 1]]) || Found(streams, order, sel, k - 1))
  }

  lemma {:induction false} FoundIsSource(streams: seq<DataStream>, order: seq<nat>, sel: Selector, k: nat)
    requires k <= |order| && forall i | 0 <= i < |order| :: order[i] < |streams|
    ensures Found(streams, order, sel, k) <==> HasSource(streams, order[..k], sel)
  {
    if k > 0 {
      FoundIsSource(streams, order, sel, k - 1);
      assert order[..k] == order[..k - 1] + [order[k - 1]];
    }
  }

  /** The search succeeds when no matching node is full, and then adds one v to every
      matching node. */
  lemma {:induction false} SearchConnects(g: Graph, streams: seq<DataStream>, order: seq<nat>, sel: Selector, v: nat,
      maxOutputs: nat, k: nat)
    requires |g| == |streams| && k <= |order| && v < |g| && forall i | 0 <= i < |order| :: order[i] < v
    requires forall i, j | 0 <= i < j < |order| :: order[i] != order[j]
    requires forall a | 0 <= a < v :: |g[a]| <= maxOutputs
    ensures Search(g, streams, order, sel, v, maxOutputs, k).None? <==> Full(g, streams, order[..k], sel, maxOutputs)
    ensures Search(g, streams, order, sel, v, maxOutputs, k).Some? ==>
              OneMore(g, Search(g, streams, order, sel, v, maxOutputs, k).value, streams, order[..k], sel, v)
  {
    if k > 0 {
      SearchConnects(g, streams, order, sel, v, maxOutputs, k - 1);
      var a, r := order[k - 1], Search(g, streams, order, sel, v, maxOutputs, k - 1);
      assert order[..k] == order[..k - 1] + [a];
      assert a !in order[..k - 1];
      if r.Some? {
        OneMoreNode(g, r.value, streams, order[..k - 1], sel, v, maxOutputs, a);
      } else {
        FullGrows(g, streams, order[..k - 1], sel, maxOutputs, a);
      }
    }
  }

  lemma FullGrows(g: Graph, streams: seq<DataStream>, order: seq<nat>, sel: Selector, maxOutputs: nat, a: nat)
    requires Full(g, streams, order, sel, maxOutputs)
    ensures Full(g, streams, order + [a], sel, maxOutputs)
  {
    var b :| b in order && b < |g| == |streams| && sel.Matches(streams[b]) && |g[b]| >= maxOutputs;
    assert b in order + [a];
  }

  /** Connecting node a after those of the list. */
  lemma OneMoreNode(g: Graph, now: Graph, streams: seq<DataStream>, order: seq<nat>, sel: Selector, v: nat,
                    maxOutputs: nat, a: nat)
    requires OneMore(g, now, streams, order, sel, v) && a < v && a !in order && |g[a]| <= maxOutputs
    requires !Full(g, streams, order, sel, maxOutputs)
    ensures SearchOne(now, streams, a, sel, v, maxOutputs).None? <==> Full(g, streams, order + [a], sel, maxOutputs)
    ensures SearchOne(now, streams, a, sel, v, maxOutputs).Some? ==>
              OneMore(g, SearchOne(now, streams, a, sel, v, maxOutputs).value, streams, order + [a], sel, v)
  {
    assert now[a] == g[a];
    assert a in order + [a];
  }

  /** Every buffered input has a source among the nodes. */
  ghost predicate SourcesFound(streams: seq<DataStream>, order: seq<nat>, inputs: seq<Selector>) {
    forall i | 0 <= i < |inputs| && inputs[i].Buffered() :: HasSource(streams, order, inputs[i])
  }

  /** The inputs of a new node fit the limits. */
  ghost predicate Fits(was: Graph, streams: seq<DataStream>, order: seq<nat>, inputs: seq<Selector>,
                       maxInputs: nat, maxOutputs: nat)
    requires |was| == |streams|
  {
    && |inputs| <= maxInputs
    && SourcesFound(streams, order, inputs)
    && forall a | a in order && a < |was| :: |was[a]| + MatchCount(Looked(inputs), streams[a]) <= maxOutputs
  }

  lemma LinkedStart(was: Graph, streams: seq<DataStream>, order: seq<nat>, v: nat, maxOutputs: nat)
    requires |was| == |streams| && v < |was| && forall a | 0 <= a < v :: |was[a]| <= maxOutputs
    ensures Linked(was, was, streams, order, [], v, maxOutputs)
  {
  }

  lemma LinkedSame(was: Graph, now: Graph, streams: seq<DataStream>, order: seq<nat>,
                   inputs: seq<Selector>, i: nat, v: nat, maxOutputs: nat)
    requires i < |inputs| && Linked(was, now, streams, order, inputs[..i], v, maxOutputs)
    requires inputs[i].Input() && !IsRoot(inputs[..i])
    ensures Linked(was, now, streams, order, inputs[..i + 1], v, maxOutputs)
  {
    LookedStep(inputs, i);
    RootPrefix(inputs, i);
    assert Looked(inputs[..i]) + [] == Looked(inputs[..i]);
  }

  lemma LinkedStep(was: Graph, now: Graph, later: Graph, streams: seq<DataStream>, order: seq<nat>,
                   inputs: seq<Selector>, i: nat, v: nat, maxOutputs: nat)
    requires i < |inputs| && Linked(was, now, streams, order, inputs[..i], v, maxOutputs)
    requires !(inputs[i].Input() && !IsRoot(inputs[..i]))
    requires OneMore(now, later, streams, order, inputs[i], v)
    requires !Full(now, streams, order, inputs[i], maxOutputs)
    ensures Linked(was, later, streams, order, inputs[..i + 1], v, maxOutputs)
  {
    forall a | 0 <= a < v
      ensures later[a] == was[a] + Repeat(v, if a in order then MatchCount(Looked(inputs[..i + 1]), streams[a]) else 0)
    {
      PrefixCount(inputs, i, streams[a]);
    }
  }

  lemma InputRejected(was: Graph, now: Graph, streams: seq<DataStream>, order: seq<nat>,
                      inputs: seq<Selector>, i: nat, v: nat, maxInputs: nat, maxOutputs: nat)
    requires i < |inputs| && Linked(was, now, streams, order, inputs[..i], v, maxOutputs)
    requires forall a | a in order :: a < v
    requires || i >= maxInputs
             || (inputs[i].Buffered() && !HasSource(streams, order, inputs[i]))
             || (!(inputs[i].Input() && !IsRoot(inputs[..i])) && Full(now, streams, order, inputs[i], maxOutputs))
    ensures !Fits(was, streams, order, inputs, maxInputs, maxOutputs)
  {
    if i < maxInputs && !(inputs[i].Buffered() && !HasSource(streams, order, inputs[i])) {
      var a :| a in order && a < |now| && inputs[i].Matches(streams[a]) && |now[a]| >= maxOutputs;
      PrefixCount(inputs, i, streams[a]);
    }
  }

  lemma RootPrefix(inputs: seq<Selector>, i: nat)
    requires i < |inputs|
    ensures IsRoot(inputs[..i + 1]) <==> IsRoot(inputs[..i]) || inputs[i].Input()
  {
    if IsRoot(inputs[..i]) {
      var k :| 0 <= k < i && inputs[..i][k].Input();
      assert inputs[..i + 1][k].Input();
    }
    if inputs[i].Input() { assert inputs[..i + 1][i].Input(); }
  }

  /** The outputs after the first i inputs of node v have been connected; None when one
      of them could not be. */
  function Connect(g: Graph, streams: seq<DataStream>, order: seq<nat>, inputs: seq<Selector>, v: nat,
                   maxInputs: nat, maxOutputs: nat, i: nat): (r: Option<Graph>)
    requires |g| == |streams| && i <= |inputs| && forall k | 0 <= k < |order| :: order[k] < |g|
    ensures r.Some? ==> |r.value| == |g|
  {
    if i == 0 then Some(g)
    else
      var r := Connect(g, streams, order, inputs, v, maxInputs, maxOutputs, i - 1);
      if r.None? || i > maxInputs then None
      else ConnectOne(r.value, streams, order, inputs[i - 1], IsRoot(inputs[..i - 1]), v, maxOutputs)
  }

  function ConnectOne(g: Graph, streams: seq<DataStream>, order: seq<nat>, sel: Selector, inRoot: bool, v: nat,
                      maxOutputs: nat): (r: Option<Graph>)
    requires |g| == |streams| && forall k | 0 <= k < |order| :: order[k] < |g|
    ensures r.Some? ==> |r.value| == |g|
  {
    if sel.Input() && !inRoot then Some(g)
    else if sel.Buffered() && !Found(streams, order, sel, |order|) then None
    else Search(g, streams, order, sel, v, maxOutputs, |order|)
  }

  lemma ConnectNext(g: Graph, now: Graph, streams: seq<DataStream>, order: seq<nat>, inputs: seq<Selector>, v: nat,
                    maxInputs: nat, maxOutputs: nat, i: nat)
    requires |g| == |streams| && i < |inputs| && forall k | 0 <= k < |order| :: order[k] < |g|
    requires Connect(g, streams, order, inputs, v, maxInputs, maxOutputs, i) == Some(now)
    ensures |now| == |g|
    ensures Connect(g, streams, order, inputs, v, maxInputs, maxOutputs, i + 1) ==
            if i >= maxInputs then None
            else ConnectOne(now, streams, order, inputs[i], IsRoot(inputs[..i]), v, maxOutputs)
    ensures Connect(g, streams, order, inputs, v, maxInputs, maxOutputs, i + 1).None? ==>
              Connect(g, streams, order, inputs, v, maxInputs, maxOutputs, |inputs|).None?
    ensures IsRoot(inputs[..i + 1]) <==> IsRoot(inputs[..i]) || inputs[i].Input()
  {
    RootPrefix(inputs, i);
    if Connect(g, streams, order, inputs, v, maxInputs, maxOutputs, i + 1).None? {
      ConnectFails(g, streams, order, inputs, v, maxInputs, maxOutputs, i + 1);
    }
  }

  lemma {:induction false} ConnectFails(g: Graph, streams: seq<DataStream>, order: seq<nat>, inputs: seq<Selector>,
                                        v: nat, maxInputs: nat, maxOutputs: nat, i: nat)
    requires |g| == |streams| && i <= |inputs| && forall k | 0 <= k < |order| :: order[k] < |g|
    requires Connect(g, streams, order, inputs, v, maxInputs, maxOutputs, i).None?
    ensures Connect(g, streams, order, inputs, v, maxInputs, maxOutputs, |inputs|).None?
    decreases |inputs| - i
  {
    if i < |inputs| { ConnectFails(g, streams, order, inputs, v, maxInputs, maxOutputs, i + 1); }
  }

  /** Connecting the inputs of a new node succeeds exactly when they fit, and then
      every node's outputs have grown by one entry for each input connected to it. */
  lemma {:induction false} ConnectLinks(g: Graph, streams: seq<DataStream>, order: seq<nat>, inputs: seq<Selector>,
                                        v: nat, maxInputs: nat, maxOutputs: nat, i: nat)
    requires |g| == |streams| && v < |g| && i <= |inputs|
    requires forall k | 0 <= k < |order| :: order[k] < v
    requires forall i, j | 0 <= i < j < |order| :: order[i] != order[j]
    requires forall a | 0 <= a < |g| :: |g[a]| <= maxOutputs
    ensures var r := Connect(g, streams, order, inputs, v, maxInputs, maxOutputs, i);
            if r.Some? then Linked(g, r.value, streams, order, inputs[..i], v, maxOutputs) &&
                            SourcesFound(streams, order, inputs[..i]) && i <= maxInputs
            else !Fits(g, streams, order, inputs, maxInputs, maxOutputs)
  {
    if i == 0 {
      LinkedStart(g, streams, order, v, maxOutputs);
    } else {
      ConnectLinks(g, streams, order, inputs, v, maxInputs, maxOutputs, i - 1);
      var r := Connect(g, streams, order, inputs, v, maxInputs, maxOutputs, i - 1);
      if r.Some? {
        if i > maxInputs {
          InputRejected(g, r.value, streams, order, inputs, i - 1, v, maxInputs, maxOutputs);
        } else {
          ConnectLinksStep(g, r.value, streams, order, inputs, v, maxInputs, maxOutputs, i - 1);
        }
      }
    }
  }

  lemma ConnectLinksStep(g: Graph, now: Graph, streams: seq<DataStream>, order: seq<nat>, inputs: seq<Selector>, v: nat,
                         maxInputs: nat, maxOutputs: nat, i: nat)
    requires |g| == |streams| && v < |g| && i < |inputs| && i < maxInputs
    requires forall k | 0 <= k < |order| :: order[k] < v
    requires forall i, j | 0 <= i < j < |order| :: order[i] != order[j]
    requires forall a | 0 <= a < |g| :: |g[a]| <= maxOutputs
    requires Linked(g, now, streams, order, inputs[..i], v, maxOutputs) && SourcesFound(streams, order, inputs[..i])
    ensures var r := ConnectOne(now, streams, order, inputs[i], IsRoot(inputs[..i]), v, maxOutputs);
            if r.Some? then Linked(g, r.value, streams, order, inputs[..i + 1], v, maxOutputs) &&
                            SourcesFound(streams, order, inputs[..i + 1])
            else !Fits(g, streams, order, inputs, maxInputs, maxOutputs)
  {
    var sel := inputs[i];
    assert inputs[..i + 1] == inputs[..i] + [sel];
    FoundIsSource(streams, order, sel, |order|);
    assert order[..|order|] == order;
    if sel.Input() && !IsRoot(inputs[..i]) {
      LinkedSame(g, now, streams, order, inputs, i, v, maxOutputs);
    } else {
      SearchConnects(now, streams, order, sel, v, maxOutputs, |order|);
      var r := Search(now, streams, order, sel, v, maxOutputs, |order|);
      if r.None? || (sel.Buffered() && !Found(streams, order, sel, |order|)) {
        InputRejected(g, now, streams, order, inputs, i, v, maxInputs, maxOutputs);
      } else {
        LinkedStep(g, now, r.value, streams, order, inputs, i, v, maxOutputs);
      }
    }
  }

  // ----- The output of the new node ---------------------------------------------

  /** The targets found in the first k nodes of the list. */
  lemma FedStep(specs: seq<NodeSpec>, order: seq<nat>, k: nat, s: DataStream)
    requires k < |order| && forall i | 0 <= i < |order| :: order[i] < |specs|
    ensures Fed(specs, order[..k + 1], s) ==
            Fed(specs, order[..k], s) + Repeat(order[k], MatchCount(specs[order[k]].inputs, s))
    ensures |Fed(specs, order[..k + 1], s)| <= |Fed(specs, order, s)|
  {
    assert order[..k + 1] == order[..k] + [order[k]];
    FedAppend(specs, order[..k], [order[k]], s);
    assert Fed(specs, [], s) == [];
    assert [order[k]][1..] == [];
    assert order == order[..k + 1] + order[k + 1..];
    FedAppend(specs, order[..k + 1], order[k + 1..], s);
  }

  lemma RepeatStep(before: seq<nat>, x: nat, k: nat)
    ensures before + Repeat(x, k) + [x] == before + Repeat(x, k + 1)
    ensures before + Repeat(x, 0) == before
  {
  }

  lemma {:induction false} FedSame(specs: seq<NodeSpec>, specs': seq<NodeSpec>, order: seq<nat>, s: DataStream)
    requires forall i | 0 <= i < |order| :: order[i] < |specs|
    requires specs <= specs'
    ensures Fed(specs, order, s) == Fed(specs', order, s)
  {
    if order != [] { FedSame(specs, specs', order[1..], s); }
  }

  function StreamsOf(specs: seq<NodeSpec>): (r: seq<DataStream>)
    ensures |r| == |specs| && forall i | 0 <= i < |specs| :: r[i] == specs[i].stream
  {
    seq(|specs|, i requires 0 <= i < |specs| => specs[i].stream)
  }

  /** All the wiring together is the specified new graph. */
  lemma WiredIsAdded(net: Net, d: NodeSpec, specs: seq<NodeSpec>, was: Graph, now: Graph, maxOutputs: nat)
    requires net.Valid() && specs == net.specs + [d] && was == net.outputs + [[]]
    requires |now| == |specs| && now[|net.specs|] == Fed(specs, net.order, d.stream)
    requires Linked(was, now[|net.specs| := []], StreamsOf(specs), net.order, d.inputs, |net.specs|, maxOutputs)
    ensures now == AddNode(net, d).outputs
  {
    var v := |net.specs|;
    FedSame(net.specs, specs, net.order, d.stream);
    forall a | 0 <= a < v ensures now[a] == Extended(net, d, a) {
      LinkedIsExtended(net, d, specs, was, now[v := []], maxOutputs, a);
    }
    AddedOutputs(net, d, now);
  }

  lemma LinkedIsExtended(net: Net, d: NodeSpec, specs: seq<NodeSpec>, was: Graph, now: Graph, maxOutputs: nat, a: nat)
    requires net.Valid() && specs == net.specs + [d] && was == net.outputs + [[]] && a < |net.specs|
    requires Linked(was, now, StreamsOf(specs), net.order, d.inputs, |net.specs|, maxOutputs)
    ensures now[a] == Extended(net, d, a)
  {
  }

  lemma AddedOutputs(net: Net, d: NodeSpec, now: Graph)
    requires net.Valid() && |now| == |net.specs| + 1 && now[|net.specs|] == Fed(net.specs, net.order, d.stream)
    requires forall a | 0 <= a < |net.specs| :: now[a] == Extended(net, d, a)
    ensures now == AddNode(net, d).outputs
  {
  }
}
