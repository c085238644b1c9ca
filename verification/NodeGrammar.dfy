/** Which texts describe which nodes, as a grammar. */
module NodeGrammar {
  import opened Basics
  import opened Streams
  import opened StreamText
  import opened PrintedTexts
  import opened NodeDescriptors
  import opened NodeText

  // ----- Streams -------------------------------------------------------------------------------

  /** "system" for a system stream, the name of the type, "node" or not, and a number. */
  ghost predicate StreamTokens(w: seq<string>, s: DataStream) {
    s.kind < 6 && exists number, node ::
      Reads(number, s.id) && node in [[], ["node"]] && w == StreamOf(s.system, NAMES[s.kind], node, number)
  }

  function StreamOf(system: bool, name: string, node: seq<string>, number: string): seq<string> {
    (if system then ["system"] else []) + [name] + node + [number]
  }

  lemma StreamTaken(t: seq<string>, s: DataStream, rest: seq<string>) returns (w: seq<string>)
    requires TakeStream(t) == Took(s, rest)
    ensures StreamTokens(w, s) && t == w + rest
  {
    var node, number := NamedTaken(t, s, rest);
    NumbersRead(number, s.id);
    TypesByName(s.kind);
    w := StreamOf(s.system, NAMES[s.kind], node, number);
  }

  lemma NamedTaken(t: seq<string>, s: DataStream, rest: seq<string>) returns (node: seq<string>, number: string)
    requires TakeStream(t) == Took(s, rest)
    ensures s.kind < 6 && ParseNumber(number) == Some(s.id) && (node == [] || node == ["node"])
    ensures t == StreamOf(s.system, TypeName(s.kind), node, number) + rest
  {
    var u, v := StreamParts(t, s, rest);
    number := v[0];
    if |u| > 1 && u[1] == "node" {
      node := ["node"];
      assert u[1..2] == node;
      InFour(u, 1, 2, 3);
      assert u[2..3] == [number];
    } else {
      node := [];
      InFour(u, 1, 1, 2);
      assert u[1..2] == [number];
    }
    assert u[..1] == [TypeName(s.kind)];
    FourParts(if s.system then ["system"] else [], [TypeName(s.kind)], node, [number], rest);
  }

  lemma StreamParts(t: seq<string>, s: DataStream, rest: seq<string>) returns (u: seq<string>, v: seq<string>)
    requires TakeStream(t) == Took(s, rest)
    ensures t == (if s.system then ["system"] else []) + u
    ensures u != [] && s.kind < 6 && u[0] == TypeName(s.kind)
    ensures v == if |u| > 1 && u[1] == "node" then u[2..] else u[1..]
    ensures v != [] && ParseNumber(v[0]) == Some(s.id) && v[1..] == rest
  {
    u := if s.system then t[1..] else t;
    v := if |u| > 1 && u[1] == "node" then u[2..] else u[1..];
    assert TypeNamed(u[0]) == Some(s.kind);
  }

  lemma InFour<T>(u: seq<T>, i: nat, j: nat, k: nat)
    requires i <= j <= k <= |u|
    ensures u == u[..i] + (u[i..j] + (u[j..k] + u[k..]))
  {
    assert u[j..] == u[j..k] + u[k..];
    assert u[i..] == u[i..j] + u[j..];
  }

  lemma FourParts<T>(a: seq<T>, b: seq<T>, c: seq<T>, d: seq<T>, e: seq<T>)
    ensures a + (b + (c + (d + e))) == (a + b + c + d) + e
  {
    Associative(a + b + c, d, e);
    Associative(a + b, c, d + e);
    Associative(a, b, c + (d + e));
  }

  lemma StreamTakes(w: seq<string>, s: DataStream, rest: seq<string>)
    requires StreamTokens(w, s)
    ensures TakeStream(w + rest) == Took(s, rest)
  {
    var number, node :|
      Reads(number, s.id) && node in [[], ["node"]] && w == StreamOf(s.system, NAMES[s.kind], node, number);
    NumbersRead(number, s.id);
    TypesByName(s.kind);
    NamedTakes(w + rest, s, NAMES[s.kind], node, number, rest);
  }

  lemma NamedTakes(t: seq<string>, s: DataStream, name: string, node: seq<string>, number: string, rest: seq<string>)
    requires t == StreamOf(s.system, name, node, number) + rest && (node == [] || node == ["node"])
    requires ParseNumber(number) == Some(s.id) && TypeNamed(name) == Some(s.kind)
    ensures TakeStream(t) == Took(s, rest)
  {
    assert number != "node" by { assert !Digit("node"[0]); }
    assert name != "system";
    var system := if s.system then ["system"] else [];
    FourParts(system, [name], node, [number], rest);
    SystemFirst(t, s.system, name, node + ([number] + rest));
    NodeSkipped([name] + (node + ([number] + rest)), name, node, number, rest);
    StreamOfParts(t, [name] + (node + ([number] + rest)), [number] + rest, s, name, number, rest);
  }

  lemma SystemFirst(t: seq<string>, system: bool, name: string, more: seq<string>)
    requires t == (if system then ["system"] else []) + ([name] + more) && name != "system"
    ensures t != [] && (system <==> t[0] == "system") && (if system then t[1..] else t) == [name] + more
  {
  }

  lemma NodeSkipped(u: seq<string>, name: string, node: seq<string>, number: string, rest: seq<string>)
    requires u == [name] + (node + ([number] + rest)) && (node == [] || node == ["node"]) && number != "node"
    ensures |u| > 1 && u[0] == name && (if u[1] == "node" then u[2..] else u[1..]) == [number] + rest
  {
    assert u[1..] == node + ([number] + rest);
    if node != [] { assert u[2..] == u[1..][1..]; }
  }

  lemma StreamOfParts(t: seq<string>, u: seq<string>, v: seq<string>, s: DataStream, name: string, number: string,
                      rest: seq<string>)
    requires t != [] && (s.system <==> t[0] == "system") && u == (if s.system then t[1..] else t)
    requires |u| > 1 && u[0] == name && v == (if u[1] == "node" then u[2..] else u[1..])
    requires v == [number] + rest && ParseNumber(number) == Some(s.id) && TypeNamed(name) == Some(s.kind)
    ensures TakeStream(t) == Took(s, rest)
  {
    assert v[1..] == rest;
  }

  // ----- Triggers and inputs -----------------------------------------------------------------------

  ghost predicate TriggerTokens(w: seq<string>, t: Trigger) {
    match t
    case Always => w == ["always"]
    case When(count, op, reference) =>
      exists number ::
        Reads(number, reference) && w == ["when", if count then "count" else "value", OperatorName(op), number]
  }

  lemma OperatorsByName(name: string, op: Operator)
    ensures OperatorNamed(name) == Some(op) <==> name == OperatorName(op)
  {
  }

  lemma TriggerTaken(t: seq<string>, x: Trigger, rest: seq<string>) returns (w: seq<string>)
    requires TakeTrigger(t) == Took(x, rest)
    ensures TriggerTokens(w, x) && t == w + rest
  {
    match x
    case Always =>
      w := ["always"];
    case When(count, op, reference) =>
      w := t[..4];
      NumbersRead(t[3], reference);
      OperatorsByName(t[2], op);
      assert w == ["when", if count then "count" else "value", OperatorName(op), t[3]];
  }

  lemma TriggerTakes(w: seq<string>, x: Trigger, rest: seq<string>)
    requires TriggerTokens(w, x)
    ensures TakeTrigger(w + rest) == Took(x, rest)
  {
    assert (w + rest)[|w|..] == rest;
    match x
    case Always =>
    case When(count, op, reference) =>
      var number :|
        Reads(number, reference) && w == ["when", if count then "count" else "value", OperatorName(op), number];
      NumbersRead(number, reference);
      OperatorsByName(OperatorName(op), op);
  }

  /** What is taken as a stream selects that stream only. */
  predicate Selects(sel: Selector, s: DataStream) {
    sel == Selector(s.kind, Some(s.id), if s.system then SystemOnly else UserOnly)
  }

  /** A single stream, with the system specifier or the user one, and a trigger. */
  ghost predicate InputTokens(w: seq<string>, i: Input) {
    exists s, v, x :: Selects(i.selector, s) && StreamTokens(v, s) && TriggerTokens(x, i.trigger) && w == v + x
  }

  lemma InputTaken(t: seq<string>, i: Input, rest: seq<string>) returns (w: seq<string>)
    requires TakeInput(t) == Took(i, rest)
    ensures InputTokens(w, i) && t == w + rest
  {
    var s, more := InputParts(t, i, rest);
    var v := StreamTaken(t, s, more);
    var x := TriggerTaken(more, i.trigger, rest);
    Associative(v, x, rest);
    w := v + x;
    IsInput(w, i, s, v, x);
  }

  lemma IsInput(w: seq<string>, i: Input, s: DataStream, v: seq<string>, x: seq<string>)
    requires Selects(i.selector, s) && StreamTokens(v, s) && TriggerTokens(x, i.trigger) && w == v + x
    ensures InputTokens(w, i)
  {
  }

  lemma InputParts(t: seq<string>, i: Input, rest: seq<string>) returns (s: DataStream, more: seq<string>)
    requires TakeInput(t) == Took(i, rest)
    ensures TakeStream(t) == Took(s, more) && TakeTrigger(more) == Took(i.trigger, rest) && Selects(i.selector, s)
  {
    s, more := TakeStream(t).value, TakeStream(t).rest;
  }

  lemma InputTakes(w: seq<string>, i: Input, rest: seq<string>)
    requires InputTokens(w, i)
    ensures TakeInput(w + rest) == Took(i, rest)
  {
    var s, v, x :| Selects(i.selector, s) && StreamTokens(v, s) && TriggerTokens(x, i.trigger) && w == v + x;
    Associative(v, x, rest);
    StreamTakes(v, s, x + rest);
    TriggerTakes(x, i.trigger, rest);
    InputOfParts(w + rest, i, s, x + rest, rest);
  }

  lemma InputOfParts(t: seq<string>, i: Input, s: DataStream, more: seq<string>, rest: seq<string>)
    requires TakeStream(t) == Took(s, more) && TakeTrigger(more) == Took(i.trigger, rest) && Selects(i.selector, s)
    ensures TakeInput(t) == Took(i, rest)
  {
  }

  // ----- Nodes ---------------------------------------------------------------------------------------

  function Combiner(any: bool): string { if any then "||" else "&&" }

  /** A combiner and the second input, or nothing for a node of one input, which is never "or". */
  ghost predicate SecondTokens(w: seq<string>, b: Option<Input>, any: bool) {
    match b
    case None => w == [] && !any
    case Some(i) => exists v :: InputTokens(v, i) && w == [Combiner(any)] + v
  }

  lemma SecondTaken(t: seq<string>, b: Option<Input>, any: bool, rest: seq<string>) returns (w: seq<string>)
    requires TakeSecond(t) == Took((b, any), rest)
    ensures SecondTokens(w, b, any) && t == w + rest
  {
    if b == None {
      w := [];
    } else {
      SecondParts(t, b.value, any, rest);
      var v := InputTaken(t[1..], b.value, rest);
      Associative([Combiner(any)], v, rest);
      w := [Combiner(any)] + v;
    }
  }

  lemma SecondParts(t: seq<string>, i: Input, any: bool, rest: seq<string>)
    requires TakeSecond(t) == Took((Some(i), any), rest)
    ensures t != [] && TakeInput(t[1..]) == Took(i, rest) && t == [Combiner(any)] + t[1..]
  {
  }

  lemma SecondTakes(w: seq<string>, b: Option<Input>, any: bool, rest: seq<string>)
    requires SecondTokens(w, b, any) && rest != [] && rest[0] == ")"
    ensures TakeSecond(w + rest) == Took((b, any), rest)
  {
    if b == None {
      assert w + rest == rest;
    } else {
      var v :| InputTokens(v, b.value) && w == [Combiner(any)] + v;
      InputTakes(v, b.value, rest);
      Associative([Combiner(any)], v, rest);
      SecondOfParts(w + rest, b.value, any, v + rest, rest);
    }
  }

  lemma SecondOfParts(t: seq<string>, i: Input, any: bool, more: seq<string>, rest: seq<string>)
    requires t == [Combiner(any)] + more && TakeInput(more) == Took(i, rest)
    ensures TakeSecond(t) == Took((Some(i), any), rest)
  {
    assert t[1..] == more;
  }

  const ARROW: seq<string> := [")", "=>"]

  /** The end of the inputs, an arrow, the node's stream, and the function's name. */
  ghost predicate TargetTokens(w: seq<string>, s: DataStream, p: Processing) {
    exists v, name :: StreamTokens(v, s) && p == ProcessingNamed(name) && w == ARROW + (v + ["using", name])
  }

  lemma TargetTaken(t: seq<string>, s: DataStream, p: Processing, rest: seq<string>) returns (w: seq<string>)
    requires TakeTarget(t) == Took((s, p), rest)
    ensures TargetTokens(w, s, p) && t == w + rest
  {
    var name := TargetParts(t, s, p, rest);
    var v := StreamTaken(t[2..], s, ["using", name] + rest);
    Associative(v, ["using", name], rest);
    Associative(ARROW, v + ["using", name], rest);
    w := ARROW + (v + ["using", name]);
    IsTarget(w, s, p, v, name);
  }

  lemma IsTarget(w: seq<string>, s: DataStream, p: Processing, v: seq<string>, name: string)
    requires StreamTokens(v, s) && p == ProcessingNamed(name) && w == ARROW + (v + ["using", name])
    ensures TargetTokens(w, s, p)
  {
  }

  lemma TargetParts(t: seq<string>, s: DataStream, p: Processing, rest: seq<string>) returns (name: string)
    requires TakeTarget(t) == Took((s, p), rest)
    ensures |t| >= 2 && t == ARROW + t[2..] && p == ProcessingNamed(name)
    ensures TakeStream(t[2..]) == Took(s, ["using", name] + rest)
  {
    var more := TakeStream(t[2..]).rest;
    name := more[1];
    assert more == ["using", name] + rest;
  }

  lemma TargetTakes(w: seq<string>, s: DataStream, p: Processing, rest: seq<string>)
    requires TargetTokens(w, s, p)
    ensures TakeTarget(w + rest) == Took((s, p), rest)
    ensures w != [] && w[0] == ")"
  {
    var v, name :| StreamTokens(v, s) && p == ProcessingNamed(name) && w == ARROW + (v + ["using", name]);
    StreamTakes(v, s, ["using", name] + rest);
    Associative(v, ["using", name], rest);
    Associative(ARROW, v + ["using", name], rest);
    TargetOfParts(w + rest, s, name, v + (["using", name] + rest), rest);
  }

  lemma TargetOfParts(t: seq<string>, s: DataStream, name: string, more: seq<string>, rest: seq<string>)
    requires t == ARROW + more && TakeStream(more) == Took(s, ["using", name] + rest)
    ensures TakeTarget(t) == Took((s, ProcessingNamed(name)), rest)
  {
    assert t[2..] == more;
    assert (["using", name] + rest)[2..] == rest;
  }

  /** What describes a node: the inputs in parentheses and the target; what follows is not looked at. */
  ghost predicate NodeTokens(t: seq<string>, n: Node) {
    exists a, b, target, rest ::
      && InputTokens(a, n.a) && SecondTokens(b, n.b, n.any) && TargetTokens(target, n.stream, n.processing)
      && t == ["("] + (a + (b + (target + rest)))
  }

  /** Exactly the texts of this grammar are parsed, and as the node that they describe. */
  lemma NodesRead(t: seq<string>, n: Node)
    ensures ParseNode(t) == Some(n) <==> NodeTokens(t, n)
  {
    if ParseNode(t) == Some(n) { NodeTaken(t, n); }
    if NodeTokens(t, n) { NodeTakes(t, n); }
  }

  lemma NodeTakes(t: seq<string>, n: Node)
    requires NodeTokens(t, n)
    ensures ParseNode(t) == Some(n)
  {
    var a, b, target, rest :|
      && InputTokens(a, n.a) && SecondTokens(b, n.b, n.any) && TargetTokens(target, n.stream, n.processing)
      && t == ["("] + (a + (b + (target + rest)));
    InputTakes(a, n.a, b + (target + rest));
    TargetTakes(target, n.stream, n.processing, rest);
    SecondTakes(b, n.b, n.any, target + rest);
    NodeOfParts(t, n, a + (b + (target + rest)), b + (target + rest), target + rest, rest);
  }

  lemma NodeOfParts(t: seq<string>, n: Node, first: seq<string>, afterA: seq<string>, afterB: seq<string>,
                    rest: seq<string>)
    requires t == ["("] + first && TakeInput(first) == Took(n.a, afterA)
    requires TakeSecond(afterA) == Took((n.b, n.any), afterB)
    requires TakeTarget(afterB) == Took((n.stream, n.processing), rest)
    ensures ParseNode(t) == Some(n)
  {
    assert t[1..] == first;
  }

  lemma NodeParts(t: seq<string>, n: Node) returns (afterA: seq<string>, afterB: seq<string>, rest: seq<string>)
    requires ParseNode(t) == Some(n)
    ensures t != [] && t == ["("] + t[1..]
    ensures TakeInput(t[1..]) == Took(n.a, afterA)
    ensures TakeSecond(afterA) == Took((n.b, n.any), afterB)
    ensures TakeTarget(afterB) == Took((n.stream, n.processing), rest)
  {
    afterA := TakeInput(t[1..]).rest;
    afterB := TakeSecond(afterA).rest;
    rest := TakeTarget(afterB).rest;
  }

  lemma NodeTaken(t: seq<string>, n: Node)
    requires ParseNode(t) == Some(n)
    ensures NodeTokens(t, n)
  {
    var afterA, afterB, rest := NodeParts(t, n);
    var a := InputTaken(t[1..], n.a, afterA);
    var b := SecondTaken(afterA, n.b, n.any, afterB);
    var target := TargetTaken(afterB, n.stream, n.processing, rest);
    IsNode(t, n, a, b, target, rest);
  }

  lemma IsNode(t: seq<string>, n: Node, a: seq<string>, b: seq<string>, target: seq<string>, rest: seq<string>)
    requires InputTokens(a, n.a) && SecondTokens(b, n.b, n.any) && TargetTokens(target, n.stream, n.processing)
    requires t == ["("] + (a + (b + (target + rest)))
    ensures NodeTokens(t, n)
  {
  }
}
