/** The level-by-level topological sort that the engine takes from the toposort
    library: repeatedly emit, in increasing order, all items without remaining
    dependencies; a self-dependency is ignored; fail when no item is free. */
module Toposort {
  import opened Streams
  import opened Walks

  /** The dependencies of v that count. */
  function Needs(deps: map<nat, set<nat>>, v: nat): set<nat> {
    if v in deps then deps[v] - {v} else {}
  }

  function Items(deps: map<nat, set<nat>>): set<nat> {
    deps.Keys + set v, u | v in deps && u in Needs(deps, v) :: u
  }

  ghost predicate Distinct(w: seq<nat>) { !Repeats(w) }

  /** Everything v needs stands before position k of w. */
  ghost predicate NeedsMet(deps: map<nat, set<nat>>, w: seq<nat>, k: nat)
    requires k < |w|
  {
    forall u | u in Needs(deps, w[k]) :: u in w[..k]
  }

  ghost predicate AllMet(deps: map<nat, set<nat>>, w: seq<nat>) {
    forall k | 0 <= k < |w| :: NeedsMet(deps, w, k)
  }

  ghost predicate IsTopologicalOrder(deps: map<nat, set<nat>>, w: seq<nat>) {
    && Distinct(w)
    && Elements(w) == Items(deps)
    && AllMet(deps, w)
  }

  /** The items emitted by the first k levels: level k + 1 adds all items that need
      only items emitted before. */
  function Done(deps: map<nat, set<nat>>, k: nat): set<nat> {
    if k == 0 then {} else set v | v in Items(deps) && Needs(deps, v) <= Done(deps, k - 1)
  }

  /** u is emitted before v: at an earlier level, or at the same one and u is smaller. */
  ghost predicate Earlier(deps: map<nat, set<nat>>, u: nat, v: nat) {
    LowerLevel(deps, u, v) || (u < v && !LowerLevel(deps, v, u))
  }

  ghost predicate LowerLevel(deps: map<nat, set<nat>>, u: nat, v: nat) {
    exists k: nat :: u in Done(deps, k) && v !in Done(deps, k)
  }

  ghost predicate LevelOrder(deps: map<nat, set<nat>>, w: seq<nat>) {
    forall i, j | 0 <= i < j < |w| :: Earlier(deps, w[i], w[j])
  }

  lemma {:induction false} DoneGrows(deps: map<nat, set<nat>>, j: nat, k: nat)
    requires j <= k
    ensures Done(deps, j) <= Done(deps, k)
  {
    if 0 < j { DoneGrows(deps, j - 1, k - 1); }
  }

  /** Levels order the items without ties between them. */
  lemma EarlierIsOrder(deps: map<nat, set<nat>>, u: nat, v: nat)
    ensures Earlier(deps, u, v) ==> !Earlier(deps, v, u)
  {
    if LowerLevel(deps, u, v) && LowerLevel(deps, v, u) {
      var j: nat :| u in Done(deps, j) && v !in Done(deps, j);
      var k: nat :| v in Done(deps, k) && u !in Done(deps, k);
      if j <= k { DoneGrows(deps, j, k); } else { DoneGrows(deps, k, j); }
    }
  }

  /** A set of items each of which waits for another one of the set. */
  ghost predicate Deadlock(deps: map<nat, set<nat>>, stuck: set<nat>) {
    stuck != {} && forall v | v in stuck :: Needs(deps, v) * stuck != {}
  }

  ghost predicate Increasing(w: seq<nat>) {
    forall i, j | 0 <= i < j < |w| :: w[i] < w[j]
  }

  function Insert(w: seq<nat>, x: nat): seq<nat> {
    if w == [] then [x]
    else if x < w[0] then [x] + w
    else [w[0]] + Insert(w[1..], x)
  }

  lemma {:induction false} InsertKeepsOrder(w: seq<nat>, x: nat)
    requires Increasing(w) && x !in w
    ensures Increasing(Insert(w, x))
    ensures forall y :: y in Insert(w, x) <==> y == x || y in w
  {
    if w != [] && w[0] <= x {
      var t := Insert(w[1..], x);
      InsertKeepsOrder(w[1..], x);
      assert w == [w[0]] + w[1..];
      forall k | 0 <= k < |t| ensures w[0] < t[k] {
        assert t[k] in t;
      }
    }
  }

  method Sorted(s: set<nat>) returns (w: seq<nat>)
    ensures Increasing(w) && Elements(w) == s
  {
    w := [];
    var todo := s;
    while todo != {}
      invariant todo <= s && Increasing(w) && Elements(w) == s - todo
    {
      var x :| x in todo;
      assert x !in Elements(w);
      ghost var before := w;
      InsertKeepsOrder(w, x);
      w := Insert(w, x);
      assert Elements(w) == Elements(before) + {x};
      todo := todo - {x};
    }
  }

  /** What the loop of Flatten keeps after k levels: `rest` maps the items not yet
      emitted to what they still need. */
  ghost predicate Progress(deps: map<nat, set<nat>>, rest: map<nat, set<nat>>, w: seq<nat>, k: nat) {
    && Distinct(w)
    && Accounted(deps, Items(deps), rest, Elements(w))
    && AllMet(deps, w)
    && Elements(w) == Done(deps, k)
    && LevelOrder(deps, w)
  }

  ghost predicate Accounted(deps: map<nat, set<nat>>, items: set<nat>, rest: map<nat, set<nat>>, done: set<nat>) {
    && rest.Keys == items - done
    && done <= items
    && forall v | v in rest :: rest[v] == Needs(deps, v) - done
  }

  lemma DistinctAppend(w: seq<nat>, t: seq<nat>)
    requires Distinct(w) && Increasing(t) && Elements(w) !! Elements(t)
    ensures Distinct(w + t)
  {
    forall i, j | 0 <= i < j < |w + t| ensures (w + t)[i] != (w + t)[j] {
      if i < |w| <= j {
        assert w[i] in Elements(w) && t[j - |w|] in Elements(t);
      }
    }
  }

  /** What needs nothing more. */
  function Ready(rest: map<nat, set<nat>>): set<nat> {
    set v | v in rest && rest[v] == {}
  }

  function After(rest: map<nat, set<nat>>, level: set<nat>): map<nat, set<nat>> {
    map v | v in rest && v !in level :: rest[v] - level
  }

  lemma LevelMet(deps: map<nat, set<nat>>, w: seq<nat>, t: seq<nat>)
    requires AllMet(deps, w) && forall v | v in t :: Needs(deps, v) <= Elements(w)
    ensures AllMet(deps, w + t)
  {
    var x := w + t;
    forall k | 0 <= k < |x| ensures NeedsMet(deps, x, k) {
      if k < |w| {
        assert NeedsMet(deps, w, k) && w[..k] == x[..k];
      } else {
        assert x[k] == t[k - |w|];
        forall u | u in Needs(deps, x[k]) ensures u in x[..k] {
          assert u in Elements(w);
          assert x[..k] == w + t[..k - |w|];
        }
      }
    }
  }

  lemma SameLevel(deps: map<nat, set<nat>>, k: nat, u: nat, v: nat)
    requires u in Done(deps, k + 1) && v !in Done(deps, k)
    ensures !LowerLevel(deps, v, u)
  {
    if LowerLevel(deps, v, u) {
      var i: nat :| v in Done(deps, i) && u !in Done(deps, i);
      if i <= k { DoneGrows(deps, i, k); } else { DoneGrows(deps, k + 1, i); }
    }
  }

  lemma LevelOrdered(deps: map<nat, set<nat>>, w: seq<nat>, t: seq<nat>, k: nat)
    requires LevelOrder(deps, w) && Elements(w) == Done(deps, k)
    requires Increasing(t) && Elements(t) == Done(deps, k + 1) - Done(deps, k)
    ensures LevelOrder(deps, w + t)
  {
    var x := w + t;
    forall i, j | 0 <= i < j < |x| ensures Earlier(deps, x[i], x[j]) {
      if j < |w| {
        assert Earlier(deps, w[i], w[j]);
      } else {
        assert x[j] == t[j - |w|] && x[j] in Elements(t);
        if i < |w| {
          assert x[i] in Elements(w);
          assert LowerLevel(deps, x[i], x[j]);
        } else {
          assert x[i] == t[i - |w|] && x[i] in Elements(t);
          SameLevel(deps, k, x[i], x[j]);
        }
      }
    }
  }

  lemma LevelAccounted(deps: map<nat, set<nat>>, items: set<nat>, rest: map<nat, set<nat>>, done: set<nat>,
                       level: set<nat>)
    requires Accounted(deps, items, rest, done) && level <= rest.Keys
    ensures Accounted(deps, items, After(rest, level), done + level)
  {
  }

  lemma InNextLevel(deps: map<nat, set<nat>>, rest: map<nat, set<nat>>, k: nat, v: nat)
    requires Accounted(deps, Items(deps), rest, Done(deps, k))
    ensures v in rest && rest[v] == {} <==> v in Done(deps, k + 1) - Done(deps, k)
  {
    if v in rest && rest[v] == {} {
      forall u | u in Needs(deps, v) ensures u in Done(deps, k) {
        assert u !in rest[v];
      }
    }
  }

  lemma LevelIsNext(deps: map<nat, set<nat>>, rest: map<nat, set<nat>>, k: nat)
    requires Accounted(deps, Items(deps), rest, Done(deps, k))
    ensures Ready(rest) == Done(deps, k + 1) - Done(deps, k)
  {
    forall v: nat ensures v in Ready(rest) <==> v in Done(deps, k + 1) - Done(deps, k) {
      InNextLevel(deps, rest, k, v);
    }
  }

  lemma ReadyMet(deps: map<nat, set<nat>>, rest: map<nat, set<nat>>, done: set<nat>, t: seq<nat>)
    requires Accounted(deps, Items(deps), rest, done) && Elements(t) == Ready(rest)
    ensures forall v | v in t :: Needs(deps, v) <= done
  {
    forall v | v in t ensures Needs(deps, v) <= done {
      assert v in Elements(t);
      assert rest[v] == Needs(deps, v) - done == {};
    }
  }

  lemma ElementsJoin(w: seq<nat>, t: seq<nat>, done: set<nat>, next: set<nat>)
    requires Elements(w) == done && Elements(t) == next - done && done <= next
    ensures Elements(w + t) == next
  {
    assert Elements(w + t) == Elements(w) + Elements(t);
  }

  lemma NextLevelOrdered(deps: map<nat, set<nat>>, rest: map<nat, set<nat>>, w: seq<nat>, t: seq<nat>, k: nat)
    requires Accounted(deps, Items(deps), rest, Done(deps, k)) && Elements(w) == Done(deps, k) && LevelOrder(deps, w)
    requires Increasing(t) && Elements(t) == Ready(rest)
    ensures Elements(w + t) == Done(deps, k + 1) && LevelOrder(deps, w + t)
  {
    LevelIsNext(deps, rest, k);
    DoneGrows(deps, k, k + 1);
    LevelOrdered(deps, w, t, k);
    ElementsJoin(w, t, Done(deps, k), Done(deps, k + 1));
  }

  lemma NextLevelMet(deps: map<nat, set<nat>>, rest: map<nat, set<nat>>, w: seq<nat>, t: seq<nat>)
    requires Distinct(w) && Accounted(deps, Items(deps), rest, Elements(w)) && AllMet(deps, w)
    requires Increasing(t) && Elements(t) == Ready(rest)
    ensures Distinct(w + t) && AllMet(deps, w + t)
    ensures Accounted(deps, Items(deps), After(rest, Elements(t)), Elements(w + t))
  {
    DistinctAppend(w, t);
    ReadyMet(deps, rest, Elements(w), t);
    LevelMet(deps, w, t);
    LevelAccounted(deps, Items(deps), rest, Elements(w), Elements(t));
    assert Elements(w + t) == Elements(w) + Elements(t);
  }

  /** One level: all items of rest that need nothing more are emitted. */
  lemma LevelKeepsProgress(deps: map<nat, set<nat>>, rest: map<nat, set<nat>>, w: seq<nat>, t: seq<nat>, k: nat)
    requires Progress(deps, rest, w, k)
    requires Increasing(t) && Elements(t) == Ready(rest)
    ensures Progress(deps, After(rest, Elements(t)), w + t, k + 1)
  {
    NextLevelMet(deps, rest, w, t);
    NextLevelOrdered(deps, rest, w, t, k);
  }

  method Flatten(deps: map<nat, set<nat>>) returns (r: Option<seq<nat>>)
    ensures r.Some? ==> IsTopologicalOrder(deps, r.value) && LevelOrder(deps, r.value)
    ensures r.None? <==> exists stuck :: Deadlock(deps, stuck)
  {
    var w: seq<nat> := [];
    var rest := map v | v in Items(deps) :: Needs(deps, v);
    assert Elements(w) == {};
    ghost var k := 0;
    while true
      invariant Progress(deps, rest, w, k)
      decreases rest.Keys
    {
      var ready := Ready(rest);
      if ready == {} { break; }
      var t := Sorted(ready);
      var x :| x in ready;
      assert x in Elements(t);
      LevelKeepsProgress(deps, rest, w, t, k);
      rest := After(rest, ready);
      w, k := w + t, k + 1;
    }
    if rest == map[] {
      FinishedOrder(deps, w, k);
      r := Some(w);
    } else {
      RestDeadlocked(deps, rest, Elements(w));
      r := None;
    }
  }

  lemma FinishedOrder(deps: map<nat, set<nat>>, w: seq<nat>, k: nat)
    requires Progress(deps, map[], w, k)
    ensures IsTopologicalOrder(deps, w) && LevelOrder(deps, w)
    ensures forall stuck :: !Deadlock(deps, stuck)
  {
    var none: map<nat, set<nat>> := map[];
    assert none.Keys == {};
    assert Elements(w) == Items(deps);
    forall stuck ensures !Deadlock(deps, stuck) {
      OrderHasNoDeadlock(deps, w, stuck);
    }
  }

  lemma RestDeadlocked(deps: map<nat, set<nat>>, rest: map<nat, set<nat>>, done: set<nat>)
    requires Accounted(deps, Items(deps), rest, done) && rest.Keys != {} && Ready(rest) == {}
    ensures Deadlock(deps, rest.Keys)
  {
    forall v | v in rest.Keys ensures Needs(deps, v) * rest.Keys != {} {
      assert v !in Ready(rest);
      var u :| u in rest[v];
      NeedIsItem(deps, v, u);
      assert u in Needs(deps, v) * rest.Keys;
    }
  }

  lemma NeedIsItem(deps: map<nat, set<nat>>, v: nat, u: nat)
    requires u in Needs(deps, v)
    ensures u in Items(deps)
  {
  }

  /** Of a set of items in topological order, the first one waits for none of them. */
  lemma OrderHasNoDeadlock(deps: map<nat, set<nat>>, w: seq<nat>, stuck: set<nat>)
    requires IsTopologicalOrder(deps, w)
    ensures !Deadlock(deps, stuck)
  {
    if Deadlock(deps, stuck) {
      var x :| x in stuck;
      assert Needs(deps, x) * stuck != {};
      var u :| u in Needs(deps, x) * stuck;
      NeedIsItem(deps, x, u);
      assert u in Elements(w);
      var k :| 0 <= k < |w| && w[k] == u;
      NoneStuckBefore(deps, w, stuck, k + 1);
    }
  }

  lemma {:induction false} NoneStuckBefore(deps: map<nat, set<nat>>, w: seq<nat>, stuck: set<nat>, k: nat)
    requires IsTopologicalOrder(deps, w) && Deadlock(deps, stuck) && k <= |w|
    ensures forall i | 0 <= i < k :: w[i] !in stuck
  {
    if k > 0 {
      NoneStuckBefore(deps, w, stuck, k - 1);
      assert NeedsMet(deps, w, k - 1);
      forall u | u in Needs(deps, w[k - 1]) ensures u !in stuck {
        var i :| 0 <= i < k - 1 && w[i] == u;
      }
      assert Needs(deps, w[k - 1]) * stuck == {};
    }
  }
}
