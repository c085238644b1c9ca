/** What the worker's check for expired requests queues, and what becomes of such a
    notice when it waits behind other actions. */
module Timeouts {
  import opened Basics
  import opened Streams
  import opened Connections

  /** The action that is queued for a record whose time is up. */
  function TimeoutAction(r: Rec): Option<Action> {
    match r.state
    case Connecting => Some(FinishConnection(Ext(r.cid), false))
    case Disconnecting => Some(FinishDisconnection(Ext(r.cid), false))
    case InProgress =>
      if r.micro == Some(RPC) || r.micro == Some(OPEN_INTERFACE) then Some(FinishOperation(Ext(r.cid), false)) else None
    case _ => None
  }

  /** The action that fails what is going on with connection c, if it has expired and what
      is going on can time out. */
  function TimeoutNotice(conns: map<int, Rec>, c: int, expired: set<int>): (q: seq<Action>) {
    if c in conns && conns[c].action.Some? && c in expired && TimeoutAction(conns[c]).Some?
    then [TimeoutAction(conns[c]).value] else []
  }

  /** The actions that the timeout check queues, in the order it looks at the connections. */
  function TimeoutNotices(conns: map<int, Rec>, order: seq<int>, expired: set<int>): (q: seq<Action>)
    ensures forall i | 0 <= i < |q| :: IsReport(q[i])
  {
    if order == [] then []
    else TimeoutNotices(conns, order[..|order| - 1], expired) + TimeoutNotice(conns, order[|order| - 1], expired)
  }

  // ----- Any run after a notice ----------------------------------------------------------

  function RunFrom(m: Manager, steps: seq<Step>): Manager {
    if steps == [] then m else Next(RunFrom(m, steps[..|steps| - 1]), steps[|steps| - 1])
  }

  /** How many of the steps are the worker's. */
  function WorksIn(steps: seq<Step>): nat {
    if steps == [] then 0 else WorksIn(steps[..|steps| - 1]) + Bit(steps[|steps| - 1].Work?)
  }

  /** Whatever else happens, the worker takes what is queued in order. */
  lemma {:induction false} TakesInOrder(m: Manager, steps: seq<Step>)
    requires WorksIn(steps) <= |m.queue|
    ensures m.queue[WorksIn(steps)..] <= RunFrom(m, steps).queue
  {
    if steps != [] {
      var m', s, w := RunFrom(m, steps[..|steps| - 1]), steps[|steps| - 1], WorksIn(steps[..|steps| - 1]);
      TakesInOrder(m, steps[..|steps| - 1]);
      if s.Work? {
        assert m'.queue[0] == m.queue[w..][0];
        HandleKeeps(m'.(queue := m'.queue[1..]), m'.queue[0]);
        assert m.queue[w + 1..] == m.queue[w..][1..] <= m'.queue[1..];
      }
    }
  }

  /** What is going on with connection c is of this kind, and its callback is u. */
  predicate Owes(m: Manager, c: int, s: State, u: nat) {
    c in m.conns && m.conns[c].state == s && m.conns[c].action == Some(u)
  }

  /** The worker's next action begins request u on connection c, where nothing is going on. */
  predicate BeginsNext(m: Manager, c: int, s: State, u: nat) {
    m.queue != [] && Begins(m, m.queue[0], c, s, u)
  }

  predicate Begins(m: Manager, a: Action, c: int, s: State, u: nat) {
    match a
    case BeginConnection(cid, iid, callback) =>
      && s == Connecting && cid == c && callback == u
      && m.StateOf(Ext(c)) == Disconnected && m.StateOf(Int(iid)) == Disconnected
    case BeginDisconnection(key, callback) =>
      s == Disconnecting && m.Find(key) == m.Find(Ext(c)) && callback == u && m.StateOf(Ext(c)) == Idle
    case BeginOperation(key, op, callback) =>
      s == InProgress && m.Find(key) == m.Find(Ext(c)) && callback == u && m.StateOf(Ext(c)) == Idle
    case _ => false
  }

  lemma HandleBegins(m: Manager, a: Action, c: int, s: State, u: nat)
    requires Consistent(m) && s != Idle && !Owes(m, c, s, u)
    ensures Owes(Handle(m, a), c, s, u) <==> Begins(m, a, c, s, u)
  {
    if c in m.conns { FoundIsInTables(m, Ext(c)); }
    if a.BeginConnection? {
      if m.StateOf(Ext(a.cid)) == Disconnected { NotFound(m, Ext(a.cid)); }
    } else if m.Find(a.key).Some? {
      FoundIsInTables(m, a.key);
      FoundBegins(m, a, m.Find(a.key).value, c, s, u);
    }
  }

  lemma FoundBegins(m: Manager, a: Action, r: Rec, c: int, s: State, u: nat)
    requires !a.BeginConnection? && Finds(m, a.key, r) && s != Idle && !Owes(m, c, s, u)
    requires c in m.conns ==> m.conns[c].cid == c && m.StateOf(Ext(c)) != Disconnected
    ensures Owes(Handle(m, a), c, s, u) <==> Begins(m, a, c, s, u)
  {
    match a
    case BeginDisconnection(_, callback) =>
      assert m.Put(Leaving(r, callback)).conns == m.conns[r.cid := Leaving(r, callback)];
    case BeginOperation(_, op, callback) =>
      assert m.Put(Operating(r, op, callback)).conns == m.conns[r.cid := Operating(r, op, callback)];
    case _ =>
  }

  /** A request comes to be owed in one way only: the worker begins it. */
  lemma OwedFrom(m: Manager, step: Step, c: int, s: State, u: nat)
    requires Consistent(m) && s != Idle && !Owes(m, c, s, u)
    ensures Owes(Next(m, step), c, s, u) <==> step.Work? && BeginsNext(m, c, s, u)
  {
    if step.Work? && m.queue != [] { HandleBegins(m.(queue := m.queue[1..]), m.queue[0], c, s, u); }
  }

  /** Request u began at step k and has been going on ever since. */
  ghost predicate BeganAt(m: Manager, steps: seq<Step>, k: nat, c: int, s: State, u: nat)
    requires k < |steps|
  {
    && steps[k].Work? && BeginsNext(RunFrom(m, steps[..k]), c, s, u)
    && OngoingSince(m, steps, k + 1, c, s, u)
  }

  ghost predicate OngoingSince(m: Manager, steps: seq<Step>, k: nat, c: int, s: State, u: nat)
    requires k <= |steps|
  {
    forall j | k <= j <= |steps| :: Owes(RunFrom(m, steps[..j]), c, s, u)
  }

  lemma {:induction false} RunConsistent(m: Manager, steps: seq<Step>)
    requires Consistent(m)
    ensures Consistent(RunFrom(m, steps))
  {
    if steps != [] {
      RunConsistent(m, steps[..|steps| - 1]);
      NextConsistent(RunFrom(m, steps[..|steps| - 1]), steps[|steps| - 1]);
    }
  }

  lemma {:induction false} OngoingBegan(m: Manager, steps: seq<Step>, c: int, s: State, u: nat) returns (k: nat)
    requires Consistent(m) && s != Idle && !Owes(m, c, s, u) && Owes(RunFrom(m, steps), c, s, u)
    ensures k < |steps| && BeganAt(m, steps, k, c, s, u)
  {
    var n := |steps| - 1;
    var before := steps[..n];
    assert steps[..|steps|] == steps;
    if Owes(RunFrom(m, before), c, s, u) {
      k := OngoingBegan(m, before, c, s, u);
      assert before[..k] == steps[..k];
      OngoingOneMore(m, steps, k + 1, c, s, u);
    } else {
      k := n;
      RunConsistent(m, before);
      OwedFrom(RunFrom(m, before), steps[n], c, s, u);
      OngoingAtEnd(m, steps, c, s, u);
    }
  }

  lemma OngoingAtEnd(m: Manager, steps: seq<Step>, c: int, s: State, u: nat)
    requires Owes(RunFrom(m, steps), c, s, u)
    ensures OngoingSince(m, steps, |steps|, c, s, u)
  {
    assert steps[..|steps|] == steps;
  }

  lemma OngoingOneMore(m: Manager, steps: seq<Step>, k: nat, c: int, s: State, u: nat)
    requires k < |steps| && Owes(RunFrom(m, steps), c, s, u)
    requires OngoingSince(m, steps[..|steps| - 1], k, c, s, u)
    ensures OngoingSince(m, steps, k, c, s, u)
  {
    forall j | k <= j <= |steps| ensures Owes(RunFrom(m, steps[..j]), c, s, u) {
      assert steps[..j] == if j == |steps| then steps else steps[..|steps| - 1][..j];
    }
  }

  // ----- When a notice hits another request ------------------------------------------------

  /** Handling the notice calls callback u with a failure. */
  predicate Hits(m: Manager, notice: Action, u: nat) {
    Handle(m, notice).fired == m.fired + [Fired(u, false)]
  }

  lemma NoticeHits(m: Manager, r: Rec, c: int, u: nat)
    requires Consistent(m) && r.cid == c && TimeoutAction(r).Some?
    ensures Hits(m, TimeoutAction(r).value, u) <==> Owes(m, c, r.state, u)
  {
    if c in m.conns { FoundIsInTables(m, Ext(c)); }
    if Owes(m, c, r.state, u) {
      assert m.fired + [Fired(u, false)] == m.fired + [Fired(m.conns[c].action.value, false)];
    } else if c in m.conns && m.conns[c].action.Some? {
      var told := m.fired + [Fired(m.conns[c].action.value, false)];
      assert told[|m.fired|].callback != u || m.conns[c].state != r.state;
    }
  }

  /** The notice that request t of connection c has expired. */
  function NoticeFor(m: Manager, c: int): Action
    requires c in m.conns && TimeoutAction(m.conns[c]).Some?
  {
    TimeoutAction(m.conns[c]).value
  }

  /** A notice that request t has expired is queued behind the actions that were there
      before, and whatever happens in between, it is handled right after them.  It then
      calls the callback of another request u if and only if, through those actions, u
      began on the same connection as the same kind of request and has been going on
      since; so t had ended before. */
  lemma StaleNotice(m: Manager, c: int, t: nat, steps: seq<Step>, u: nat)
    requires Consistent(m) && c in m.conns && m.conns[c].action == Some(t) && TimeoutAction(m.conns[c]).Some?
    requires WorksIn(steps) == |m.queue| && u != t
    ensures var m', s := m.(queue := m.queue + [NoticeFor(m, c)]), m.conns[c].state;
            var after := RunFrom(m', steps);
            && after.queue != [] && after.queue[0] == NoticeFor(m, c)
            && (Hits(after, NoticeFor(m, c), u) <==> exists k :: 0 <= k < |steps| && BeganAt(m', steps, k, c, s, u))
            && (forall k | 0 <= k < |steps| && BeganAt(m', steps, k, c, s, u) ::
                  WorksIn(steps[..k]) < |m.queue| && CallbackOf(m.queue[WorksIn(steps[..k])]) == Some(u))
  {
    var r, notice := m.conns[c], NoticeFor(m, c);
    var m' := m.(queue := m.queue + [notice]);
    var after := RunFrom(m', steps);
    assert Sound(r);
    TakesInOrder(m', steps);
    RunConsistent(m', steps);
    NoticeHits(after, r, c, u);
    assert m'.queue[|m.queue|..] == [notice];
    if Owes(after, c, r.state, u) {
      var k := OngoingBegan(m', steps, c, r.state, u);
    }
    forall k | 0 <= k < |steps| && BeganAt(m', steps, k, c, r.state, u)
      ensures Owes(after, c, r.state, u)
      ensures WorksIn(steps[..k]) < |m.queue| && CallbackOf(m.queue[WorksIn(steps[..k])]) == Some(u)
    {
      BeganAhead(m', steps, k, c, r.state, u, |m.queue|);
    }
  }

  lemma {:induction false} WorksBefore(steps: seq<Step>, k: nat)
    requires k < |steps| && steps[k].Work?
    ensures WorksIn(steps[..k]) < WorksIn(steps)
  {
    var n := |steps| - 1;
    if k < n {
      assert steps[..n][..k] == steps[..k];
      WorksBefore(steps[..n], k);
    }
  }

  lemma OngoingNow(m: Manager, steps: seq<Step>, k: nat, c: int, s: State, u: nat)
    requires k <= |steps| && OngoingSince(m, steps, k, c, s, u)
    ensures Owes(RunFrom(m, steps), c, s, u)
  {
    assert steps[..|steps|] == steps;
  }

  lemma BeganAhead(m: Manager, steps: seq<Step>, k: nat, c: int, s: State, u: nat, n: nat)
    requires k < |steps| && BeganAt(m, steps, k, c, s, u) && WorksIn(steps) == n < |m.queue|
    ensures WorksIn(steps[..k]) < n && CallbackOf(m.queue[WorksIn(steps[..k])]) == Some(u)
    ensures Owes(RunFrom(m, steps), c, s, u)
  {
    OngoingNow(m, steps, k + 1, c, s, u);
    WorksBefore(steps, k);
    TakesInOrder(m, steps[..k]);
    assert RunFrom(m, steps[..k]).queue[0] == m.queue[WorksIn(steps[..k])..][0];
  }

  // ----- That it happens ----------------------------------------------------------------------

  /** One turn of the worker: it looks for expired requests, then takes an action. */
  function Turn(m: Manager, order: seq<int>, expired: set<int>): Manager {
    Next(m.(queue := m.queue + TimeoutNotices(m.conns, order, expired)), Work)
  }

  function Works(m: Manager, n: nat): Manager
    decreases n
  {
    if n == 0 then m else Works(Next(m, Work), n - 1)
  }

  function HandleAll(m: Manager, q: seq<Action>): Manager
    decreases |q|
  {
    if q == [] then m else HandleAll(Handle(m, q[0]), q[1..])
  }

  /** The action is not about the connection, or is a request to open it again, which is
      refused while it is open. */
  predicate LeavesAlone(a: Action, r: Rec) {
    a.BeginConnection? || (a.key != Ext(r.cid) && a.key != Int(r.iid))
  }

  predicate SameButQueue(m: Manager, m': Manager, q: seq<Action>, n: nat) { m' == m.(queue := q, begun := n) }

  lemma ForceOutQueue(m: Manager, r: Rec, q: seq<Action>, n: nat)
    ensures SameButQueue(ForceOut(m, r), ForceOut(m.(queue := q, begun := n), r), q, n)
  {
  }

  lemma FinishQueue(m: Manager, key: Key, success: bool, q: seq<Action>, n: nat)
    ensures SameButQueue(
              DoFinishConnection(m, key, success), DoFinishConnection(m.(queue := q, begun := n), key, success), q, n)
    ensures SameButQueue(
              DoFinishOperation(m, key, success), DoFinishOperation(m.(queue := q, begun := n), key, success), q, n)
  {
    assert m.(queue := q, begun := n).Find(key) == m.Find(key);
  }

  lemma FinishDisconnectionQueue(m: Manager, key: Key, success: bool, q: seq<Action>, n: nat)
    ensures SameButQueue(
              DoFinishDisconnection(m, key, success),
              DoFinishDisconnection(m.(queue := q, begun := n), key, success), q, n)
  {
    assert m.(queue := q, begun := n).Find(key) == m.Find(key);
  }

  /** What the worker does depends on neither the queue nor the number of requests. */
  lemma HandleQueue(m: Manager, a: Action, q: seq<Action>, n: nat)
    ensures SameButQueue(Handle(m, a), Handle(m.(queue := q, begun := n), a), q, n)
  {
    var m' := m.(queue := q, begun := n);
    match a {
      case BeginConnection(cid, iid, callback) =>
        assert m'.Find(Ext(cid)) == m.Find(Ext(cid)) && m'.Find(Int(iid)) == m.Find(Int(iid));
      case ForceDisconnect(key) =>
        assert m'.Find(key) == m.Find(key);
        if m.Find(key).Some? { ForceOutQueue(m, m.Find(key).value, q, n); }
      case FinishConnection(key, success) => FinishQueue(m, key, success, q, n);
      case FinishOperation(key, success) => FinishQueue(m, key, success, q, n);
      case FinishDisconnection(key, success) => FinishDisconnectionQueue(m, key, success, q, n);
      case BeginDisconnection(key, _) => assert m'.Find(key) == m.Find(key);
      case BeginOperation(key, _, _) => assert m'.Find(key) == m.Find(key);
    }
  }

  lemma {:induction false} WorksHandle(m: Manager, q: seq<Action>, rest: seq<Action>)
    requires m.queue == q + rest
    ensures Works(m, |q|) == HandleAll(m.(queue := rest), q)
    decreases |q|
  {
    if q != [] {
      assert m.queue[1..] == q[1..] + rest;
      var m' := Handle(m.(queue := m.queue[1..]), q[0]);
      HandleKeeps(m.(queue := m.queue[1..]), q[0]);
      WorksHandle(m', q[1..], rest);
      HandleQueue(m, q[0], m.queue[1..], m.begun);
      HandleQueue(m, q[0], rest, m.begun);
    } else {
      assert q + rest == rest;
    }
  }

  lemma {:induction false} HandleAllSplit(m: Manager, p: seq<Action>, q: seq<Action>)
    ensures HandleAll(m, p + q) == HandleAll(HandleAll(m, p), q)
    decreases |p|
  {
    if p == [] {
      assert p + q == q;
    } else {
      HandleAllSplit(Handle(m, p[0]), p[1..], q);
      assert (p + q)[1..] == p[1..] + q;
    }
  }

  lemma HandleLeaves(m: Manager, a: Action, r: Rec)
    requires Consistent(m) && r.cid in m.conns && m.conns[r.cid] == r && LeavesAlone(a, r)
    ensures Consistent(Handle(m, a)) && r.cid in Handle(m, a).conns && Handle(m, a).conns[r.cid] == r
  {
    HandleConsistent(m, a);
    FoundIsInTables(m, Ext(r.cid));
    if a.BeginConnection? && a.cid == r.cid {
      assert Handle(m, a) == m.Fire(a.callback, false);
    } else {
      if !a.BeginConnection? && m.Find(a.key).Some? { FoundIsInTables(m, a.key); }
      MovesAlongPath(m, a, r.cid);
      assert Handle(m, a).Find(Ext(r.cid)) == Some(r);
    }
  }

  lemma {:induction false} AllLeave(m: Manager, q: seq<Action>, r: Rec)
    requires Consistent(m) && r.cid in m.conns && m.conns[r.cid] == r
    requires forall i | 0 <= i < |q| :: LeavesAlone(q[i], r)
    ensures var m' := HandleAll(m, q);
            Consistent(m') && r.cid in m'.conns && m'.conns[r.cid] == r && m'.begun == m.begun && m'.queue == m.queue
    decreases |q|
  {
    if q != [] {
      assert LeavesAlone(q[0], r);
      HandleLeaves(m, q[0], r);
      HandleKeeps(m, q[0]);
      AllLeave(Handle(m, q[0]), q[1..], r);
    }
  }

  /** c is looked at exactly once. */
  predicate Once(order: seq<int>, c: int) {
    exists i :: 0 <= i < |order| && order[i] == c && c !in order[..i] && c !in order[i + 1..]
  }

  lemma {:induction false} NoNotice(conns: map<int, Rec>, order: seq<int>, c: int)
    requires c !in order
    ensures TimeoutNotices(conns, order, {c}) == []
  {
    if order != [] { NoNotice(conns, order[..|order| - 1], c); }
  }

  lemma {:induction false} OneNotice(conns: map<int, Rec>, order: seq<int>, c: int)
    requires Once(order, c) && c in conns && conns[c].action.Some? && TimeoutAction(conns[c]).Some?
    ensures TimeoutNotices(conns, order, {c}) == [TimeoutAction(conns[c]).value]
  {
    var i :| 0 <= i < |order| && order[i] == c && c !in order[..i] && c !in order[i + 1..];
    var n := |order| - 1;
    if i == n {
      NoNotice(conns, order[..n], c);
    } else {
      assert order[n] == order[i + 1..][n - i - 1];
      var before := order[..n];
      assert before[..i] == order[..i];
      assert before[i + 1..] == order[i + 1..][..n - i - 1];
      OneNotice(conns, before, c);
    }
  }

  /** An rpc t on connection c expires while other actions are queued that leave c alone; the
      client begins the next rpc after the worker has looked, and the worker looks again
      before it has come to the first notice.  Then the second notice fails the next rpc,
      whose time was not up. */
  lemma SecondNoticeHitsNext(m: Manager, c: int, t: nat, order: seq<int>, order': seq<int>)
    requires Consistent(m) && m.queue != [] && c in m.conns && m.conns[c].action == Some(t)
    requires m.conns[c].state == InProgress && m.conns[c].micro == Some(RPC)
    requires forall i | 0 <= i < |m.queue| :: LeavesAlone(m.queue[i], m.conns[c])
    requires Once(order, c) && Once(order', c)
    ensures var first := Next(Turn(m, order, {c}), Operate(Ext(c), RPC));
            Works(Turn(first, order', {c}), |m.queue| + 1).fired ==
            HandleAll(m, m.queue).fired + [Fired(t, false), Fired(m.begun, false)]
  {
    FirstTurn(m, c, t, order);
    SecondTurn(m, c, t, Next(Turn(m, order, {c}), Operate(Ext(c), RPC)), order');
  }

  lemma SecondTurn(m: Manager, c: int, t: nat, m': Manager, order: seq<int>)
    requires Consistent(m) && m.queue != [] && c in m.conns && m.conns[c].action == Some(t)
    requires m.conns[c].state == InProgress && m.conns[c].micro == Some(RPC)
    requires forall i | 0 <= i < |m.queue| :: LeavesAlone(m.queue[i], m.conns[c])
    requires Once(order, c) && c in m'.conns && m'.conns[c] == m.conns[c]
    requires SameButQueue(Handle(m, m.queue[0]), m',
               m.queue[1..] + [FinishOperation(Ext(c), false)] + [BeginOperation(Ext(c), RPC, m.begun)], m.begun + 1)
    ensures Works(Turn(m', order, {c}), |m.queue| + 1).fired ==
            HandleAll(m, m.queue).fired + [Fired(t, false), Fired(m.begun, false)]
  {
    var fin, begin := FinishOperation(Ext(c), false), BeginOperation(Ext(c), RPC, m.begun);
    OneNotice(m'.conns, order, c);
    WorksAfterTurn(m', order, {c}, fin);
    assert m'.queue + [fin] == m.queue[1..] + [fin, begin, fin];
    HandleAllSplit(m'.(queue := []), m.queue[1..], [fin, begin, fin]);
    Afterwards(m, c, t, m'.(queue := []));
  }

  lemma WorksAfterTurn(m: Manager, order: seq<int>, expired: set<int>, notice: Action)
    requires TimeoutNotices(m.conns, order, expired) == [notice]
    ensures Works(Turn(m, order, expired), |m.queue|) == HandleAll(m.(queue := []), m.queue + [notice])
  {
    var m' := m.(queue := m.queue + [notice]);
    assert m'.queue + [] == m'.queue;
    WorksHandle(m', m'.queue, []);
    assert Works(m', |m'.queue|) == Works(Next(m', Work), |m.queue|);
  }

  lemma TurnWithNotice(m: Manager, order: seq<int>, expired: set<int>, notice: Action)
    requires m.queue != [] && TimeoutNotices(m.conns, order, expired) == [notice]
    ensures SameButQueue(Handle(m, m.queue[0]), Turn(m, order, expired), m.queue[1..] + [notice], m.begun)
  {
    assert (m.queue + [notice])[1..] == m.queue[1..] + [notice];
    HandleQueue(m, m.queue[0], m.queue[1..] + [notice], m.begun);
  }

  lemma OperateNext(m: Manager, m': Manager, q: seq<Action>, c: int)
    requires SameButQueue(m, m', q, m.begun)
    ensures SameButQueue(m, Next(m', Operate(Ext(c), RPC)), q + [BeginOperation(Ext(c), RPC, m.begun)], m.begun + 1)
  {
  }

  lemma FirstTurn(m: Manager, c: int, t: nat, order: seq<int>)
    requires Consistent(m) && m.queue != [] && c in m.conns && m.conns[c].action == Some(t)
    requires m.conns[c].state == InProgress && m.conns[c].micro == Some(RPC)
    requires LeavesAlone(m.queue[0], m.conns[c]) && Once(order, c)
    ensures var first := Next(Turn(m, order, {c}), Operate(Ext(c), RPC));
            && SameButQueue(Handle(m, m.queue[0]), first,
                 m.queue[1..] + [FinishOperation(Ext(c), false)] + [BeginOperation(Ext(c), RPC, m.begun)], m.begun + 1)
            && c in first.conns && first.conns[c] == m.conns[c]
  {
    var fin := FinishOperation(Ext(c), false);
    OneNotice(m.conns, order, c);
    TurnWithNotice(m, order, {c}, fin);
    HandleLeaves(m, m.queue[0], m.conns[c]);
    HandleKeeps(m, m.queue[0]);
    OperateNext(Handle(m, m.queue[0]), Turn(m, order, {c}), m.queue[1..] + [fin], c);
  }

  lemma Afterwards(m: Manager, c: int, t: nat, m': Manager)
    requires Consistent(m) && m.queue != [] && c in m.conns && m.conns[c].action == Some(t)
    requires m.conns[c].state == InProgress && m.conns[c].micro == Some(RPC)
    requires forall i | 0 <= i < |m.queue| :: LeavesAlone(m.queue[i], m.conns[c])
    requires m' == Handle(m, m.queue[0]).(begun := m.begun + 1, queue := [])
    ensures var fin, begin := FinishOperation(Ext(c), false), BeginOperation(Ext(c), RPC, m.begun);
            HandleAll(HandleAll(m', m.queue[1..]), [fin, begin, fin]).fired ==
            HandleAll(m, m.queue).fired + [Fired(t, false), Fired(m.begun, false)]
  {
    HandleLeaves(m, m.queue[0], m.conns[c]);
    AllLeave(m', m.queue[1..], m.conns[c]);
    SameFired(Handle(m, m.queue[0]), m.queue[1..], m.begun + 1);
    ThreeMore(HandleAll(m', m.queue[1..]), c, t, m.begun);
  }

  lemma {:induction false} SameFired(m: Manager, q: seq<Action>, n: nat)
    ensures HandleAll(m.(queue := [], begun := n), q) == HandleAll(m, q).(queue := [], begun := n)
    decreases |q|
  {
    if q != [] {
      HandleQueue(m, q[0], [], n);
      SameFired(Handle(m, q[0]), q[1..], n);
    }
  }

  lemma ThreeMore(m: Manager, c: int, t: nat, u: nat)
    requires Consistent(m) && c in m.conns && m.conns[c].action == Some(t) && m.conns[c].state == InProgress
    ensures var fin, begin := FinishOperation(Ext(c), false), BeginOperation(Ext(c), RPC, u);
            HandleAll(m, [fin, begin, fin]).fired == m.fired + [Fired(t, false), Fired(u, false)]
  {
    var r := m.conns[c];
    var fin, begin := FinishOperation(Ext(c), false), BeginOperation(Ext(c), RPC, u);
    var m1 := Handle(m, fin);
    assert m1.conns[c] == ToIdle(r) && m1.fired == m.fired + [Fired(t, false)];
    var m2 := Handle(m1, begin);
    assert m2.conns[c] == Rec(InProgress, Some(RPC), r.cid, r.iid, Some(u)) && m2.fired == m1.fired;
    var m3 := Handle(m2, fin);
    assert m3.fired == m2.fired + [Fired(u, false)];
    assert [fin, begin, fin][1..] == [begin, fin] && [begin, fin][1..] == [fin] && [fin][1..] == [];
    assert HandleAll(m2, [fin]) == m3;
  }

  // ----- As it looks when the notice is queued ----------------------------------------------------

  /** No connection is registered from outside meanwhile. */
  predicate OnlyRequests(steps: seq<Step>) { forall i | 0 <= i < |steps| :: !steps[i].AddConnection? }

  /** Of the steps only the worker's change the tables: they handle what is queued. */
  lemma {:induction false} RunHandles(m: Manager, steps: seq<Step>)
    requires WorksIn(steps) <= |m.queue| && OnlyRequests(steps)
    ensures var after := RunFrom(m, steps);
            SameButQueue(HandleAll(m, m.queue[..WorksIn(steps)]), after, after.queue, after.begun)
  {
    if steps == [] {
      assert m.queue[..0] == [];
    } else {
      var front, s := steps[..|steps| - 1], steps[|steps| - 1];
      var w, before := WorksIn(front), RunFrom(m, front);
      RunHandles(m, front);
      if s.Work? {
        TakesInOrder(m, front);
        assert before.queue[0] == m.queue[w..][0];
        HandleAllNext(m, m.queue, w);
        SameNext(HandleAll(m, m.queue[..w]), before, m.queue[w], before.queue[1..]);
      }
    }
  }

  lemma HandleAllNext(m: Manager, q: seq<Action>, w: nat)
    requires w < |q|
    ensures HandleAll(m, q[..w + 1]) == Handle(HandleAll(m, q[..w]), q[w])
  {
    assert q[..w + 1] == q[..w] + [q[w]];
    HandleAllSplit(m, q[..w], [q[w]]);
    HandleAllOne(HandleAll(m, q[..w]), q[w]);
  }

  lemma SameNext(m: Manager, m': Manager, a: Action, q: seq<Action>)
    requires SameButQueue(m, m', m'.queue, m'.begun)
    ensures SameButQueue(Handle(m, a), Handle(m'.(queue := q), a), q, m'.begun)
  {
    assert m'.(queue := q) == m.(queue := q, begun := m'.begun);
    HandleQueue(m, a, q, m'.begun);
  }

  lemma HandleAllOne(m: Manager, a: Action)
    ensures HandleAll(m, [a]) == Handle(m, a)
  {
    assert [a][1..] == [];
  }

  /** So which request a notice will hit shows when it is queued: whatever clients do then, it
      is the one, if any, that the actions queued before it leave going on. */
  lemma StaleNoticeAhead(m: Manager, c: int, steps: seq<Step>, u: nat)
    requires Consistent(m) && c in m.conns && m.conns[c].action.Some? && TimeoutAction(m.conns[c]).Some?
    requires WorksIn(steps) == |m.queue| && OnlyRequests(steps)
    ensures var after := RunFrom(m.(queue := m.queue + [NoticeFor(m, c)]), steps);
            Hits(after, NoticeFor(m, c), u) <==> Owes(HandleAll(m, m.queue), c, m.conns[c].state, u)
  {
    var notice := NoticeFor(m, c);
    var m' := m.(queue := m.queue + [notice]);
    RunConsistent(m', steps);
    NoticeHits(RunFrom(m', steps), m.conns[c], c, u);
    RunHandles(m', steps);
    assert m'.queue[..|m.queue|] == m.queue;
    HandleAllQueue(m, m.queue, m'.queue);
  }

  lemma {:induction false} HandleAllQueue(m: Manager, todo: seq<Action>, q: seq<Action>)
    ensures HandleAll(m.(queue := q), todo) == HandleAll(m, todo).(queue := q)
    decreases |todo|
  {
    if todo != [] {
      HandleQueue(m, todo[0], q, m.begun);
      HandleKeeps(m, todo[0]);
      HandleAllQueue(Handle(m, todo[0]), todo[1..], q);
    }
  }
}
