/** The connection manager's worker as a state machine.  Clients and timeouts put
    actions on a queue at any time; the worker handles them one by one.  A request's
    callback is named by the number the request got when it was begun. */
module Connections {
  import opened Basics
  import opened Streams

  /** Connections are addressed by their external number or their internal name. */
  datatype Key = Ext(n: int) | Int(s: string)

  datatype State = Disconnected | Connecting | Idle | InProgress | Disconnecting

  /** A connection's record; `action` is the request whose callback it still owes. */
  datatype Rec = Rec(state: State, micro: Option<string>, cid: int, iid: string, action: Option<nat>)

  datatype Action =
    | BeginConnection(cid: int, iid: string, callback: nat)
    | FinishConnection(key: Key, success: bool)
    | ForceDisconnect(key: Key)
    | BeginDisconnection(key: Key, callback: nat)
    | FinishDisconnection(key: Key, success: bool)
    | BeginOperation(key: Key, op: string, callback: nat)
    | FinishOperation(key: Key, success: bool)

  datatype Fired = Fired(callback: nat, success: bool)
  datatype Dropped = Dropped(callback: nat, micro: Option<string>)

  /** Both tables hold the records; queue, callbacks called and callbacks lost so far;
      begun counts the requests. */
  datatype Manager = Manager(
    conns: map<int, Rec>, ints: map<string, Rec>, queue: seq<Action>,
    fired: seq<Fired>, dropped: seq<Dropped>, begun: nat)
  {
    function Find(key: Key): Option<Rec> {
      match key
      case Ext(n) => if n in conns then Some(conns[n]) else None
      case Int(s) => if s in ints then Some(ints[s]) else None
    }

    function StateOf(key: Key): State {
      var r := Find(key);
      if r.None? then Disconnected else r.value.state
    }

    function Put(r: Rec): Manager {
      this.(conns := conns[r.cid := r], ints := ints[r.iid := r])
    }

    function Remove(r: Rec): Manager {
      this.(conns := conns - {r.cid}, ints := ints - {r.iid})
    }

    function Fire(callback: nat, success: bool): Manager {
      this.(fired := fired + [Fired(callback, success)])
    }

    /** Call the callback that the record owes. */
    function FireOwed(r: Rec, success: bool): Manager {
      if r.action.Some? then Fire(r.action.value, success) else this
    }
  }

  const RPC := "rpc"
  const OPEN_INTERFACE := "open_interface"
  const CLOSE_INTERFACE := "close_interface"

  /** The operations whose callback a forced disconnect still calls. */
  predicate Cancelable(micro: Option<string>) {
    micro == Some(RPC) || micro == Some(OPEN_INTERFACE) || micro == Some(CLOSE_INTERFACE)
  }

  function ToIdle(r: Rec): Rec { r.(state := Idle, micro := None, action := None) }

  function Leaving(r: Rec, callback: nat): Rec { r.(state := Disconnecting, micro := None, action := Some(callback)) }

  function Operating(r: Rec, op: string, callback: nat): Rec {
    r.(state := InProgress, micro := Some(op), action := Some(callback))
  }

  /** What the worker does with one action. */
  function Handle(m: Manager, a: Action): Manager {
    match a
    case BeginConnection(cid, iid, callback) => DoBeginConnection(m, cid, iid, callback)
    case FinishConnection(key, success) => DoFinishConnection(m, key, success)
    case ForceDisconnect(key) => DoForceDisconnect(m, key)
    case BeginDisconnection(key, callback) => DoBeginDisconnection(m, key, callback)
    case FinishDisconnection(key, success) => DoFinishDisconnection(m, key, success)
    case BeginOperation(key, op, callback) => DoBeginOperation(m, key, op, callback)
    case FinishOperation(key, success) => DoFinishOperation(m, key, success)
  }

  function DoBeginConnection(m: Manager, cid: int, iid: string, callback: nat): Manager {
    if m.StateOf(Ext(cid)) != Disconnected || m.StateOf(Int(iid)) != Disconnected then m.Fire(callback, false)
    else m.Put(Rec(Connecting, None, cid, iid, Some(callback)))
  }

  function DoFinishConnection(m: Manager, key: Key, success: bool): Manager {
    if m.StateOf(key) != Connecting then m
    else
      var r := m.Find(key).value;
      if success then m.Put(ToIdle(r)).FireOwed(r, true) else m.Remove(r).FireOwed(r, false)
  }

  function DoForceDisconnect(m: Manager, key: Key): Manager {
    if m.StateOf(key) == Disconnected then m
    else
      var r := m.Find(key).value;
      ForceOut(m, r).Remove(r)
  }

  function DoBeginDisconnection(m: Manager, key: Key, callback: nat): Manager {
    if m.StateOf(key) != Idle then m.Fire(callback, false)
    else m.Put(Leaving(m.Find(key).value, callback))
  }

  function DoFinishDisconnection(m: Manager, key: Key, success: bool): Manager {
    if m.StateOf(key) != Disconnecting then m
    else
      var r := m.Find(key).value;
      if success then m.Remove(r).FireOwed(r, true) else m.Put(ToIdle(r)).FireOwed(r, false)
  }

  function DoBeginOperation(m: Manager, key: Key, op: string, callback: nat): Manager {
    if m.StateOf(key) != Idle then m.Fire(callback, false)
    else m.Put(Operating(m.Find(key).value, op, callback))
  }

  function DoFinishOperation(m: Manager, key: Key, success: bool): Manager {
    if m.StateOf(key) != InProgress then m
    else
      var r := m.Find(key).value;
      m.Put(ToIdle(r)).FireOwed(r, success)
  }

  /** What becomes of the owed callback when a connection is forced out. */
  function ForceOut(m: Manager, r: Rec): Manager {
    match r.state
    case Connecting => m.FireOwed(r, false)
    case Disconnecting => m.FireOwed(r, true)
    case InProgress =>
      if Cancelable(r.micro) then m.FireOwed(r, false)
      else if r.action.Some? then m.(dropped := m.dropped + [Dropped(r.action.value, r.micro)])
      else m
    case _ => m
  }

  /** The steps of a run: a client begins a request or reports an end, at any time and
      with any key; the worker takes the oldest action; a connection is registered. */
  datatype Step =
    | Connect(cid: int, iid: string)
    | Disconnect(key: Key)
    | Operate(key: Key, op: string)
    | Report(action: Action)
    | Work
    | AddConnection(cid: int, iid: string)

  predicate IsReport(a: Action) {
    a.FinishConnection? || a.FinishDisconnection? || a.FinishOperation? || a.ForceDisconnect?
  }

  function Begin(m: Manager, a: Action): Manager {
    m.(queue := m.queue + [a], begun := m.begun + 1)
  }

  function Next(m: Manager, s: Step): Manager {
    match s
    case Connect(cid, iid) => Begin(m, BeginConnection(cid, iid, m.begun))
    case Disconnect(key) => Begin(m, BeginDisconnection(key, m.begun))
    case Operate(key, op) => Begin(m, BeginOperation(key, op, m.begun))
    case Report(a) => if IsReport(a) then m.(queue := m.queue + [a]) else m
    case Work => if m.queue == [] then m else Handle(m.(queue := m.queue[1..]), m.queue[0])
    case AddConnection(cid, iid) =>
      if m.StateOf(Ext(cid)) != Disconnected || m.StateOf(Int(iid)) != Disconnected then m
      else m.Put(Rec(Idle, None, cid, iid, None))
  }

  const START := Manager(map[], map[], [], [], [], 0)

  function Run(steps: seq<Step>): Manager {
    if steps == [] then START else Next(Run(steps[..|steps| - 1]), steps[|steps| - 1])
  }

  // ----- The two tables -----------------------------------------------------------

  /** The tables are two indexes of the same records, and a record owes a callback
      exactly when something is going on. */
  ghost predicate Consistent(m: Manager) { Agreeing(m.conns, m.ints) }

  ghost predicate Agreeing(conns: map<int, Rec>, ints: map<string, Rec>) {
    && (forall c | c in conns :: conns[c].cid == c && conns[c].iid in ints && ints[conns[c].iid] == conns[c])
    && (forall s | s in ints :: ints[s].iid == s && ints[s].cid in conns && conns[ints[s].cid] == ints[s])
    && (forall c | c in conns :: Sound(conns[c]))
  }

  predicate Sound(r: Rec) {
    && r.state != Disconnected
    && (r.action.Some? <==> r.state != Idle)
    && (r.micro.Some? <==> r.state == InProgress)
  }

  lemma FoundIsInTables(m: Manager, key: Key)
    requires Consistent(m) && m.Find(key).Some?
    ensures var r := m.Find(key).value;
            && r.cid in m.conns && m.conns[r.cid] == r && r.iid in m.ints && m.ints[r.iid] == r
            && Sound(r) && m.StateOf(key) == r.state != Disconnected
  {
  }

  lemma PutConsistent(m: Manager, r: Rec)
    requires Consistent(m) && Sound(r)
    requires if r.cid in m.conns then m.conns[r.cid].iid == r.iid else r.iid !in m.ints
    ensures Consistent(m.Put(r))
  {
  }

  lemma RemoveConsistent(m: Manager, r: Rec)
    requires Consistent(m) && r.cid in m.conns && m.conns[r.cid] == r
    ensures Consistent(m.Remove(r))
  {
  }

  /** What the worker finds under the key of an action. */
  predicate Finds(m: Manager, key: Key, r: Rec) {
    m.Find(key) == Some(r) && r.cid in m.conns && m.conns[r.cid] == r && Sound(r)
  }

  lemma HandleConsistent(m: Manager, a: Action)
    requires Consistent(m)
    ensures Consistent(Handle(m, a))
  {
    if a.BeginConnection? {
      if m.StateOf(Ext(a.cid)) == Disconnected && m.StateOf(Int(a.iid)) == Disconnected {
        NotFound(m, Ext(a.cid));
        NotFound(m, Int(a.iid));
        PutConsistent(m, Rec(Connecting, None, a.cid, a.iid, Some(a.callback)));
      }
    } else if m.Find(a.key).Some? {
      FoundIsInTables(m, a.key);
      HandleFoundConsistent(m, a, m.Find(a.key).value);
    }
  }

  lemma HandleFoundConsistent(m: Manager, a: Action, r: Rec)
    requires Consistent(m) && !a.BeginConnection? && Finds(m, a.key, r)
    ensures Consistent(Handle(m, a))
  {
    match a
    case FinishConnection(_, success) => if success { PutConsistent(m, ToIdle(r)); } else { RemoveConsistent(m, r); }
    case ForceDisconnect(_) => RemoveConsistent(ForceOut(m, r), r);
    case BeginDisconnection(_, callback) => PutConsistent(m, Leaving(r, callback));
    case FinishDisconnection(_, success) => if success { RemoveConsistent(m, r); } else { PutConsistent(m, ToIdle(r)); }
    case BeginOperation(_, op, callback) => PutConsistent(m, Operating(r, op, callback));
    case FinishOperation(_, _) => PutConsistent(m, ToIdle(r));
  }

  lemma NotFound(m: Manager, key: Key)
    requires Consistent(m) && m.StateOf(key) == Disconnected
    ensures m.Find(key).None?
  {
    if m.Find(key).Some? { FoundIsInTables(m, key); }
  }

  lemma NextConsistent(m: Manager, s: Step)
    requires Consistent(m)
    ensures Consistent(Next(m, s))
  {
    match s
    case Work =>
      if m.queue != [] { HandleConsistent(m.(queue := m.queue[1..]), m.queue[0]); }
    case AddConnection(cid, iid) =>
      if m.StateOf(Ext(cid)) == Disconnected && m.StateOf(Int(iid)) == Disconnected {
        NotFound(m, Ext(cid));
        NotFound(m, Int(iid));
        PutConsistent(m, Rec(Idle, None, cid, iid, None));
      }
    case _ =>
  }

  /** In every reachable state the two tables are a bijection onto the same records, and
      a record owes a callback exactly when it is connecting, in progress or
      disconnecting. */
  lemma {:induction false} AlwaysConsistent(steps: seq<Step>)
    ensures Consistent(Run(steps))
  {
    if steps != [] {
      AlwaysConsistent(steps[..|steps| - 1]);
      NextConsistent(Run(steps[..|steps| - 1]), steps[|steps| - 1]);
    }
  }

  // ----- How states change ------------------------------------------------------------

  /** The documented moves, with the extra ones a forced disconnect, a failed disconnect
      and a registration make. */
  predicate Allowed(a: Action, s: State, s': State) {
    || s == s'
    || (a.BeginConnection? && s == Disconnected && s' == Connecting)
    || (a.FinishConnection? && s == Connecting && s' == if a.success then Idle else Disconnected)
    || (a.BeginOperation? && s == Idle && s' == InProgress)
    || (a.FinishOperation? && s == InProgress && s' == Idle)
    || (a.BeginDisconnection? && s == Idle && s' == Disconnecting)
    || (a.FinishDisconnection? && s == Disconnecting && s' == if a.success then Disconnected else Idle)
    || (a.ForceDisconnect? && s' == Disconnected)
  }

  /** The action is about connection c. */
  predicate Concerns(m: Manager, a: Action, c: int) {
    if a.BeginConnection? then a.cid == c
    else m.Find(a.key).Some? && m.Find(a.key).value.cid == c
  }

  /** Handling an action moves the connection it is about along the documented path and
      leaves every other connection's record as it is. */
  lemma MovesAlongPath(m: Manager, a: Action, c: int)
    requires Consistent(m)
    ensures Allowed(a, m.StateOf(Ext(c)), Handle(m, a).StateOf(Ext(c)))
    ensures !Concerns(m, a, c) ==> Handle(m, a).Find(Ext(c)) == m.Find(Ext(c))
  {
    if !a.BeginConnection? && m.Find(a.key).Some? { FoundIsInTables(m, a.key); }
  }

  // ----- Callbacks ------------------------------------------------------------------------

  function CallbackOf(a: Action): Option<nat> {
    if IsReport(a) then None else Some(a.callback)
  }

  function InQueue(q: seq<Action>, t: nat): nat {
    if q == [] then 0 else Bit(CallbackOf(q[0]) == Some(t)) + InQueue(q[1..], t)
  }

  /** The connections whose record owes callback t. */
  function Owing(m: Manager, t: nat): set<int> {
    set c | c in m.conns && m.conns[c].action == Some(t)
  }

  function TimesFired(f: seq<Fired>, t: nat): nat {
    if f == [] then 0 else TimesFired(f[..|f| - 1], t) + Bit(f[|f| - 1].callback == t)
  }

  function TimesDropped(d: seq<Dropped>, t: nat): nat {
    if d == [] then 0 else TimesDropped(d[..|d| - 1], t) + Bit(d[|d| - 1].callback == t)
  }

  /** In how many places callback t is: waiting in the queue, owed by a record, called,
      or lost. */
  function Places(m: Manager, t: nat): nat {
    InQueue(m.queue, t) + |Owing(m, t)| + TimesFired(m.fired, t) + TimesDropped(m.dropped, t)
  }

  lemma {:induction false} InQueueAppend(q: seq<Action>, a: Action, t: nat)
    ensures InQueue(q + [a], t) == InQueue(q, t) + Bit(CallbackOf(a) == Some(t))
  {
    if q != [] {
      InQueueAppend(q[1..], a, t);
      assert (q + [a])[1..] == q[1..] + [a];
    }
  }

  lemma FiredOnceMore(m: Manager, t: nat, callback: nat, success: bool)
    ensures Places(m.Fire(callback, success), t) == Places(m, t) + Bit(callback == t)
  {
    assert (m.fired + [Fired(callback, success)])[..|m.fired|] == m.fired;
    assert Owing(m.Fire(callback, success), t) == Owing(m, t);
  }

  lemma DroppedOnceMore(m: Manager, t: nat, callback: nat, micro: Option<string>)
    ensures Places(m.(dropped := m.dropped + [Dropped(callback, micro)]), t) == Places(m, t) + Bit(callback == t)
  {
    assert (m.dropped + [Dropped(callback, micro)])[..|m.dropped|] == m.dropped;
    assert Owing(m.(dropped := m.dropped + [Dropped(callback, micro)]), t) == Owing(m, t);
  }

  lemma OwingPut(m: Manager, r: Rec, t: nat)
    ensures var rest := Owing(m, t) - {r.cid};
            && Owing(m.Put(r), t) == (if r.action == Some(t) then rest + {r.cid} else rest)
            && |rest| + Bit(r.cid in m.conns && m.conns[r.cid].action == Some(t)) == |Owing(m, t)|
  {
    var rest := Owing(m, t) - {r.cid};
    if r.cid in Owing(m, t) { assert Owing(m, t) == rest + {r.cid}; } else { assert Owing(m, t) == rest; }
  }

  /** What a stored record changes: the callback it owed before is gone, its own is there. */
  lemma PutPlaces(m: Manager, r: Rec, t: nat)
    ensures Places(m.Put(r), t) + Bit(r.cid in m.conns && m.conns[r.cid].action == Some(t)) ==
            Places(m, t) + Bit(r.action == Some(t))
  {
    OwingPut(m, r, t);
  }

  lemma RemovePlaces(m: Manager, r: Rec, t: nat)
    requires r.cid in m.conns && m.conns[r.cid] == r
    ensures Places(m.Remove(r), t) + Bit(r.action == Some(t)) == Places(m, t)
  {
    assert Owing(m.Remove(r), t) == Owing(m, t) - {r.cid};
  }

  lemma OwedPlaces(m: Manager, r: Rec, success: bool, t: nat)
    ensures Places(m.FireOwed(r, success), t) == Places(m, t) + Bit(r.action == Some(t))
  {
    if r.action.Some? { FiredOnceMore(m, t, r.action.value, success); }
  }

  /** Handling an action moves its own callback and at most one owed one; none appears
      twice and none disappears. */
  lemma HandleConserves(m: Manager, a: Action, t: nat)
    requires Consistent(m)
    ensures Places(Handle(m, a), t) == Places(m, t) + Bit(CallbackOf(a) == Some(t))
  {
    if CallbackOf(a).Some? { FiredOnceMore(m, t, a.callback, false); }
    if a.BeginConnection? {
      if m.StateOf(Ext(a.cid)) == Disconnected { NotFound(m, Ext(a.cid)); }
      PutPlaces(m, Rec(Connecting, None, a.cid, a.iid, Some(a.callback)), t);
    } else if m.Find(a.key).Some? {
      FoundIsInTables(m, a.key);
      HandleFoundConserves(m, a, m.Find(a.key).value, t);
    }
  }

  lemma HandleFoundConserves(m: Manager, a: Action, r: Rec, t: nat)
    requires !a.BeginConnection? && Finds(m, a.key, r)
    ensures Places(Handle(m, a), t) == Places(m, t) + Bit(CallbackOf(a) == Some(t))
  {
    match a
    case FinishConnection(key, success) => FinishConnectionConserves(m, key, success, r, t);
    case ForceDisconnect(_) =>
      ForceOutPlaces(m, r, t);
      RemovePlaces(ForceOut(m, r), r, t);
    case BeginDisconnection(key, callback) => BeginDisconnectionConserves(m, key, callback, r, t);
    case FinishDisconnection(key, success) => FinishDisconnectionConserves(m, key, success, r, t);
    case BeginOperation(key, op, callback) => BeginOperationConserves(m, key, op, callback, r, t);
    case FinishOperation(_, success) => SettledConserves(m, r, success, t);
  }

  lemma BeginDisconnectionConserves(m: Manager, key: Key, callback: nat, r: Rec, t: nat)
    requires Finds(m, key, r)
    ensures Places(DoBeginDisconnection(m, key, callback), t) == Places(m, t) + Bit(callback == t)
  {
    if r.state == Idle { PutPlaces(m, Leaving(r, callback), t); } else { FiredOnceMore(m, t, callback, false); }
  }

  lemma BeginOperationConserves(m: Manager, key: Key, op: string, callback: nat, r: Rec, t: nat)
    requires Finds(m, key, r)
    ensures Places(DoBeginOperation(m, key, op, callback), t) == Places(m, t) + Bit(callback == t)
  {
    if r.state == Idle { PutPlaces(m, Operating(r, op, callback), t); } else { FiredOnceMore(m, t, callback, false); }
  }

  lemma SettledConserves(m: Manager, r: Rec, success: bool, t: nat)
    requires r.cid in m.conns && m.conns[r.cid] == r
    ensures Places(m.Put(ToIdle(r)).FireOwed(r, success), t) == Places(m, t)
    ensures Places(m.Remove(r).FireOwed(r, success), t) == Places(m, t)
  {
    PutPlaces(m, ToIdle(r), t);
    OwedPlaces(m.Put(ToIdle(r)), r, success, t);
    RemovePlaces(m, r, t);
    OwedPlaces(m.Remove(r), r, success, t);
  }

  lemma FinishConnectionConserves(m: Manager, key: Key, success: bool, r: Rec, t: nat)
    requires Finds(m, key, r)
    ensures Places(DoFinishConnection(m, key, success), t) == Places(m, t)
  {
    SettledConserves(m, r, success, t);
  }

  lemma FinishDisconnectionConserves(m: Manager, key: Key, success: bool, r: Rec, t: nat)
    requires Finds(m, key, r)
    ensures Places(DoFinishDisconnection(m, key, success), t) == Places(m, t)
  {
    SettledConserves(m, r, success, t);
  }

  lemma ForceOutPlaces(m: Manager, r: Rec, t: nat)
    requires Sound(r)
    ensures Places(ForceOut(m, r), t) == Places(m, t) + Bit(r.action == Some(t))
  {
    OwedPlaces(m, r, false, t);
    OwedPlaces(m, r, true, t);
    if r.action.Some? { DroppedOnceMore(m, t, r.action.value, r.micro); }
  }

  lemma BeginConserves(m: Manager, a: Action, t: nat)
    ensures Places(Begin(m, a), t) == Places(m, t) + Bit(CallbackOf(a) == Some(t))
  {
    InQueueAppend(m.queue, a, t);
    assert Owing(Begin(m, a), t) == Owing(m, t);
  }

  lemma WorkConserves(m: Manager, t: nat)
    requires Consistent(m)
    ensures Places(Next(m, Work), t) == Places(m, t) && Next(m, Work).begun == m.begun
  {
    if m.queue != [] {
      var m' := m.(queue := m.queue[1..]);
      assert Owing(m', t) == Owing(m, t);
      HandleConserves(m', m.queue[0], t);
      HandleKeeps(m', m.queue[0]);
    }
  }

  lemma NextConserves(m: Manager, s: Step, t: nat)
    requires Consistent(m)
    ensures Places(Next(m, s), t) == Places(m, t) + Bit(Next(m, s).begun > m.begun && t == m.begun)
  {
    match s
    case Work => WorkConserves(m, t);
    case AddConnection(cid, iid) =>
      if m.StateOf(Ext(cid)) == Disconnected { NotFound(m, Ext(cid)); }
      PutPlaces(m, Rec(Idle, None, cid, iid, None), t);
    case Report(a) =>
      BeginConserves(m, a, t);
      assert Owing(Next(m, s), t) == Owing(m, t);
    case Connect(cid, iid) => BeginConserves(m, BeginConnection(cid, iid, m.begun), t);
    case Disconnect(key) => BeginConserves(m, BeginDisconnection(key, m.begun), t);
    case Operate(key, op) => BeginConserves(m, BeginOperation(key, op, m.begun), t);
  }

  /** At any moment of any run, the callback of every request begun so far is in exactly
      one place: still queued with its request, owed by exactly one record, called, or
      lost.  In particular none is ever called twice. */
  lemma {:induction false} EachCallbackInOnePlace(steps: seq<Step>, t: nat)
    ensures Places(Run(steps), t) == Bit(t < Run(steps).begun)
    ensures TimesFired(Run(steps).fired, t) <= 1
  {
    if steps != [] {
      EachCallbackInOnePlace(steps[..|steps| - 1], t);
      AlwaysConsistent(steps[..|steps| - 1]);
      NextConserves(Run(steps[..|steps| - 1]), steps[|steps| - 1], t);
      NextBegun(Run(steps[..|steps| - 1]), steps[|steps| - 1]);
    } else {
      assert Owing(START, t) == {};
    }
  }

  lemma HandleKeeps(m: Manager, a: Action)
    ensures Handle(m, a).begun == m.begun && Handle(m, a).queue == m.queue
    ensures m.fired <= Handle(m, a).fired && m.dropped <= Handle(m, a).dropped
  {
    match a
    case ForceDisconnect(_) =>
    case _ =>
  }

  lemma NextBegun(m: Manager, s: Step)
    ensures m.begun <= Next(m, s).begun <= m.begun + 1
    ensures m.fired <= Next(m, s).fired && m.dropped <= Next(m, s).dropped
  {
    if s.Work? && m.queue != [] { HandleKeeps(m.(queue := m.queue[1..]), m.queue[0]); }
  }

  /** A callback is lost in exactly one way: its operation is in progress under a name
      that is not one of the cancelable ones, and the connection is forced out. */
  lemma LostExactlyWhen(m: Manager, a: Action)
    requires Consistent(m)
    ensures |Handle(m, a).dropped| > |m.dropped| <==>
            a.ForceDisconnect? && m.StateOf(a.key) == InProgress && !Cancelable(m.Find(a.key).value.micro)
    ensures |Handle(m, a).dropped| > |m.dropped| ==>
            Handle(m, a).dropped == m.dropped + [Dropped(m.Find(a.key).value.action.value, m.Find(a.key).value.micro)]
  {
    if !a.BeginConnection? && m.Find(a.key).Some? { FoundIsInTables(m, a.key); }
  }

  lemma {:induction false} OnlyUncancelableLost(steps: seq<Step>, i: nat)
    requires i < |Run(steps).dropped|
    ensures !Cancelable(Run(steps).dropped[i].micro)
  {
    if steps != [] {
      var m, s := Run(steps[..|steps| - 1]), steps[|steps| - 1];
      NextBegun(m, s);
      AlwaysConsistent(steps[..|steps| - 1]);
      if i < |m.dropped| {
        OnlyUncancelableLost(steps[..|steps| - 1], i);
      } else if s.Work? && m.queue != [] {
        LostExactlyWhen(m.(queue := m.queue[1..]), m.queue[0]);
      }
    }
  }

  /** What a callback is told is true: a connection attempt is reported as successful
      exactly when the connection stays, a disconnection exactly when it is gone, and an
      operation exactly when it was finished with success. */
  lemma ReportsAreTrue(m: Manager, a: Action, c: int)
    requires Consistent(m) && c in m.conns && m.conns[c].action.Some?
    requires |Handle(m, a).fired| > |m.fired| && Handle(m, a).fired[|m.fired|].callback == m.conns[c].action.value
    requires CallbackOf(a) != m.conns[c].action
    requires forall d | d in m.conns && m.conns[d].action == m.conns[c].action :: d == c
    ensures var told := Handle(m, a).fired[|m.fired|].success;
            && (m.conns[c].state == Connecting ==> (told <==> c in Handle(m, a).conns))
            && (m.conns[c].state == Disconnecting ==> (told <==> c !in Handle(m, a).conns))
            && (m.conns[c].state == InProgress ==> (told <==> a.FinishOperation? && a.success))
            && (c in Handle(m, a).conns ==> Handle(m, a).conns[c].state == Idle)
  {
    if !a.BeginConnection? && m.Find(a.key).Some? { FoundIsInTables(m, a.key); }
  }

  // ----- Which request a callback belongs to ----------------------------------------------------

  /** The requests begun in a run; their positions name their callbacks. */
  function Requests(steps: seq<Step>): seq<Step> {
    if steps == [] then []
    else
      var s := steps[|steps| - 1];
      Requests(steps[..|steps| - 1]) + if s.Connect? || s.Disconnect? || s.Operate? then [s] else []
  }

  /** A queued action stands for the request whose callback it carries. */
  predicate StandsFor(a: Action, reqs: seq<Step>) {
    match a
    case BeginConnection(cid, iid, t) => t < |reqs| && reqs[t] == Connect(cid, iid)
    case BeginDisconnection(key, t) => t < |reqs| && reqs[t] == Disconnect(key)
    case BeginOperation(key, op, t) => t < |reqs| && reqs[t] == Operate(key, op)
    case _ => true
  }

  /** The callback was given with an operation of this name. */
  predicate AskedAs(t: nat, micro: Option<string>, reqs: seq<Step>) {
    t < |reqs| && reqs[t].Operate? && micro == Some(reqs[t].op)
  }

  /** What is going on is what the request asked for whose callback the record owes. */
  predicate Explains(r: Rec, reqs: seq<Step>) {
    r.action.Some? ==>
      && (r.state == Connecting ==> r.action.value < |reqs| && reqs[r.action.value] == Connect(r.cid, r.iid))
      && (r.state == Disconnecting ==>
            r.action.value < |reqs| && reqs[r.action.value].Disconnect? && Names(reqs[r.action.value].key, r))
      && (r.state == InProgress ==> AskedAs(r.action.value, r.micro, reqs) && Names(reqs[r.action.value].key, r))
  }

  /** The key is one of the two under which the connection is stored. */
  predicate Names(key: Key, r: Rec) { key == Ext(r.cid) || key == Int(r.iid) }

  ghost predicate Explained(m: Manager, reqs: seq<Step>) {
    && m.begun == |reqs|
    && QueueExplained(m.queue, reqs)
    && RecordsExplained(m.conns, reqs)
    && LossesExplained(m.dropped, reqs)
  }

  ghost predicate QueueExplained(queue: seq<Action>, reqs: seq<Step>) {
    forall i | 0 <= i < |queue| :: StandsFor(queue[i], reqs)
  }

  ghost predicate RecordsExplained(conns: map<int, Rec>, reqs: seq<Step>) {
    forall c | c in conns :: Explains(conns[c], reqs)
  }

  ghost predicate LossesExplained(dropped: seq<Dropped>, reqs: seq<Step>) {
    forall i | 0 <= i < |dropped| :: AskedAs(dropped[i].callback, dropped[i].micro, reqs)
  }

  lemma ChangeExplained(conns: map<int, Rec>, r: Rec, reqs: seq<Step>)
    requires RecordsExplained(conns, reqs)
    ensures Explains(r, reqs) ==> RecordsExplained(conns[r.cid := r], reqs)
    ensures RecordsExplained(conns - {r.cid}, reqs)
  {
  }

  lemma LossExplained(m: Manager, r: Rec, reqs: seq<Step>)
    requires Sound(r) && Explains(r, reqs) && LossesExplained(m.dropped, reqs)
    ensures LossesExplained(ForceOut(m, r).dropped, reqs)
  {
  }

  lemma HandleExplained(m: Manager, a: Action, reqs: seq<Step>)
    requires Consistent(m) && Explained(m, reqs) && StandsFor(a, reqs)
    ensures Explained(Handle(m, a), reqs)
  {
    HandleKeeps(m, a);
    if a.BeginConnection? {
      ChangeExplained(m.conns, Rec(Connecting, None, a.cid, a.iid, Some(a.callback)), reqs);
    } else if m.Find(a.key).Some? {
      FoundIsInTables(m, a.key);
      HandleFoundExplained(m, a, m.Find(a.key).value, reqs);
    }
  }

  lemma HandleFoundExplained(m: Manager, a: Action, r: Rec, reqs: seq<Step>)
    requires Consistent(m) && !a.BeginConnection? && Finds(m, a.key, r)
    requires RecordsExplained(m.conns, reqs) && LossesExplained(m.dropped, reqs) && StandsFor(a, reqs)
    ensures RecordsExplained(Handle(m, a).conns, reqs) && LossesExplained(Handle(m, a).dropped, reqs)
  {
    ChangeExplained(m.conns, ToIdle(r), reqs);
    match a
    case ForceDisconnect(_) => LossExplained(m, r, reqs);
    case BeginDisconnection(_, callback) => ChangeExplained(m.conns, Leaving(r, callback), reqs);
    case BeginOperation(_, op, callback) => ChangeExplained(m.conns, Operating(r, op, callback), reqs);
    case _ =>
  }

  lemma MoreRequests(m: Manager, reqs: seq<Step>, s: Step)
    requires Explained(m, reqs)
    ensures Explained(m.(begun := m.begun + 1), reqs + [s])
  {
    forall i | 0 <= i < |m.queue| ensures StandsFor(m.queue[i], reqs + [s]) { assert StandsFor(m.queue[i], reqs); }
    forall c | c in m.conns ensures Explains(m.conns[c], reqs + [s]) { assert Explains(m.conns[c], reqs); }
    forall i | 0 <= i < |m.dropped| ensures AskedAs(m.dropped[i].callback, m.dropped[i].micro, reqs + [s]) {
      assert AskedAs(m.dropped[i].callback, m.dropped[i].micro, reqs);
    }
  }

  lemma NextExplained(m: Manager, s: Step, reqs: seq<Step>)
    requires Consistent(m) && Explained(m, reqs)
    ensures Explained(Next(m, s), if s.Connect? || s.Disconnect? || s.Operate? then reqs + [s] else reqs)
  {
    match s
    case Work => if m.queue != [] { HandleExplained(m.(queue := m.queue[1..]), m.queue[0], reqs); }
    case AddConnection(cid, iid) => ChangeExplained(m.conns, Rec(Idle, None, cid, iid, None), reqs);
    case Report(_) =>
    case _ => MoreRequests(m, reqs, s);
  }

  /** In any run every record, every queued request and every lost callback belongs to the
      request that was begun with it: for this connection, or under this name. */
  lemma {:induction false} CallbacksBelong(steps: seq<Step>)
    ensures Explained(Run(steps), Requests(steps))
  {
    if steps != [] {
      CallbacksBelong(steps[..|steps| - 1]);
      AlwaysConsistent(steps[..|steps| - 1]);
      NextExplained(Run(steps[..|steps| - 1]), steps[|steps| - 1], Requests(steps[..|steps| - 1]));
    }
  }

  /** So a lost callback was that of an operation begun under an uncancelable name. */
  lemma LostRequests(steps: seq<Step>, i: nat)
    requires i < |Run(steps).dropped|
    ensures var t := Run(steps).dropped[i].callback;
            t < |Requests(steps)| && Requests(steps)[t].Operate? && !Cancelable(Some(Requests(steps)[t].op))
  {
    CallbacksBelong(steps);
    OnlyUncancelableLost(steps, i);
    assert AskedAs(Run(steps).dropped[i].callback, Run(steps).dropped[i].micro, Requests(steps));
  }
}
