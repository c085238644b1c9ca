/** What becomes of a connection and of the callbacks when the worker handles an action, for every
    action and every state in which it can find the connection. */
module ConnectionOutcomes {
  import opened Basics
  import opened Streams
  import opened Connections
  import opened Timeouts

  /** The connection is stored under both its names, and the key is one of them. */
  predicate At(m: Manager, key: Key, r: Rec) { Names(key, r) && r.cid in m.conns && m.conns[r.cid] == r }

  /** The key names no connection. */
  predicate Nowhere(m: Manager, key: Key) {
    match key
    case Ext(n) => n !in m.conns
    case Int(s) => s !in m.ints
  }

  /** Both tables are the same but for this record. */
  predicate Stores(m: Manager, m': Manager, r: Rec) {
    m'.conns == m.conns[r.cid := r] && m'.ints == m.ints[r.iid := r]
  }

  /** Both tables are the same but without this record. */
  predicate Drops(m: Manager, m': Manager, r: Rec) {
    m'.conns == m.conns - {r.cid} && m'.ints == m.ints - {r.iid}
  }

  predicate SameTables(m: Manager, m': Manager) { m'.conns == m.conns && m'.ints == m.ints }

  /** These callbacks are called and these are lost, and nothing else happens but in the tables. */
  predicate Tells(m: Manager, m': Manager, told: seq<Fired>, lost: seq<Dropped>) {
    && m'.fired == m.fired + told && m'.dropped == m.dropped + lost
    && m'.queue == m.queue && m'.begun == m.begun
  }

  lemma FoundAt(m: Manager, key: Key, r: Rec)
    requires Consistent(m) && At(m, key, r)
    ensures m.Find(key) == Some(r) && Sound(r)
  {
  }

  lemma FoundNowhere(m: Manager, key: Key)
    ensures m.Find(key).None? <==> Nowhere(m, key)
  {
  }

  // ----- Finishes ------------------------------------------------------------------------------

  /** A connection that is being opened, when that is reported as finished. */
  lemma FinishedConnection(m: Manager, key: Key, success: bool, r: Rec, t: nat)
    requires Consistent(m) && At(m, key, r) && r.state == Connecting && r.action == Some(t)
    ensures var m' := Handle(m, FinishConnection(key, success));
            && Tells(m, m', [Fired(t, success)], [])
            && if success then Stores(m, m', Rec(Idle, None, r.cid, r.iid, None)) else Drops(m, m', r)
  {
    FoundAt(m, key, r);
  }

  /** A connection that is being closed, when that is reported as finished: a failure leaves it open. */
  lemma FinishedDisconnection(m: Manager, key: Key, success: bool, r: Rec, t: nat)
    requires Consistent(m) && At(m, key, r) && r.state == Disconnecting && r.action == Some(t)
    ensures var m' := Handle(m, FinishDisconnection(key, success));
            && Tells(m, m', [Fired(t, success)], [])
            && if success then Drops(m, m', r) else Stores(m, m', Rec(Idle, None, r.cid, r.iid, None))
  {
    FoundAt(m, key, r);
  }

  /** A connection with an operation in progress, when that is reported as finished. */
  lemma FinishedOperation(m: Manager, key: Key, success: bool, r: Rec, t: nat)
    requires Consistent(m) && At(m, key, r) && r.state == InProgress && r.action == Some(t)
    ensures var m' := Handle(m, FinishOperation(key, success));
            && Tells(m, m', [Fired(t, success)], [])
            && Stores(m, m', Rec(Idle, None, r.cid, r.iid, None))
  {
    FoundAt(m, key, r);
  }

  /** The report says that something ended that was not going on. */
  predicate Untimely(a: Action, s: State) {
    || (a.FinishConnection? && s != Connecting)
    || (a.FinishDisconnection? && s != Disconnecting)
    || (a.FinishOperation? && s != InProgress)
  }

  lemma UntimelyFinish(m: Manager, a: Action, r: Rec)
    requires Consistent(m) && IsReport(a) && At(m, a.key, r) && Untimely(a, r.state)
    ensures Handle(m, a) == m
  {
    FoundAt(m, a.key, r);
  }

  lemma UnknownReported(m: Manager, a: Action)
    requires IsReport(a) && Nowhere(m, a.key)
    ensures Handle(m, a) == m
  {
    FoundNowhere(m, a.key);
  }

  // ----- Forced disconnections --------------------------------------------------------------------

  /** A forced out connection is gone from both tables.  The callback it owes fails while it is
      being opened and for these three operations, and succeeds while it is being closed; for other
      operations it is lost; an idle one owes none. */
  lemma ForcedOut(m: Manager, key: Key, r: Rec)
    requires Consistent(m) && At(m, key, r)
    ensures var m' := Handle(m, ForceDisconnect(key));
            && Drops(m, m', r)
            && match r.state
               case Connecting => r.action.Some? && Tells(m, m', [Fired(r.action.value, false)], [])
               case Disconnecting => r.action.Some? && Tells(m, m', [Fired(r.action.value, true)], [])
               case InProgress =>
                 && r.action.Some?
                 && if r.micro in {Some("rpc"), Some("open_interface"), Some("close_interface")}
                    then Tells(m, m', [Fired(r.action.value, false)], [])
                    else Tells(m, m', [], [Dropped(r.action.value, r.micro)])
               case Idle => Tells(m, m', [], [])
               case Disconnected => false
  {
    FoundAt(m, key, r);
    assert m.fired + [] == m.fired && m.dropped + [] == m.dropped;
  }

  // ----- Requests --------------------------------------------------------------------------------

  /** A connection is opened when both of its names are free, and refused otherwise. */
  lemma BegunConnection(m: Manager, cid: int, iid: string, t: nat)
    requires Consistent(m)
    ensures var m' := Handle(m, BeginConnection(cid, iid, t));
            if cid !in m.conns && iid !in m.ints
            then Tells(m, m', [], []) && Stores(m, m', Rec(Connecting, None, cid, iid, Some(t)))
            else Tells(m, m', [Fired(t, false)], []) && SameTables(m, m')
  {
    if cid in m.conns { FoundIsInTables(m, Ext(cid)); }
    if iid in m.ints { FoundIsInTables(m, Int(iid)); }
    assert m.fired + [] == m.fired && m.dropped + [] == m.dropped;
  }

  lemma BegunDisconnection(m: Manager, key: Key, r: Rec, t: nat)
    requires Consistent(m) && At(m, key, r)
    ensures var m' := Handle(m, BeginDisconnection(key, t));
            if r.state == Idle
            then Tells(m, m', [], []) && Stores(m, m', Rec(Disconnecting, None, r.cid, r.iid, Some(t)))
            else Tells(m, m', [Fired(t, false)], []) && SameTables(m, m')
  {
    FoundAt(m, key, r);
    assert m.fired + [] == m.fired && m.dropped + [] == m.dropped;
  }

  lemma BegunOperation(m: Manager, key: Key, op: string, r: Rec, t: nat)
    requires Consistent(m) && At(m, key, r)
    ensures var m' := Handle(m, BeginOperation(key, op, t));
            if r.state == Idle
            then Tells(m, m', [], []) && Stores(m, m', Rec(InProgress, Some(op), r.cid, r.iid, Some(t)))
            else Tells(m, m', [Fired(t, false)], []) && SameTables(m, m')
  {
    FoundAt(m, key, r);
    assert m.fired + [] == m.fired && m.dropped + [] == m.dropped;
  }

  /** A request about a connection that is not there is refused. */
  lemma UnknownRefused(m: Manager, a: Action)
    requires (a.BeginDisconnection? || a.BeginOperation?) && Nowhere(m, a.key)
    ensures Tells(m, Handle(m, a), [Fired(a.callback, false)], []) && SameTables(m, Handle(m, a))
  {
    FoundNowhere(m, a.key);
    assert m.dropped + [] == m.dropped;
  }

  // ----- Steps ---------------------------------------------------------------------------------

  /** A connection is registered as idle when both of its names are free. */
  lemma Registered(m: Manager, cid: int, iid: string)
    requires Consistent(m)
    ensures var m' := Next(m, AddConnection(cid, iid));
            if cid !in m.conns && iid !in m.ints
            then Tells(m, m', [], []) && Stores(m, m', Rec(Idle, None, cid, iid, None)) else m' == m
  {
    if cid in m.conns { FoundIsInTables(m, Ext(cid)); }
    if iid in m.ints { FoundIsInTables(m, Int(iid)); }
    assert m.fired + [] == m.fired && m.dropped + [] == m.dropped;
  }

  /** Nothing but the queue and the number of requests. */
  predicate Queues(m: Manager, m': Manager, a: Action, n: nat) {
    && SameTables(m, m') && m'.fired == m.fired && m'.dropped == m.dropped
    && m'.queue == m.queue + [a] && m'.begun == m.begun + n
  }

  /** What clients do goes to the end of the queue; a request gets the next number. */
  lemma Queued(m: Manager, key: Key, cid: int, iid: string, op: string, a: Action)
    ensures Queues(m, Next(m, Connect(cid, iid)), BeginConnection(cid, iid, m.begun), 1)
    ensures Queues(m, Next(m, Disconnect(key)), BeginDisconnection(key, m.begun), 1)
    ensures Queues(m, Next(m, Operate(key, op)), BeginOperation(key, op, m.begun), 1)
    ensures IsReport(a) ==> Queues(m, Next(m, Report(a)), a, 0)
  {
  }

  /** The worker takes the oldest action. */
  lemma OldestFirst(m: Manager, a: Action, rest: seq<Action>)
    requires m.queue == [a] + rest
    ensures Next(m, Work) == Handle(m.(queue := rest), a)
  {
    assert m.queue[1..] == rest;
  }

  // ----- In runs -----------------------------------------------------------------------------------

  /** The report says that what is going on with this connection has ended. */
  predicate Ends(a: Action, r: Rec) {
    match r.state
    case Connecting => a.FinishConnection? && Names(a.key, r)
    case Disconnecting => a.FinishDisconnection? && Names(a.key, r)
    case InProgress => a.FinishOperation? && Names(a.key, r)
    case _ => false
  }

  lemma EndsTold(m: Manager, a: Action, r: Rec, t: nat)
    requires Consistent(m) && Ends(a, r) && At(m, a.key, r) && r.action == Some(t)
    ensures Handle(m, a).fired == m.fired + [Fired(t, a.success)]
  {
    match r.state
    case Connecting => FinishedConnection(m, a.key, a.success, r, t);
    case Disconnecting => FinishedDisconnection(m, a.key, a.success, r, t);
    case InProgress => FinishedOperation(m, a.key, a.success, r, t);
    case _ =>
  }

  lemma {:induction false} FiredSome(f: seq<Fired>, k: nat)
    requires k < |f|
    ensures TimesFired(f, f[k].callback) > 0
  {
    if k < |f| - 1 { FiredSome(f[..|f| - 1], k); }
  }

  /** In any run, when the worker comes to a report that ends what a connection owes a callback for,
      that callback is called, for the first and only time, and is told what the report says. */
  lemma AnsweredOnce(steps: seq<Step>, r: Rec, t: nat)
    requires var m := Run(steps);
             && m.queue != [] && Ends(m.queue[0], r) && At(m, m.queue[0].key, r) && r.action == Some(t)
    ensures var m, m' := Run(steps), Run(steps + [Work]);
            && TimesFired(m.fired, t) == 0 && TimesFired(m'.fired, t) == 1
            && m'.fired == m.fired + [Fired(t, m.queue[0].success)]
  {
    var m, m' := Run(steps), Run(steps + [Work]);
    assert (steps + [Work])[..|steps|] == steps;
    AlwaysConsistent(steps);
    EndsTold(m.(queue := m.queue[1..]), m.queue[0], r, t);
    EachCallbackInOnePlace(steps + [Work], t);
    FiredSome(m'.fired, |m.fired|);
    assert m'.fired[..|m.fired|] == m.fired;
  }

  // ----- Timeouts ------------------------------------------------------------------------------

  /** What can time out is opening, closing, an rpc and opening an interface. */
  predicate Due(r: Rec, expired: set<int>) {
    && r.cid in expired && r.action.Some?
    && (|| r.state in {Connecting, Disconnecting}
        || (r.state == InProgress && r.micro in {Some("rpc"), Some("open_interface")}))
  }

  /** An expired connection gets one notice, that what is going on has failed. */
  lemma OneConnectionNoticed(m: Manager, c: int, expired: set<int>)
    requires c in m.conns ==> m.conns[c].cid == c
    ensures TimeoutNotices(m.conns, [c], expired) ==
            if c !in m.conns || !Due(m.conns[c], expired) then []
            else match m.conns[c].state
                 case Connecting => [FinishConnection(Ext(c), false)]
                 case Disconnecting => [FinishDisconnection(Ext(c), false)]
                 case _ => [FinishOperation(Ext(c), false)]
  {
    assert [c][..0] == [];
  }

  /** Connections get their notices in the order in which they are looked at. */
  lemma {:induction false} NoticedInOrder(m: Manager, order: seq<int>, more: seq<int>, expired: set<int>)
    ensures TimeoutNotices(m.conns, order + more, expired) ==
            TimeoutNotices(m.conns, order, expired) + TimeoutNotices(m.conns, more, expired)
  {
    if more == [] {
      assert order + more == order;
    } else {
      var front, c := more[..|more| - 1], more[|more| - 1];
      NoticedInOrder(m, order, front, expired);
      assert (order + more)[..|order + more| - 1] == order + front;
      Associative(TimeoutNotices(m.conns, order, expired), TimeoutNotices(m.conns, front, expired),
        TimeoutNotice(m.conns, c, expired));
    }
  }
}
