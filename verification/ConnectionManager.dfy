/** The connection manager with its two dictionaries of shared records. */
module ConnectionManagers {
  import opened Streams
  import opened Connections
  import opened Timeouts

  class Record {
    const cid: int
    const iid: string
    var state: State
    var micro: Option<string>
    var action: Option<nat>

    constructor (cid: int, iid: string, state: State, action: Option<nat>)
      ensures View() == Rec(state, None, cid, iid, action)
    {
      this.cid, this.iid := cid, iid;
      this.state, this.micro, this.action := state, None, action;
    }

    method Update(state: State, micro: Option<string>, action: Option<nat>)
      modifies this
      ensures View() == Rec(state, micro, cid, iid, action)
    {
      this.state, this.micro, this.action := state, micro, action;
    }

    ghost function View(): Rec
      reads this
    {
      Rec(state, micro, cid, iid, action)
    }
  }

  lemma NoticesNext(conns: map<int, Rec>, order: seq<int>, i: nat, expired: set<int>)
    requires i < |order|
    ensures TimeoutNotices(conns, order[..i + 1], expired) ==
            TimeoutNotices(conns, order[..i], expired) + TimeoutNotice(conns, order[i], expired)
  {
    assert order[..i + 1][..i] == order[..i];
  }

  lemma WorkHandles(m: Manager, a: Action, m': Manager)
    requires m.queue != [] && a == m.queue[0] && m' == m.(queue := m.queue[1..])
    ensures Next(m, Work) == Handle(m', a)
  {
  }

  /** Both dictionaries hold the same objects, each under its own number or name. */
  ghost predicate Linked(connections: map<int, Record>, intConnections: map<string, Record>) {
    && (forall c | c in connections ::
          connections[c].cid == c && Twice(connections[c], connections, intConnections))
    && (forall s | s in intConnections ::
          intConnections[s].iid == s && Twice(intConnections[s], connections, intConnections))
  }

  ghost predicate Twice(r: Record, connections: map<int, Record>, intConnections: map<string, Record>) {
    && r.cid in connections && connections[r.cid] == r
    && r.iid in intConnections && intConnections[r.iid] == r
  }

  lemma LinkedInsert(connections: map<int, Record>, intConnections: map<string, Record>, r: Record)
    requires Linked(connections, intConnections) && r.cid !in connections && r.iid !in intConnections
    ensures Linked(connections[r.cid := r], intConnections[r.iid := r])
  {
  }

  lemma LinkedDelete(connections: map<int, Record>, intConnections: map<string, Record>, r: Record)
    requires Linked(connections, intConnections) && Twice(r, connections, intConnections)
    ensures Linked(connections - {r.cid}, intConnections - {r.iid})
  {
  }

  /** The table holds the values of the records in the dictionary. */
  ghost predicate Shows<K(!new)>(dictionary: map<K, Record>, table: map<K, Rec>)
    reads dictionary.Values
  {
    && (forall k :: k in dictionary <==> k in table)
    && (forall k | k in dictionary :: dictionary[k].View() == table[k] && Sound(table[k]))
  }

  lemma ShowsInserted<K(!new)>(dictionary: map<K, Record>, table: map<K, Rec>, k: K, r: Record)
    requires Shows(dictionary, table) && Sound(r.View())
    ensures Shows(dictionary[k := r], table[k := r.View()])
  {
  }

  lemma ShowsDeleted<K(!new)>(dictionary: map<K, Record>, table: map<K, Rec>, k: K)
    requires Shows(dictionary, table)
    ensures Shows(dictionary - {k}, table - {k})
  {
  }

  lemma ShowsChanged<K(!new)>(dictionary: map<K, Record>, table: map<K, Rec>, k: K, r: Record)
    requires k in dictionary && dictionary[k] == r && Sound(r.View()) && forall j :: j in dictionary <==> j in table
    requires forall j | j in dictionary && j != k :: dictionary[j].View() == table[j] && Sound(table[j])
    ensures Shows(dictionary, table[k := r.View()])
  {
  }

  class ConnectionManager {
    var connections: map<int, Record>
    var intConnections: map<string, Record>
    var actions: seq<Action>
    var fired: seq<Fired>
    var begun: nat

    /** The state of the machine that this object implements. */
    ghost var view: Manager

    /** The fields hold what the view says, and both dictionaries hold the same record
        objects. */
    ghost predicate Valid()
      reads this, connections.Values, intConnections.Values
    {
      && view.queue == actions && view.fired == fired && view.begun == begun
      && Linked(connections, intConnections)
      && Shows(connections, view.conns) && Shows(intConnections, view.ints)
    }

    constructor ()
      ensures Valid() && view == START
    {
      connections, intConnections := map[], map[];
      actions, fired, begun := [], [], 0;
      view := START;
    }

    // ----- Clients ---------------------------------------------------------------

    method BeginConnection(cid: int, iid: string) returns (callback: nat)
      requires Valid()
      modifies this`actions, this`begun, this`view
      ensures Valid() && view == Next(old(view), Connect(cid, iid)) && callback == old(begun)
    {
      callback := begun;
      actions := actions + [Action.BeginConnection(cid, iid, callback)];
      begun := begun + 1;
      view := Next(view, Connect(cid, iid));
    }

    method BeginDisconnection(key: Key) returns (callback: nat)
      requires Valid()
      modifies this`actions, this`begun, this`view
      ensures Valid() && view == Next(old(view), Disconnect(key)) && callback == old(begun)
    {
      callback := begun;
      actions := actions + [Action.BeginDisconnection(key, callback)];
      begun := begun + 1;
      view := Next(view, Disconnect(key));
    }

    method BeginOperation(key: Key, op: string) returns (callback: nat)
      requires Valid()
      modifies this`actions, this`begun, this`view
      ensures Valid() && view == Next(old(view), Operate(key, op)) && callback == old(begun)
    {
      callback := begun;
      actions := actions + [Action.BeginOperation(key, op, callback)];
      begun := begun + 1;
      view := Next(view, Operate(key, op));
    }

    /** A finish, or an unexpected disconnection, reported by anyone at any time. */
    method ReportEnd(a: Action)
      requires Valid() && IsReport(a)
      modifies this`actions, this`view
      ensures Valid() && view == Next(old(view), Report(a))
    {
      actions := actions + [a];
      view := Next(view, Report(a));
    }

    // ----- The tables --------------------------------------------------------------

    method Find(key: Key) returns (r: Record?)
      requires Valid()
      ensures r == null <==> view.Find(key).None?
      ensures r != null ==> view.Find(key) == Some(r.View()) && Twice(r, connections, intConnections) && Sound(r.View())
      ensures r != null ==> r in connections.Values
    {
      match key {
        case Ext(n) => r := if n in connections then connections[n] else null;
        case Int(s) => r := if s in intConnections then intConnections[s] else null;
      }
      assert r != null ==> r.cid in view.conns && view.conns[r.cid] == r.View();
    }

    /** Change a stored record; both dictionaries see it, as they share the object. */
    method Change(r: Record, state: State, micro: Option<string>, action: Option<nat>)
      requires Valid() && Twice(r, connections, intConnections) && Sound(Rec(state, micro, r.cid, r.iid, action))
      modifies r, this`view
      ensures Valid() && view == old(view).Put(Rec(state, micro, r.cid, r.iid, action))
    {
      ghost var was := view;
      view := view.Put(Rec(state, micro, r.cid, r.iid, action));
      r.Update(state, micro, action);
      forall c | c in connections && c != r.cid ensures connections[c].View() == was.conns[c] {
        assert connections[c] != r;
      }
      forall s | s in intConnections && s != r.iid ensures intConnections[s].View() == was.ints[s] {
        assert intConnections[s] != r;
      }
      ShowsChanged(connections, was.conns, r.cid, r);
      ShowsChanged(intConnections, was.ints, r.iid, r);
    }

    method Insert(r: Record)
      requires Valid() && r.cid !in connections && r.iid !in intConnections && Sound(r.View())
      modifies this`connections, this`intConnections, this`view
      ensures Valid() && view == old(view).Put(r.View())
    {
      ShowsInserted(connections, view.conns, r.cid, r);
      ShowsInserted(intConnections, view.ints, r.iid, r);
      LinkedInsert(connections, intConnections, r);
      connections := connections[r.cid := r];
      intConnections := intConnections[r.iid := r];
      view := view.Put(r.View());
    }

    method Delete(r: Record)
      requires Valid() && Twice(r, connections, intConnections)
      modifies this`connections, this`intConnections, this`view
      ensures Valid() && view == old(view).Remove(r.View())
    {
      ShowsDeleted(connections, view.conns, r.cid);
      ShowsDeleted(intConnections, view.ints, r.iid);
      LinkedDelete(connections, intConnections, r);
      connections := connections - {r.cid};
      intConnections := intConnections - {r.iid};
      view := view.Remove(r.View());
    }

    method Fire(callback: nat, success: bool)
      requires Valid()
      modifies this`fired, this`view
      ensures Valid() && view == old(view).Fire(callback, success)
    {
      fired := fired + [Fired(callback, success)];
      view := view.Fire(callback, success);
    }

    // ----- The worker ----------------------------------------------------------------

    method InsertNew(cid: int, iid: string, state: State, action: Option<nat>)
      requires Valid() && cid !in connections && iid !in intConnections && Sound(Rec(state, None, cid, iid, action))
      modifies this`connections, this`intConnections, this`view
      ensures Valid() && view == old(view).Put(Rec(state, None, cid, iid, action))
    {
      var r := new Record(cid, iid, state, action);
      Insert(r);
    }

    method HandleBeginConnection(cid: int, iid: string, callback: nat)
      requires Valid()
      modifies this
      ensures Valid() && view == DoBeginConnection(old(view), cid, iid, callback)
    {
      var byId := Find(Ext(cid));
      if byId != null { Fire(callback, false); return; }
      var byName := Find(Int(iid));
      if byName != null { Fire(callback, false); return; }
      InsertNew(cid, iid, Connecting, Some(callback));
    }

    method HandleFinishConnection(key: Key, success: bool)
      requires Valid()
      modifies this, connections.Values
      ensures Valid() && view == DoFinishConnection(old(view), key, success)
    {
      var r := Find(key);
      if r == null || r.state != Connecting { return; }
      var callback := r.action.value;
      if success {
        Change(r, Idle, None, None);
        Fire(callback, true);
      } else {
        Delete(r);
        Fire(callback, false);
      }
    }

    /** Settle the callback that a forced-out connection owes. */
    method CancelOwed(r: Record)
      requires Valid() && Sound(r.View())
      modifies this`fired, this`view
      ensures Valid() && view == ForceOut(old(view), r.View())
    {
      match r.state {
        case Connecting => Fire(r.action.value, false);
        case Disconnecting => Fire(r.action.value, true);
        case InProgress =>
          if Cancelable(r.micro) {
            Fire(r.action.value, false);
          } else {
            view := view.(dropped := view.dropped + [Dropped(r.action.value, r.micro)]);
          }
        case _ =>
      }
    }

    method HandleForceDisconnect(key: Key)
      requires Valid()
      modifies this
      ensures Valid() && view == DoForceDisconnect(old(view), key)
    {
      var r := Find(key);
      if r == null { return; }
      CancelOwed(r);
      Delete(r);
    }

    method HandleBeginDisconnection(key: Key, callback: nat)
      requires Valid()
      modifies this, connections.Values
      ensures Valid() && view == DoBeginDisconnection(old(view), key, callback)
    {
      var r := Find(key);
      if r == null || r.state != Idle { Fire(callback, false); return; }
      Change(r, Disconnecting, None, Some(callback));
    }

    method HandleFinishDisconnection(key: Key, success: bool)
      requires Valid()
      modifies this, connections.Values
      ensures Valid() && view == DoFinishDisconnection(old(view), key, success)
    {
      var r := Find(key);
      if r == null || r.state != Disconnecting { return; }
      var callback := r.action.value;
      if success {
        Delete(r);
        Fire(callback, true);
      } else {
        Change(r, Idle, None, None);
        Fire(callback, false);
      }
    }

    method HandleBeginOperation(key: Key, op: string, callback: nat)
      requires Valid()
      modifies this, connections.Values
      ensures Valid() && view == DoBeginOperation(old(view), key, op, callback)
    {
      var r := Find(key);
      if r == null || r.state != Idle { Fire(callback, false); return; }
      Change(r, InProgress, Some(op), Some(callback));
    }

    method HandleFinishOperation(key: Key, success: bool)
      requires Valid()
      modifies this, connections.Values
      ensures Valid() && view == DoFinishOperation(old(view), key, success)
    {
      var r := Find(key);
      if r == null || r.state != InProgress { return; }
      var callback := r.action.value;
      Change(r, Idle, None, None);
      Fire(callback, success);
    }

    method Dispatch(a: Action)
      requires Valid()
      modifies this, connections.Values
      ensures Valid() && view == Handle(old(view), a)
    {
      match a {
        case BeginConnection(cid, iid, callback) => HandleBeginConnection(cid, iid, callback);
        case FinishConnection(key, success) => HandleFinishConnection(key, success);
        case ForceDisconnect(key) => HandleForceDisconnect(key);
        case BeginDisconnection(key, callback) => HandleBeginDisconnection(key, callback);
        case FinishDisconnection(key, success) => HandleFinishDisconnection(key, success);
        case BeginOperation(key, op, callback) => HandleBeginOperation(key, op, callback);
        case FinishOperation(key, success) => HandleFinishOperation(key, success);
      }
    }

    method TakeAction() returns (a: Action)
      requires Valid() && actions != []
      modifies this`actions, this`view
      ensures Valid() && a == old(view).queue[0] && view == old(view).(queue := old(view).queue[1..])
    {
      a := actions[0];
      actions := actions[1..];
      view := view.(queue := view.queue[1..]);
    }

    /** Take the oldest action off the queue and handle it. */
    method DoWork()
      requires Valid()
      modifies this, connections.Values
      ensures Valid() && view == Next(old(view), Work)
    {
      if actions == [] { return; }
      var a := TakeAction();
      WorkHandles(old(view), a, view);
      Dispatch(a);
    }

    method AddConnection(cid: int, iid: string)
      requires Valid()
      modifies this
      ensures Valid() && view == Next(old(view), Step.AddConnection(cid, iid))
    {
      var byId := Find(Ext(cid));
      if byId != null { return; }
      var byName := Find(Int(iid));
      if byName != null { return; }
      InsertNew(cid, iid, Idle, None);
    }

    method QueueNotice(a: Action)
      requires Valid() && IsReport(a)
      modifies this`actions, this`view
      ensures Valid() && view == old(view).(queue := old(view).queue + [a])
    {
      ReportEnd(a);
    }

    method CheckTimeout(c: int, expired: set<int>)
      requires Valid() && c in connections
      modifies this`actions, this`view
      ensures Valid() && view == old(view).(queue := old(view).queue + TimeoutNotice(old(view).conns, c, expired))
    {
      var r := connections[c];
      assert view.conns[c] == r.View() && Sound(r.View());
      if r.action.None? || c !in expired { return; }
      match r.state
      case Connecting => QueueNotice(FinishConnection(Ext(c), false));
      case Disconnecting => QueueNotice(FinishDisconnection(Ext(c), false));
      case InProgress =>
        if r.micro == Some(RPC) || r.micro == Some(OPEN_INTERFACE) { QueueNotice(FinishOperation(Ext(c), false)); }
      case _ =>
    }

    /** Queue a failed finish for every connection in the given order whose time is up. */
    method CheckTimeouts(order: seq<int>, expired: set<int>)
      requires Valid() && forall j | 0 <= j < |order| :: order[j] in connections
      modifies this`actions, this`view
      ensures Valid()
      ensures view == old(view).(queue := old(view).queue + TimeoutNotices(old(view).conns, order, expired))
    {
      for i := 0 to |order|
        invariant Valid() && connections == old(connections)
        invariant view == old(view).(queue := view.queue)
        invariant view.queue == old(view).queue + TimeoutNotices(old(view).conns, order[..i], expired)
      {
        NoticesNext(old(view).conns, order, i, expired);
        CheckTimeout(order[i], expired);
      }
      assert order[..|order|] == order;
    }
  }
}
