/** The supervisor's service manager and its client as code. */
module Supervisors {
  import opened Streams
  import opened Supervision

  class ServiceState {
    const id: nat
    const longName: string
    const preregistered: bool
    var state: int
    var headline: Option<Entry>
    var messages: seq<Entry>

    constructor (longName: string, preregistered: bool, id: nat)
      ensures View() == NewService(longName, preregistered) && this.id == id
    {
      this.longName, this.preregistered, this.id := longName, preregistered, id;
      state, headline, messages := UNKNOWN, None, [];
    }

    ghost function View(): Service
      reads this
    {
      Service(longName, preregistered, state, headline, messages)
    }

    method SetState(newState: int) returns (ok: bool)
      modifies this`state
      ensures ok <==> KnownState(newState)
      ensures View() == if ok then old(View()).(state := newState) else old(View())
    {
      if !KnownState(newState) { return false; }
      state := newState;
      return true;
    }

    /** Count a repetition, or append the message to the bounded log; give the message that
        is stored. */
    method PostMessage(level: int, text: string, count: nat) returns (posted: Entry)
      modifies this`messages
      ensures View() == old(View()).(messages := Post(old(messages), level, text, count))
      ensures messages != [] && posted == messages[|messages| - 1]
    {
      if |messages| > 0 && messages[|messages| - 1].text == text {
        var last := messages[|messages| - 1];
        messages := messages[|messages| - 1 := last.(count := last.count + 1)];
      } else {
        messages := messages + [Entry(level, text, count)];
        if |messages| > MAX_MESSAGES { messages := messages[|messages| - MAX_MESSAGES..]; }
      }
      return messages[|messages| - 1];
    }

    method SetHeadline(level: int, text: string)
      modifies this`headline
      ensures View() == old(View()).(headline := Headline(old(headline), level, text))
    {
      if headline.Some? && headline.value.text == text {
        headline := Some(headline.value.(count := headline.value.count + 1));
        return;
      }
      headline := Some(Entry(level, text, 1));
    }
  }

  class ServiceManager {
    var order: seq<Name>
    var services: map<Name, ServiceState>
    var outbox: seq<Event>

    /** The server state that this object implements. */
    ghost var view: Server

    ghost predicate Valid()
      reads this, services.Values
    {
      && order == view.order
      && (forall n :: n in services <==> n in view.services)
      && (forall n | n in services :: services[n].View() == view.services[n])
      && (forall n, m | n in services && m in services && n != m :: services[n] != services[m])
    }

    constructor ()
      ensures Valid() && view == Server([], map[]) && outbox == []
    {
      order, services, outbox := [], map[], [];
      view := Server([], map[]);
    }

    method UpdateState(name: Name, state: int) returns (ok: bool)
      requires Valid()
      modifies this`outbox, this`view, services.Values
      ensures Valid() && ok == Allowed(old(view), Operation.UpdateState(name, state))
      ensures view == Perform(old(view), Operation.UpdateState(name, state))
      ensures outbox == old(outbox) + Told(old(view), Operation.UpdateState(name, state))
    {
      if name !in services || !KnownState(state) { return false; }
      var service := services[name];
      if service.state == state {
        assert view.services[name := view.services[name].(state := state)] == view.services;
        return true;
      }
      view := Perform(view, Operation.UpdateState(name, state));
      var known := service.SetState(state);
      outbox := outbox + [StateChange(name, state)];
      return true;
    }

    /** Register a service, and tell the clients unless asked not to. */
    method AddService(name: Name, longName: string, preregistered: bool, notify: bool) returns (ok: bool)
      requires Valid()
      modifies this
      ensures Valid() && ok == Allowed(old(view), Operation.AddService(name, longName, preregistered))
      ensures view == Perform(old(view), Operation.AddService(name, longName, preregistered))
      ensures outbox == old(outbox) +
                        if notify then Told(old(view), Operation.AddService(name, longName, preregistered)) else []
    {
      if name in services { return false; }
      var service := new ServiceState(longName, preregistered, |order|);
      services := services[name := service];
      order := order + [name];
      view := Perform(view, Operation.AddService(name, longName, preregistered));
      if notify { outbox := outbox + [ServiceAdded(name, longName, preregistered)]; }
      return true;
    }

    /** Register the services that are expected from the start; an error at a repeated name. */
    method AddExpected(names: seq<(Name, string)>) returns (ok: bool)
      requires Valid()
      modifies this
      ensures Valid() && outbox == old(outbox)
      ensures ok == AllNew(old(view), names) && view == Expected(old(view), names)
    {
      ok := true;
      for i := 0 to |names|
        invariant Valid() && outbox == old(outbox)
        invariant ok == AllNew(old(view), names[..i]) && view == Expected(old(view), names[..i])
      {
        assert names[..i + 1][..i] == names[..i];
        if ok { ok := AddService(names[i].0, names[i].1, true, false); }
      }
      assert names[..|names|] == names;
    }

    method SendMessage(name: Name, level: int, text: string) returns (ok: bool)
      requires Valid()
      modifies this`outbox, this`view, services.Values
      ensures Valid() && ok == Allowed(old(view), Operation.SendMessage(name, level, text))
      ensures view == Perform(old(view), Operation.SendMessage(name, level, text))
      ensures outbox == old(outbox) + Told(old(view), Operation.SendMessage(name, level, text))
    {
      if name !in services { return false; }
      view := Perform(view, Operation.SendMessage(name, level, text));
      var posted := services[name].PostMessage(level, text, 1);
      outbox := outbox + [NewMessage(name, posted.level, posted.text)];
      return true;
    }

    method SetHeadline(name: Name, level: int, text: string) returns (ok: bool)
      requires Valid()
      modifies this`outbox, this`view, services.Values
      ensures Valid() && ok == Allowed(old(view), Operation.SetHeadline(name, level, text))
      ensures view == Perform(old(view), Operation.SetHeadline(name, level, text))
      ensures outbox == old(outbox) + Told(old(view), Operation.SetHeadline(name, level, text))
    {
      if name !in services { return false; }
      view := Perform(view, Operation.SetHeadline(name, level, text));
      services[name].SetHeadline(level, text);
      var stored := services[name].headline.value;
      outbox := outbox + [NewHeadline(name, stored.level, stored.text)];
      return true;
    }
  }

  /** What an operation makes the server send. */
  function Told(s: Server, op: Operation): seq<Event> {
    if Emitted(s, op).Some? then [Emitted(s, op).value] else []
  }

  class SupervisorClient {
    var nameMap: map<nat, Name>
    var services: map<Name, ServiceState>

    /** The client state that this object implements. */
    ghost var view: Client

    ghost predicate Valid()
      reads this, services.Values
    {
      && nameMap == view.names
      && services.Keys == view.services.Keys
      && (forall n | n in services :: Mirror(services[n].id, services[n].View()) == view.services[n])
      && (forall n, m | n in services && m in services && n != m :: services[n] != services[m])
    }

    constructor ()
      ensures Valid() && view == Client(map[], map[])
    {
      nameMap, services := map[], map[];
      view := Client(map[], map[]);
    }

    /** Handle one event from the server; fails on a change to an unknown state. */
    method OnEvent(e: Event) returns (ok: bool)
      requires Valid()
      modifies this, services.Values
      ensures Valid() && view == Apply(old(view), e)
      ensures !ok <==> e.StateChange? && e.name in old(services) && !KnownState(e.state)
    {
      ok := true;
      match e
      case StateChange(name, state) => ok := OnStatusChange(name, state);
      case ServiceAdded(name, longName, pre) => OnServiceAdded(name, longName, pre);
      case NewMessage(name, level, text) => OnMessage(name, level, text);
      case NewHeadline(name, level, text) => OnHeadline(name, level, text);
    }

    method OnStatusChange(name: Name, state: int) returns (ok: bool)
      requires Valid()
      modifies this`view, services.Values
      ensures Valid() && view == Apply(old(view), StateChange(name, state))
      ensures !ok <==> name in services && !KnownState(state)
    {
      if name !in services { return true; }
      view := Apply(view, StateChange(name, state));
      ok := services[name].SetState(state);
    }

    method OnServiceAdded(name: Name, longName: string, pre: bool)
      requires Valid()
      modifies this
      ensures Valid() && view == Apply(old(view), ServiceAdded(name, longName, pre))
    {
      if name in services { return; }
      assert |services| == |services.Keys| && |view.services| == |view.services.Keys|;
      var id := |services|;
      var service := new ServiceState(longName, pre, id);
      Keep(name, service);
    }

    /** Keep a service under its name and number. */
    method Keep(name: Name, service: ServiceState)
      requires Valid() && service !in services.Values
      modifies this
      ensures Valid() && view == Adopt(old(view), service.id, name, service.View())
      ensures services == old(services)[name := service]
    {
      services := services[name := service];
      nameMap := nameMap[service.id := name];
      view := Adopt(view, service.id, name, service.View());
    }

    method OnMessage(name: Name, level: int, text: string)
      requires Valid()
      modifies this`view, services.Values
      ensures Valid() && view == Apply(old(view), NewMessage(name, level, text))
    {
      if name !in services { return; }
      view := Apply(view, NewMessage(name, level, text));
      var posted := services[name].PostMessage(level, text, 1);
    }

    method OnHeadline(name: Name, level: int, text: string)
      requires Valid()
      modifies this`view, services.Values
      ensures Valid() && view == Apply(old(view), NewHeadline(name, level, text))
    {
      if name !in services { return; }
      view := Apply(view, NewHeadline(name, level, text));
      services[name].SetHeadline(level, text);
    }

    /** Build the copy of one service from what the server tells about it. */
    method CopyService(told: Service, id: nat) returns (service: ServiceState)
      requires KnownState(told.state)
      ensures fresh(service) && service.id == id && service.View() == Copied(told)
    {
      service := new ServiceState(told.longName, told.preregistered, id);
      var known := service.SetState(told.state);
      for i := 0 to |told.messages|
        invariant service.View() ==
          NewService(told.longName, told.preregistered).(state := told.state, messages := Rebuild(told.messages[..i]))
      {
        assert told.messages[..i + 1][..i] == told.messages[..i];
        var m := told.messages[i];
        var posted := service.PostMessage(m.level, m.text, m.count);
      }
      assert told.messages[..|told.messages|] == told.messages;
      if told.headline.Some? {
        service.SetHeadline(told.headline.value.level, told.headline.value.text);
      }
    }

    /** Copy the service at position i of the registration order. */
    method SyncService(server: Server, i: nat)
      requires Valid() && i < |server.order|
      requires forall k | 0 <= k < |server.order| :: server.order[k] in server.services
      requires KnownState(server.services[server.order[i]].state) && view == SnapshotTo(server, i)
      modifies this
      ensures Valid() && view == SnapshotTo(server, i + 1)
      ensures forall n | n in services :: fresh(services[n]) || (n in old(services) && services[n] == old(services[n]))
    {
      var name := server.order[i];
      var service := CopyService(server.services[name], i);
      Keep(name, service);
    }

    /** Copy all services of a server that is not changing. */
    method SyncServices(server: Server)
      requires forall k | 0 <= k < |server.order| :: server.order[k] in server.services
      requires forall k | 0 <= k < |server.order| :: KnownState(server.services[server.order[k]].state)
      modifies this
      ensures Valid() && view == Snapshot(server)
    {
      nameMap, services, view := map[], map[], Client(map[], map[]);
      for i := 0 to |server.order|
        invariant Valid() && view == SnapshotTo(server, i)
        invariant forall n | n in services :: fresh(services[n])
      {
        SyncService(server, i);
      }
    }
  }
}
