/** The supervisor's table of services and the copy of it that each client keeps. */
module Supervision {
  import opened Streams

  const UNKNOWN: nat := 4
  const MAX_MESSAGES: nat := 5

  predicate KnownState(state: int) { 0 <= state <= 4 }

  // ----- One service ----------------------------------------------------------------------

  /** A stored message and how often it was posted in a row. */
  datatype Entry = Entry(level: int, text: string, count: nat)

  datatype Service = Service(
    longName: string, preregistered: bool, state: int, headline: Option<Entry>, messages: seq<Entry>)

  function NewService(longName: string, preregistered: bool): Service {
    Service(longName, preregistered, UNKNOWN, None, [])
  }

  /** The last n elements. */
  function Last<T>(s: seq<T>, n: nat): seq<T> {
    if |s| <= n then s else s[|s| - n..]
  }

  /** Post a message: a repetition of the last text only counts. */
  function Post(messages: seq<Entry>, level: int, text: string, count: nat): seq<Entry> {
    if messages != [] && messages[|messages| - 1].text == text
    then messages[|messages| - 1 := messages[|messages| - 1].(count := messages[|messages| - 1].count + 1)]
    else Last(messages + [Entry(level, text, count)], MAX_MESSAGES)
  }

  function Headline(headline: Option<Entry>, level: int, text: string): Option<Entry> {
    if headline.Some? && headline.value.text == text then Some(headline.value.(count := headline.value.count + 1))
    else Some(Entry(level, text, 1))
  }

  // ----- What the log and the headline mean --------------------------------------------------

  datatype Line = Line(level: int, text: string)

  /** All lines ever posted, with equal texts in a row counted as one of the first's level. */
  function Runs(lines: seq<Line>): (runs: seq<Entry>)
    ensures runs == [] <==> lines == []
    ensures lines != [] ==> runs[|runs| - 1].text == lines[|lines| - 1].text
  {
    if lines == [] then []
    else
      OneRunMore(Runs(lines[..|lines| - 1]), lines[|lines| - 1])
  }

  function OneRunMore(before: seq<Entry>, line: Line): seq<Entry> {
    if before != [] && before[|before| - 1].text == line.text
    then before[|before| - 1 := before[|before| - 1].(count := before[|before| - 1].count + 1)]
    else before + [Entry(line.level, line.text, 1)]
  }

  function LastRun(runs: seq<Entry>): Option<Entry> { if runs == [] then None else Some(runs[|runs| - 1]) }

  lemma HeadlineToLast(all: seq<Entry>, line: Line)
    ensures Headline(LastRun(all), line.level, line.text) == LastRun(OneRunMore(all, line))
  {
  }

  lemma PostToLast(all: seq<Entry>, line: Line)
    ensures Post(Last(all, MAX_MESSAGES), line.level, line.text, 1) == Last(OneRunMore(all, line), MAX_MESSAGES)
  {
    var kept := Last(all, MAX_MESSAGES);
    if all != [] { assert kept[|kept| - 1] == all[|all| - 1]; }
  }

  function PostAll(lines: seq<Line>): seq<Entry> {
    if lines == [] then []
    else Post(PostAll(lines[..|lines| - 1]), lines[|lines| - 1].level, lines[|lines| - 1].text, 1)
  }

  function HeadlineAll(lines: seq<Line>): Option<Entry> {
    if lines == [] then None
    else Headline(HeadlineAll(lines[..|lines| - 1]), lines[|lines| - 1].level, lines[|lines| - 1].text)
  }

  /** The bounded log holds the last five runs, whatever has been dropped; the headline is
      the last run. */
  lemma {:induction false} LogIsLastRuns(lines: seq<Line>)
    ensures PostAll(lines) == Last(Runs(lines), MAX_MESSAGES)
    ensures HeadlineAll(lines) == LastRun(Runs(lines))
  {
    if lines != [] {
      var front := lines[..|lines| - 1];
      LogIsLastRuns(front);
      PostToLast(Runs(front), lines[|lines| - 1]);
      HeadlineToLast(Runs(front), lines[|lines| - 1]);
    }
  }

  function Total(runs: seq<Entry>): nat {
    if runs == [] then 0 else Total(runs[..|runs| - 1]) + runs[|runs| - 1].count
  }

  /** No line is lost in the runs. */
  lemma {:induction false} RunsCountAll(lines: seq<Line>)
    ensures Total(Runs(lines)) == |lines|
  {
    if lines != [] {
      var front := lines[..|lines| - 1];
      var before, after := Runs(front), Runs(lines);
      RunsCountAll(front);
      if |after| == |before| {
        assert after[..|after| - 1] == before[..|before| - 1];
      } else {
        assert after[..|after| - 1] == before;
      }
    }
  }

  /** Neighbours differ: this is what lets a copy be rebuilt by posting the messages again. */
  ghost predicate Tidy(messages: seq<Entry>) {
    && |messages| <= MAX_MESSAGES
    && (forall i, j | 0 <= i && j == i + 1 && j < |messages| :: messages[i].text != messages[j].text)
  }

  lemma PostIsTidy(messages: seq<Entry>, level: int, text: string, count: nat)
    requires Tidy(messages)
    ensures Tidy(Post(messages, level, text, count))
  {
  }

  /** Post messages with their counts to an empty log. */
  function Rebuild(messages: seq<Entry>): seq<Entry> {
    if messages == [] then []
    else
      var m := messages[|messages| - 1];
      Post(Rebuild(messages[..|messages| - 1]), m.level, m.text, m.count)
  }

  lemma {:induction false} RebuildIsSame(messages: seq<Entry>)
    requires Tidy(messages)
    ensures Rebuild(messages) == messages
  {
    if messages != [] {
      var front := messages[..|messages| - 1];
      RebuildIsSame(front);
      assert messages == front + [messages[|messages| - 1]];
    }
  }

  // ----- The server -----------------------------------------------------------------------------

  /** The short name of a service. */
  datatype Name = Name(text: string)

  /** Services in the order they were registered. */
  datatype Server = Server(order: seq<Name>, services: map<Name, Service>)

  datatype Operation =
    | UpdateState(name: Name, state: int)
    | AddService(name: Name, longName: string, preregistered: bool)
    | SendMessage(name: Name, level: int, text: string)
    | SetHeadline(name: Name, level: int, text: string)

  /** What all clients are told. */
  datatype Event =
    | StateChange(name: Name, state: int)
    | ServiceAdded(name: Name, longName: string, preregistered: bool)
    | NewMessage(name: Name, level: int, text: string)
    | NewHeadline(name: Name, level: int, text: string)

  /** Whether the operation is allowed; otherwise the server raises an error. */
  predicate Allowed(s: Server, op: Operation) {
    match op
    case UpdateState(name, state) => name in s.services && KnownState(state)
    case AddService(name, _, _) => name !in s.services
    case SendMessage(name, _, _) => name in s.services
    case SetHeadline(name, _, _) => name in s.services
  }

  function Perform(s: Server, op: Operation): Server {
    if !Allowed(s, op) then s
    else
      match op
      case UpdateState(name, state) => s.(services := s.services[name := s.services[name].(state := state)])
      case AddService(name, longName, pre) => Server(s.order + [name], s.services[name := NewService(longName, pre)])
      case SendMessage(name, level, text) =>
        var service := s.services[name];
        s.(services := s.services[name := service.(messages := Post(service.messages, level, text, 1))])
      case SetHeadline(name, level, text) =>
        var service := s.services[name];
        s.(services := s.services[name := service.(headline := Headline(service.headline, level, text))])
  }

  /** The event an operation causes; a message or headline is told as it is stored, with the
      level of the first of its run. */
  function Emitted(s: Server, op: Operation): Option<Event> {
    if !Allowed(s, op) then None
    else
      match op
      case UpdateState(name, state) => if s.services[name].state == state then None else Some(StateChange(name, state))
      case AddService(name, longName, pre) => Some(ServiceAdded(name, longName, pre))
      case SendMessage(name, level, text) =>
        var stored := Post(s.services[name].messages, level, text, 1);
        Some(NewMessage(name, stored[|stored| - 1].level, stored[|stored| - 1].text))
      case SetHeadline(name, level, text) =>
        var stored := Headline(s.services[name].headline, level, text).value;
        Some(NewHeadline(name, stored.level, stored.text))
  }

  /** Every service was registered once. */
  ghost predicate Listed(s: Server) {
    && (forall i, j | 0 <= i < j < |s.order| :: s.order[i] != s.order[j])
    && AllKnown(s) && (forall name | name in s.services :: name in s.order)
  }

  predicate AllKnown(s: Server) { forall i | 0 <= i < |s.order| :: s.order[i] in s.services }

  ghost predicate Sound(service: Service) { Tidy(service.messages) && KnownState(service.state) }

  ghost predicate Registered(s: Server) {
    Listed(s) && forall name | name in s.services :: Sound(s.services[name])
  }

  lemma PerformKeepsRegistered(s: Server, op: Operation)
    requires Registered(s)
    ensures Registered(Perform(s, op))
  {
    if Allowed(s, op) && op.SendMessage? {
      PostIsTidy(s.services[op.name].messages, op.level, op.text, 1);
    }
    if Allowed(s, op) && op.AddService? {
      assert forall name | name in s.order :: name in s.order + [op.name];
    }
  }

  // ----- The client ---------------------------------------------------------------------------------

  datatype Mirror = Mirror(id: nat, service: Service)

  datatype Client = Client(names: map<nat, Name>, services: map<Name, Mirror>)

  /** Apply an event; events about services the client does not know are ignored, and a
      change to an unknown state is refused. */
  function Apply(c: Client, e: Event): Client {
    match e
    case StateChange(name, state) =>
      if name in c.services && KnownState(state) then Set(c, name, Serve(c, name).(state := state)) else c
    case ServiceAdded(name, longName, pre) =>
      if name in c.services then c
      else
        Adopt(c, |c.services|, name, NewService(longName, pre))
    case NewMessage(name, level, text) =>
      if name in c.services
      then Set(c, name, Serve(c, name).(messages := Post(Serve(c, name).messages, level, text, 1))) else c
    case NewHeadline(name, level, text) =>
      if name in c.services
      then Set(c, name, Serve(c, name).(headline := Headline(Serve(c, name).headline, level, text))) else c
  }

  function Serve(c: Client, name: Name): Service
    requires name in c.services
  {
    c.services[name].service
  }

  function Set(c: Client, name: Name, service: Service): Client
    requires name in c.services
  {
    c.(services := c.services[name := c.services[name].(service := service)])
  }

  function ApplyAll(c: Client, events: seq<Event>): Client
    decreases |events|
  {
    if events == [] then c else ApplyAll(Apply(c, events[0]), events[1..])
  }

  /** The copy of one service that the client builds from what the server tells about it. */
  function Copied(s: Service): Service {
    Service(s.longName, s.preregistered, s.state,
      if s.headline.None? then None else Headline(None, s.headline.value.level, s.headline.value.text),
      Rebuild(s.messages))
  }

  /** Services are copied in registration order and get their position as id. */
  function SnapshotTo(s: Server, n: nat): Client
    requires n <= |s.order| && AllKnown(s)
  {
    if n == 0 then Client(map[], map[])
    else Adopt(SnapshotTo(s, n - 1), n - 1, s.order[n - 1], Copied(s.services[s.order[n - 1]]))
  }

  /** The client's copy of the whole table. */
  function Snapshot(s: Server): Client
    requires AllKnown(s)
  {
    SnapshotTo(s, |s.order|)
  }

  function Adopt(c: Client, id: nat, name: Name, service: Service): Client {
    Client(c.names[id := name], c.services[name := Mirror(id, service)])
  }

  // ----- Agreement -------------------------------------------------------------------------------------

  /** Same names, same state, same messages with levels and counts, same headline but for
      how often it was set. */
  predicate SameService(a: Service, b: Service) {
    && a.longName == b.longName && a.preregistered == b.preregistered && a.state == b.state
    && a.messages == b.messages
    && (a.headline.None? <==> b.headline.None?)
    && (a.headline.Some? ==>
         a.headline.value.level == b.headline.value.level && a.headline.value.text == b.headline.value.text)
  }

  /** The client knows this service by this number. */
  predicate Placed(c: Client, name: Name, i: nat) {
    i in c.names && c.names[i] == name && name in c.services && c.services[name].id == i
  }

  ghost predicate SameServices(s: map<Name, Service>, c: map<Name, Mirror>) {
    && (forall name :: name in c <==> name in s)
    && (forall name | name in s :: SameService(s[name], c[name].service))
  }

  ghost predicate SameNumbers(order: seq<Name>, c: Client) {
    && |c.services| == |c.names| == |order|
    && (forall i | 0 <= i < |order| :: Placed(c, order[i], i))
    && (forall i | i in c.names :: i < |order|)
  }

  /** The client knows exactly the server's services, and each by its position in the
      registration order. */
  ghost predicate Agree(s: Server, c: Client) { SameServices(s.services, c.services) && SameNumbers(s.order, c) }

  lemma SetAgrees(s: Server, c: Client, name: Name, a: Service, b: Service)
    requires Agree(s, c) && name in s.services && SameService(a, b)
    ensures Agree(s.(services := s.services[name := a]), Set(c, name, b))
  {
    var c' := Set(c, name, b);
    assert c'.services.Keys == c.services.Keys;
    forall i | 0 <= i < |s.order| ensures Placed(c', s.order[i], i) { assert Placed(c, s.order[i], i); }
  }

  lemma OneMoreKey<K, V>(m: map<K, V>, k: K, v: V)
    requires k !in m
    ensures |m[k := v]| == |m| + 1
  {
    assert m[k := v].Keys == m.Keys + {k};
  }

  lemma AdoptNumbers(order: seq<Name>, c: Client, name: Name, b: Service)
    requires SameNumbers(order, c) && name !in c.services && name !in order
    ensures SameNumbers(order + [name], Adopt(c, |order|, name, b))
  {
    var c' := Adopt(c, |order|, name, b);
    OneMoreKey(c.services, name, Mirror(|order|, b));
    OneMoreKey(c.names, |order|, name);
    forall i | 0 <= i <= |order| ensures Placed(c', (order + [name])[i], i) {
      if i < |order| { assert Placed(c, order[i], i) && order[i] in order; }
    }
  }

  lemma AdoptAgrees(s: Server, c: Client, name: Name, a: Service, b: Service)
    requires Agree(s, c) && name !in s.services && name !in s.order && SameService(a, b)
    ensures Agree(Server(s.order + [name], s.services[name := a]), Adopt(c, |s.order|, name, b))
  {
    AdoptNumbers(s.order, c, name, b);
  }

  /** The server's table without the services registered after the first n. */
  function Prefix(s: Server, n: nat): Server
    requires n <= |s.order|
  {
    Server(s.order[..n], map name | name in s.services && name in s.order[..n] :: s.services[name])
  }

  lemma PrefixNext(s: Server, n: nat)
    requires Listed(s) && 0 < n <= |s.order|
    ensures var p, name := Prefix(s, n - 1), s.order[n - 1];
            && name in s.services && name !in p.order && name !in p.services
            && Prefix(s, n) == Server(p.order + [name], p.services[name := s.services[name]])
  {
    var p, name := Prefix(s, n - 1), s.order[n - 1];
    assert name in s.order;
    assert s.order[..n] == s.order[..n - 1] + [name];
    assert Prefix(s, n).services == p.services[name := s.services[name]];
  }

  lemma CopyIsSame(s: Service)
    requires Sound(s)
    ensures SameService(s, Copied(s))
  {
    RebuildIsSame(s.messages);
  }

  /** The next service in the order is copied as well. */
  lemma SnapshotStep(s: Server, n: nat, p: Server, c: Client, p': Server, c': Client)
    requires Registered(s) && 0 < n <= |s.order| && s.order[n - 1] in s.services
    requires p == Prefix(s, n - 1) && p' == Prefix(s, n) && Agree(p, c)
    requires c' == Adopt(c, n - 1, s.order[n - 1], Copied(s.services[s.order[n - 1]]))
    ensures Agree(p', c')
  {
    PrefixNext(s, n);
    var name := s.order[n - 1];
    CopyIsSame(s.services[name]);
    AdoptAgrees(p, c, name, s.services[name], Copied(s.services[name]));
  }

  lemma NothingAgrees(s: Server)
    requires s.order == [] && s.services == map[]
    ensures Agree(s, Client(map[], map[]))
  {
  }

  lemma {:induction false} SnapshotToAgrees(s: Server, n: nat, p: Server, c: Client)
    requires Registered(s) && n <= |s.order| && p == Prefix(s, n) && c == SnapshotTo(s, n)
    ensures Agree(p, c)
  {
    if n == 0 {
      NothingAgrees(p);
    } else {
      var before, copied := Prefix(s, n - 1), SnapshotTo(s, n - 1);
      SnapshotToAgrees(s, n - 1, before, copied);
      SnapshotStep(s, n, before, copied, p, c);
    }
  }

  lemma PrefixIsAll(s: Server)
    requires Listed(s)
    ensures Prefix(s, |s.order|) == s
  {
    assert s.order[..|s.order|] == s.order;
    assert Prefix(s, |s.order|).services == s.services;
  }

  /** A client that copies the table of a server that is not changing agrees with it. */
  lemma SnapshotAgrees(s: Server)
    requires Registered(s)
    ensures Agree(s, Snapshot(s))
  {
    PrefixIsAll(s);
    SnapshotToAgrees(s, |s.order|, s, Snapshot(s));
  }

  function Heard(c: Client, e: Option<Event>): Client { if e.Some? then Apply(c, e.value) else c }

  lemma StateAgrees(s: Server, c: Client, name: Name, state: int)
    requires Agree(s, c) && name in s.services && KnownState(state)
    ensures Agree(Perform(s, UpdateState(name, state)), Heard(c, Emitted(s, UpdateState(name, state))))
  {
    var a, b := s.services[name], Serve(c, name);
    SetAgrees(s, c, name, a.(state := state), b.(state := state));
    if a.state == state { assert s.services[name := a.(state := state)] == s.services; }
  }

  lemma MessageAgrees(s: Server, c: Client, name: Name, level: int, text: string)
    requires Agree(s, c) && name in s.services
    ensures Agree(Perform(s, SendMessage(name, level, text)), Heard(c, Emitted(s, SendMessage(name, level, text))))
  {
    var a, b := s.services[name], Serve(c, name);
    var stored := Post(a.messages, level, text, 1);
    PostAsTold(a.messages, level, text);
    SetAgrees(s, c, name, a.(messages := stored), b.(messages := stored));
  }

  /** A message is posted by a client as the server stored it. */
  lemma PostAsTold(messages: seq<Entry>, level: int, text: string)
    ensures var stored := Post(messages, level, text, 1);
            stored != [] && Post(messages, stored[|stored| - 1].level, stored[|stored| - 1].text, 1) == stored
  {
  }

  lemma HeadlineAgrees(s: Server, c: Client, name: Name, level: int, text: string)
    requires Agree(s, c) && name in s.services
    ensures Agree(Perform(s, SetHeadline(name, level, text)), Heard(c, Emitted(s, SetHeadline(name, level, text))))
  {
    var a, b := s.services[name], Serve(c, name);
    var h := Headline(a.headline, level, text);
    SetAgrees(s, c, name, a.(headline := h), b.(headline := Headline(b.headline, h.value.level, h.value.text)));
  }

  lemma AddAgrees(s: Server, c: Client, name: Name, longName: string, pre: bool)
    requires Agree(s, c) && name !in s.services && name !in s.order
    ensures Agree(Perform(s, AddService(name, longName, pre)), Heard(c, Emitted(s, AddService(name, longName, pre))))
  {
    AdoptAgrees(s, c, name, NewService(longName, pre), NewService(longName, pre));
  }

  /** An operation and the event it causes keep server and client in agreement. */
  lemma StepAgrees(s: Server, c: Client, op: Operation)
    requires Listed(s) && Agree(s, c)
    ensures Agree(Perform(s, op), Heard(c, Emitted(s, op)))
  {
    if Allowed(s, op) {
      match op
      case UpdateState(name, state) => StateAgrees(s, c, name, state);
      case AddService(name, longName, pre) => AddAgrees(s, c, name, longName, pre);
      case SendMessage(name, level, text) => MessageAgrees(s, c, name, level, text);
      case SetHeadline(name, level, text) => HeadlineAgrees(s, c, name, level, text);
    }
  }

  /** A service that is registered without telling the clients is unknown to them: they agree
      afterwards only if the name was taken and nothing was registered. */
  lemma UntoldServiceIsMissing(s: Server, c: Client, name: Name, longName: string, pre: bool)
    requires Listed(s) && Agree(s, c)
    ensures Agree(Perform(s, AddService(name, longName, pre)), c) <==> name in s.services
  {
    if name !in s.services { assert name in Perform(s, AddService(name, longName, pre)).services; }
  }

  /** The services that are expected from the start, registered one after another up to the
      first whose name is taken. */
  function Expected(s: Server, names: seq<(Name, string)>): Server {
    if names == [] then s
    else
      var before := Expected(s, names[..|names| - 1]);
      var last := names[|names| - 1];
      if AllNew(s, names[..|names| - 1]) then Perform(before, AddService(last.0, last.1, true)) else before
  }

  /** No name is taken or given twice. */
  predicate AllNew(s: Server, names: seq<(Name, string)>) {
    if names == [] then true
    else
      var front := names[..|names| - 1];
      AllNew(s, front) && names[|names| - 1].0 !in Expected(s, front).services
  }

  // ----- Runs with events in flight -----------------------------------------------------------------

  /** The server, the events that have not reached the client, and the client. */
  datatype World = World(server: Server, flight: seq<Event>, client: Client)

  datatype Happening = Operate(op: Operation) | Deliver

  function Next(w: World, h: Happening): World {
    match h
    case Operate(op) =>
      World(Perform(w.server, op),
        w.flight + (if Emitted(w.server, op).Some? then [Emitted(w.server, op).value] else []), w.client)
    case Deliver => if w.flight == [] then w else World(w.server, w.flight[1..], Apply(w.client, w.flight[0]))
  }

  function Run(w: World, hs: seq<Happening>): World {
    if hs == [] then w else Next(Run(w, hs[..|hs| - 1]), hs[|hs| - 1])
  }

  lemma {:induction false} ApplyOneMore(c: Client, events: seq<Event>, e: Event)
    ensures ApplyAll(c, events + [e]) == Apply(ApplyAll(c, events), e)
    decreases |events|
  {
    if events == [] {
      assert [e][1..] == [];
    } else {
      ApplyOneMore(Apply(c, events[0]), events[1..], e);
      assert (events + [e])[1..] == events[1..] + [e];
    }
  }

  ghost predicate InSync(w: World) {
    Registered(w.server) && Agree(w.server, ApplyAll(w.client, w.flight))
  }

  lemma FlightGrows(s: Server, flight: seq<Event>, c: Client, e: Option<Event>)
    requires Registered(s) && Agree(s, Heard(ApplyAll(c, flight), e))
    ensures InSync(World(s, flight + (if e.Some? then [e.value] else []), c))
  {
    if e.Some? { ApplyOneMore(c, flight, e.value); } else { assert flight + [] == flight; }
  }

  lemma OperateInSync(w: World, op: Operation)
    requires InSync(w)
    ensures InSync(Next(w, Operate(op)))
  {
    PerformKeepsRegistered(w.server, op);
    StepAgrees(w.server, ApplyAll(w.client, w.flight), op);
    FlightGrows(Perform(w.server, op), w.flight, w.client, Emitted(w.server, op));
  }

  lemma NextInSync(w: World, h: Happening)
    requires InSync(w)
    ensures InSync(Next(w, h))
  {
    if h.Operate? { OperateInSync(w, h.op); }
  }

  /** After a snapshot, however operations and deliveries interleave, the client is what the
      events in flight are missing; whenever none is in flight it agrees with the server. */
  lemma {:induction false} AlwaysInSync(server: Server, hs: seq<Happening>)
    requires Registered(server)
    ensures var w := Run(World(server, [], Snapshot(server)), hs);
            InSync(w) && (w.flight == [] ==> Agree(w.server, w.client))
  {
    if hs == [] {
      SnapshotAgrees(server);
    } else {
      AlwaysInSync(server, hs[..|hs| - 1]);
      NextInSync(Run(World(server, [], Snapshot(server)), hs[..|hs| - 1]), hs[|hs| - 1]);
    }
  }
}
