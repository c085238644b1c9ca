/** What each operation makes of the server's table and each event of a client's copy, field by field. */
module ServiceOutcomes {
  import opened Streams
  import opened Supervision

  // ----- The server ------------------------------------------------------------------------------

  /** The table is the same but for this service. */
  predicate OnlyChanges(s: Server, s': Server, name: Name, service: Service) {
    s'.order == s.order && s'.services == s.services[name := service]
  }

  /** A state from 0 to 4 is stored for a known service, and told if it is new. */
  lemma StateUpdated(s: Server, name: Name, state: int)
    ensures var s', told := Perform(s, UpdateState(name, state)), Emitted(s, UpdateState(name, state));
            if name in s.services && 0 <= state <= 4
            then
              var before := s.services[name];
              && OnlyChanges(s, s', name,
                   Service(before.longName, before.preregistered, state, before.headline, before.messages))
              && told == if before.state == state then None else Some(StateChange(name, state))
            else s' == s && told == None
  {
  }

  /** A new service is the last one, is in state 4, unknown, and has no headline and no messages. */
  lemma ServiceRegistered(s: Server, name: Name, longName: string, pre: bool)
    ensures var op := AddService(name, longName, pre);
            if name !in s.services
            then
              && Perform(s, op) == Server(s.order + [name], s.services[name := Service(longName, pre, 4, None, [])])
              && Emitted(s, op) == Some(ServiceAdded(name, longName, pre))
            else Perform(s, op) == s && Emitted(s, op) == None
  {
  }

  /** The log after a post: a repetition of the last text is counted under the level it had; else the
      message is added, and of six the first is dropped. */
  predicate Posted(messages: seq<Entry>, messages': seq<Entry>, level: int, text: string) {
    var n := |messages|;
    if n > 0 && messages[n - 1].text == text
    then messages' == messages[..n - 1] + [Entry(messages[n - 1].level, text, messages[n - 1].count + 1)]
    else if n < 5 then messages' == messages + [Entry(level, text, 1)]
    else n == 5 ==> messages' == messages[1..] + [Entry(level, text, 1)]
  }

  lemma PostedLog(messages: seq<Entry>, level: int, text: string)
    ensures Posted(messages, Post(messages, level, text, 1), level, text)
    ensures var messages' := Post(messages, level, text, 1);
            messages' != [] && messages'[|messages'| - 1].text == text
  {
    var n, added := |messages|, messages + [Entry(level, text, 1)];
    if n > 0 && messages[n - 1].text == text {
      var last := messages[n - 1].(count := messages[n - 1].count + 1);
      assert messages[n - 1 := last] == messages[..n - 1] + [last];
    } else {
      assert added[|added| - 1] == Entry(level, text, 1);
      assert n == 5 ==> added[1..] == messages[1..] + [Entry(level, text, 1)];
    }
  }

  lemma MessagePosted(s: Server, name: Name, level: int, text: string)
    ensures var s', told := Perform(s, SendMessage(name, level, text)), Emitted(s, SendMessage(name, level, text));
            if name in s.services
            then
              var before := s.services[name];
              && name in s'.services
              && var messages := s'.services[name].messages;
                 && OnlyChanges(s, s', name,
                      Service(before.longName, before.preregistered, before.state, before.headline, messages))
                 && Posted(before.messages, messages, level, text) && messages != []
                 && told == Some(NewMessage(name, messages[|messages| - 1].level, text))
            else s' == s && told == None
  {
    if name in s.services { PostedLog(s.services[name].messages, level, text); }
  }

  /** The headline after it is set: a repetition of the text is counted under the level it had. */
  function HeadlineSetTo(headline: Option<Entry>, level: int, text: string): Entry {
    if headline.Some? && headline.value.text == text
    then Entry(headline.value.level, text, headline.value.count + 1) else Entry(level, text, 1)
  }

  lemma HeadlineChanged(s: Server, name: Name, level: int, text: string)
    ensures var s', told := Perform(s, SetHeadline(name, level, text)), Emitted(s, SetHeadline(name, level, text));
            if name in s.services
            then
              var before := s.services[name];
              var headline := HeadlineSetTo(before.headline, level, text);
              && OnlyChanges(s, s', name,
                   Service(before.longName, before.preregistered, before.state, Some(headline), before.messages))
              && told == Some(NewHeadline(name, headline.level, text))
            else s' == s && told == None
  {
  }

  // ----- A client ---------------------------------------------------------------------------------

  /** The copy is the same but for this service, which keeps its number. */
  predicate OnlyCopies(c: Client, c': Client, name: Name, service: Service)
    requires name in c.services
  {
    c'.names == c.names && c'.services == c.services[name := Mirror(c.services[name].id, service)]
  }

  lemma ToldOfState(c: Client, name: Name, state: int)
    ensures var c' := Apply(c, StateChange(name, state));
            if name in c.services && 0 <= state <= 4
            then
              var before := c.services[name].service;
              OnlyCopies(c, c', name,
                Service(before.longName, before.preregistered, state, before.headline, before.messages))
            else c' == c
  {
  }

  /** A new service gets the next number. */
  lemma ToldOfService(c: Client, name: Name, longName: string, pre: bool)
    ensures var c' := Apply(c, ServiceAdded(name, longName, pre));
            if name in c.services then c' == c
            else
              && c'.names == c.names[|c.services| := name]
              && c'.services == c.services[name := Mirror(|c.services|, Service(longName, pre, 4, None, []))]
  {
  }

  lemma ToldOfMessage(c: Client, name: Name, level: int, text: string)
    ensures var c' := Apply(c, NewMessage(name, level, text));
            if name in c.services
            then
              var before := c.services[name].service;
              && name in c'.services
              && var messages := c'.services[name].service.messages;
                 && OnlyCopies(c, c', name,
                      Service(before.longName, before.preregistered, before.state, before.headline, messages))
                 && Posted(before.messages, messages, level, text)
            else c' == c
  {
    if name in c.services { PostedLog(Serve(c, name).messages, level, text); }
  }

  lemma ToldOfHeadline(c: Client, name: Name, level: int, text: string)
    ensures var c' := Apply(c, NewHeadline(name, level, text));
            if name in c.services
            then
              var before := c.services[name].service;
              OnlyCopies(c, c', name, Service(before.longName, before.preregistered, before.state,
                                        Some(HeadlineSetTo(before.headline, level, text)), before.messages))
            else c' == c
  {
  }

  /** Events reach a client in the order in which the server's operations caused them. */
  lemma FlightInOrder(w: World, op: Operation, e: Event, rest: seq<Event>)
    ensures Next(w, Operate(op)).client == w.client && Next(w, Operate(op)).server == Perform(w.server, op)
    ensures Emitted(w.server, op) == Some(e) ==> Next(w, Operate(op)).flight == w.flight + [e]
    ensures Emitted(w.server, op) == None ==> Next(w, Operate(op)).flight == w.flight
    ensures w.flight == [e] + rest ==> Next(w, Deliver) == World(w.server, rest, Apply(w.client, e))
    ensures w.flight == [] ==> Next(w, Deliver) == w
  {
    assert w.flight + [] == w.flight;
    if w.flight == [e] + rest { assert w.flight[1..] == rest; }
  }
}
