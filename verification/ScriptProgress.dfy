/** Every command that is handled is the oldest one, and every write that is taken brings the end of
    all scripts one write nearer. */
module ScriptProgress {
  import opened Bytes
  import opened ScriptSending

  /** The oldest command is handled: a taken write is the next 20 bytes of its script, or what is left
      of it, after which it goes on behind the other commands unless it is done; a rejected one is
      queued again, and a failed one is reported. */
  lemma OldestIsHandled(w: Worker, o: Outcome, c: Command, rest: seq<Command>)
    requires w.queue == [c] + rest && c.loc <= |c.data|
    ensures var end := if c.loc + 20 < |c.data| then c.loc + 20 else |c.data|;
            var w' := Next(w, Work(o));
            && w'.submitted == w.submitted
            && w'.queue == rest + (if o == TooFast then [c]
                                   else if o == Taken && end < |c.data| then [SendScript(c.job, c.data, end)] else [])
            && w'.writes == w.writes + (if o == Taken then [Write(c.job, c.data[c.loc..end])] else [])
            && w'.reports == w.reports + (if o == Failed then [Report(c.job, false)]
                                          else if o == Taken && end == |c.data| then [Report(c.job, true)] else [])
  {
    assert w.queue[0] == c && w.queue[1..] == rest;
  }

  /** A script that is submitted waits behind the others from its first byte on. */
  lemma SubmittedWaits(w: Worker, data: seq<byte>)
    ensures var w' := Next(w, Submit(data));
            && w'.submitted == w.submitted + [data] && w'.queue == w.queue + [SendScript(|w.submitted|, data, 0)]
            && w'.writes == w.writes && w'.reports == w.reports
  {
  }

  // ----- Writes to go --------------------------------------------------------------------------

  function ToGo(c: Command): nat {
    if c.loc <= |c.data| then WritesNeeded(|c.data| - c.loc) else 0
  }

  function AllToGo(queue: seq<Command>): nat {
    if queue == [] then 0 else ToGo(queue[0]) + AllToGo(queue[1..])
  }

  lemma {:induction false} ToGoAfter(queue: seq<Command>, c: Command)
    ensures AllToGo(queue + [c]) == AllToGo(queue) + ToGo(c)
  {
    if queue == [] {
      assert [c][1..] == [];
    } else {
      ToGoAfter(queue[1..], c);
      assert (queue + [c])[1..] == queue[1..] + [c];
    }
  }

  predicate AllProper(queue: seq<Command>) { forall i | 0 <= i < |queue| :: Proper(queue[i]) }

  /** A taken write is one less to go, and a rejected one changes nothing. */
  lemma OneLessToGo(w: Worker, o: Outcome)
    requires w.queue != [] && AllProper(w.queue) && o != Failed
    ensures var w' := Next(w, Work(o));
            AllProper(w'.queue) && AllToGo(w'.queue) == AllToGo(w.queue) - if o == Taken then 1 else 0
  {
    var c, rest := w.queue[0], w.queue[1..];
    OldestIsHandled(w, o, c, rest);
    ToGoAfter(rest, c);
    ToGoAfter(rest, SendScript(c.job, c.data, c.loc + 20));
    assert rest + [] == rest;
  }

  lemma {:induction false} NothingToGo(queue: seq<Command>)
    requires AllProper(queue)
    ensures AllToGo(queue) == 0 <==> queue == []
  {
  }

  function CountTaken(outcomes: seq<Outcome>): nat {
    if outcomes == [] then 0
    else CountTaken(outcomes[..|outcomes| - 1]) + if outcomes[|outcomes| - 1] == Taken then 1 else 0
  }

  /** As long as no write fails, the queue becomes empty, with every script reported, exactly when as
      many writes have been taken as all scripts in it need. */
  lemma {:induction false} QueueEmpties(w: Worker, outcomes: seq<Outcome>)
    requires AllProper(w.queue) && Failed !in outcomes && CountTaken(outcomes) <= AllToGo(w.queue)
    ensures var w' := AfterWork(w, outcomes);
            && AllProper(w'.queue) && AllToGo(w'.queue) == AllToGo(w.queue) - CountTaken(outcomes)
            && (w'.queue == [] <==> CountTaken(outcomes) == AllToGo(w.queue))
  {
    if outcomes != [] {
      var front := outcomes[..|outcomes| - 1];
      QueueEmpties(w, front);
      var before := AfterWork(w, front);
      if before.queue != [] { OneLessToGo(before, outcomes[|outcomes| - 1]); }
    }
    NothingToGo(AfterWork(w, outcomes).queue);
  }
}
