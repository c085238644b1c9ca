/** Sending scripts to devices in small writes, one write per command; every next write is
    queued behind the commands of other devices, and a rejected one is queued again. */
module ScriptSending {
  import opened Basics
  import opened Bytes

  /** Go on with the script of a job at a position. */
  datatype Command = SendScript(job: nat, data: seq<byte>, loc: nat)

  /** What becomes of a write: taken, rejected as coming too fast, or failed otherwise. */
  datatype Outcome = Taken | TooFast | Failed

  datatype Write = Write(job: nat, chunk: seq<byte>)
  datatype Report = Report(job: nat, success: bool)

  /** Scripts submitted so far, the command queue, the writes that were taken, and the jobs
      reported as ended. */
  datatype Worker = Worker(submitted: seq<seq<byte>>, queue: seq<Command>, writes: seq<Write>, reports: seq<Report>)

  datatype Event = Submit(data: seq<byte>) | Work(outcome: Outcome)

  const START := Worker([], [], [], [])

  function ChunkSize(length: nat, loc: nat): (n: nat)
    requires loc <= length
    ensures loc + n <= length && n <= 20
  {
    if length - loc < 20 then length - loc else 20
  }

  predicate Proper(c: Command) { c.loc <= |c.data| }

  /** What handling a command adds to the queue, the writes and the reports. */
  function Handle(w: Worker, c: Command, o: Outcome): Worker
    requires Proper(c)
  {
    var n := ChunkSize(|c.data|, c.loc);
    match o
    case TooFast => w.(queue := w.queue + [c])
    case Failed => w.(reports := w.reports + [Report(c.job, false)])
    case Taken =>
      var w' := w.(writes := w.writes + [Write(c.job, c.data[c.loc..c.loc + n])]);
      if c.loc + n != |c.data| then w'.(queue := w.queue + [c.(loc := c.loc + n)])
      else w'.(reports := w.reports + [Report(c.job, true)])
  }

  function Next(w: Worker, e: Event): Worker {
    match e
    case Submit(data) => w.(submitted := w.submitted + [data], queue := w.queue + [SendScript(|w.submitted|, data, 0)])
    case Work(o) =>
      if w.queue == [] || !Proper(w.queue[0]) then w
      else Handle(w.(queue := w.queue[1..]), w.queue[0], o)
  }

  function Run(events: seq<Event>): Worker {
    if events == [] then START else Next(Run(events[..|events| - 1]), events[|events| - 1])
  }

  // ----- What happened to a job -------------------------------------------------------------

  /** The bytes written for a job, joined. */
  function Written(writes: seq<Write>, job: nat): seq<byte> {
    if writes == [] then []
    else
      var last := writes[|writes| - 1];
      Written(writes[..|writes| - 1], job) + if last.job == job then last.chunk else []
  }

  /** How many writes for a job were taken. */
  function TakenFor(writes: seq<Write>, job: nat): nat {
    if writes == [] then 0
    else TakenFor(writes[..|writes| - 1], job) + Bit(writes[|writes| - 1].job == job)
  }

  /** How many writes a script of this length takes. */
  function WritesNeeded(length: nat): nat { if length == 0 then 1 else (length + 19) / 20 }

  /** What was reported for a job. */
  function Reported(reports: seq<Report>, job: nat): seq<bool> {
    if reports == [] then []
    else
      var last := reports[|reports| - 1];
      Reported(reports[..|reports| - 1], job) + if last.job == job then [last.success] else []
  }

  lemma WrittenOneMore(writes: seq<Write>, last: Write, job: nat)
    ensures Written(writes + [last], job) == Written(writes, job) + if last.job == job then last.chunk else []
    ensures TakenFor(writes + [last], job) == TakenFor(writes, job) + Bit(last.job == job)
  {
    assert (writes + [last])[..|writes|] == writes;
  }

  lemma ReportedOneMore(reports: seq<Report>, last: Report, job: nat)
    ensures Reported(reports + [last], job) == Reported(reports, job) + if last.job == job then [last.success] else []
  {
    assert (reports + [last])[..|reports|] == reports;
  }

  /** The command goes on where the writes for its job stopped, after so many of 20 bytes. */
  predicate Going(w: Worker, c: Command) {
    && c.job < |w.submitted| && c.data == w.submitted[c.job]
    && Proper(c) && (c.loc < |c.data| || c.loc == 0)
    && Written(w.writes, c.job) == c.data[..c.loc] && Reported(w.reports, c.job) == []
    && c.loc == 20 * TakenFor(w.writes, c.job)
  }

  predicate IsPrefix(s: seq<byte>, t: seq<byte>) { s <= t }

  /** The job was reported once: as done with all its bytes written, in as many writes as it
      takes, or as failed with some first part of them written, in fewer. */
  predicate Ended(w: Worker, job: nat)
    requires job < |w.submitted|
  {
    var done, bytes, k := Reported(w.reports, job), Written(w.writes, job), TakenFor(w.writes, job);
    && |done| == 1 && IsPrefix(bytes, w.submitted[job])
    && (if done[0] then bytes == w.submitted[job] && k == WritesNeeded(|w.submitted[job]|)
        else k < WritesNeeded(|w.submitted[job]|))
  }

  ghost predicate Queued(queue: seq<Command>, job: nat) { exists i :: 0 <= i < |queue| && queue[i].job == job }

  ghost predicate Single(queue: seq<Command>) {
    forall i, k | 0 <= i < k < |queue| :: queue[i].job != queue[k].job
  }

  ghost predicate Inv(w: Worker) {
    && Single(w.queue)
    && (forall i | 0 <= i < |w.queue| :: Going(w, w.queue[i]))
    && (forall job: nat | job < |w.submitted| && !Queued(w.queue, job) :: Ended(w, job))
    && (forall job: nat | job >= |w.submitted| :: Unknown(w, job))
  }

  /** Nothing was written or reported for the job. */
  predicate Unknown(w: Worker, job: nat) {
    Written(w.writes, job) == [] && TakenFor(w.writes, job) == 0 && Reported(w.reports, job) == []
  }

  lemma SubmitKeeps(w: Worker, data: seq<byte>)
    requires Inv(w)
    ensures Inv(Next(w, Submit(data)))
  {
    var w' := Next(w, Submit(data));
    assert Unknown(w, |w.submitted|);
    forall i | 0 <= i < |w'.queue| ensures Going(w', w'.queue[i]) {
      if i < |w.queue| { assert Going(w, w.queue[i]); }
    }
    forall job: nat | job < |w'.submitted| && !Queued(w'.queue, job) ensures Ended(w', job) {
      QueuedOneMore(w.queue, SendScript(|w.submitted|, data, 0), job);
      assert Ended(w, job);
    }
    forall job: nat | job >= |w'.submitted| ensures Unknown(w', job) {
      assert Unknown(w, job);
    }
  }

  lemma QueuedOneMore(queue: seq<Command>, c: Command, job: nat)
    ensures Queued(queue + [c], job) <==> Queued(queue, job) || c.job == job
  {
    assert (queue + [c])[|queue|] == c;
    if Queued(queue, job) {
      var i :| 0 <= i < |queue| && queue[i].job == job;
      assert (queue + [c])[i].job == job;
    }
  }

  lemma QueuedFirst(queue: seq<Command>, job: nat)
    requires queue != []
    ensures Queued(queue, job) <==> queue[0].job == job || Queued(queue[1..], job)
  {
    if Queued(queue[1..], job) {
      var i :| 0 <= i < |queue[1..]| && queue[1..][i].job == job;
      assert queue[i + 1].job == job;
    }
    if Queued(queue, job) && queue[0].job != job {
      var i :| 0 <= i < |queue| && queue[i].job == job;
      assert queue[1..][i - 1].job == job;
    }
  }

  /** Jobs other than the handled one are where they were. */
  lemma OthersKeep(w: Worker, c: Command, o: Outcome, job: nat)
    requires Proper(c) && job != c.job
    ensures var w' := Handle(w, c, o);
            && Written(w'.writes, job) == Written(w.writes, job) && TakenFor(w'.writes, job) == TakenFor(w.writes, job)
            && Reported(w'.reports, job) == Reported(w.reports, job)
            && (Queued(w'.queue, job) <==> Queued(w.queue, job))
  {
    var n := ChunkSize(|c.data|, c.loc);
    WrittenOneMore(w.writes, Write(c.job, c.data[c.loc..c.loc + n]), job);
    ReportedOneMore(w.reports, Report(c.job, true), job);
    ReportedOneMore(w.reports, Report(c.job, false), job);
    QueuedOneMore(w.queue, c, job);
    QueuedOneMore(w.queue, c.(loc := c.loc + n), job);
  }

  lemma TakenGoesOn(w: Worker, c: Command)
    requires Going(w, c)
    ensures var n, w' := ChunkSize(|c.data|, c.loc), Handle(w, c, Taken);
            && Written(w'.writes, c.job) == c.data[..c.loc + n]
            && TakenFor(w'.writes, c.job) == TakenFor(w.writes, c.job) + 1
            && Reported(w'.reports, c.job) == if c.loc + n == |c.data| then [true] else []
  {
    TakenIsWritten(w, c, c.data[c.loc..c.loc + ChunkSize(|c.data|, c.loc)]);
    ReportedOneMore(w.reports, Report(c.job, true), c.job);
    OneMorePiece(c.data, c.loc, ChunkSize(|c.data|, c.loc));
  }

  lemma TakenIsWritten(w: Worker, c: Command, piece: seq<byte>)
    requires Proper(c) && piece == c.data[c.loc..c.loc + ChunkSize(|c.data|, c.loc)]
    ensures var w' := Handle(w, c, Taken);
            && Written(w'.writes, c.job) == Written(w.writes, c.job) + piece
            && TakenFor(w'.writes, c.job) == TakenFor(w.writes, c.job) + 1
  {
    WrittenOneMore(w.writes, Write(c.job, piece), c.job);
  }

  lemma OneMorePiece(data: seq<byte>, loc: nat, n: nat)
    requires loc + n <= |data|
    ensures data[..loc] + data[loc..loc + n] == data[..loc + n]
  {
  }

  lemma LastTakenEnds(w: Worker, c: Command)
    requires Going(w, c) && c.loc + ChunkSize(|c.data|, c.loc) == |c.data|
    ensures Handle(w, c, Taken).queue == w.queue && Ended(Handle(w, c, Taken), c.job)
  {
    TakenGoesOn(w, c);
    assert c.data[..|c.data|] == c.data;
  }

  lemma EarlierTakenGoesOn(w: Worker, c: Command, d: Command)
    requires Going(w, c) && c.loc + ChunkSize(|c.data|, c.loc) < |c.data| && d == c.(loc := c.loc + 20)
    ensures Handle(w, c, Taken).queue == w.queue + [d] && Going(Handle(w, c, Taken), d)
  {
    TakenGoesOn(w, c);
  }

  lemma FailedEnds(w: Worker, c: Command)
    requires Going(w, c)
    ensures Handle(w, c, Failed).queue == w.queue && Ended(Handle(w, c, Failed), c.job)
  {
    ReportedOneMore(w.reports, Report(c.job, false), c.job);
  }

  /** The handled job goes on behind the others, or it is ended. */
  lemma OneGoesOn(w: Worker, c: Command, o: Outcome)
    requires Going(w, c)
    ensures var w' := Handle(w, c, o);
            if w'.queue == w.queue then Ended(w', c.job)
            else exists d :: w'.queue == w.queue + [d] && Going(w', d) && d.job == c.job
  {
    var w' := Handle(w, c, o);
    match o
    case TooFast => assert w'.queue == w.queue + [c] && Going(w', c);
    case Failed => FailedEnds(w, c);
    case Taken =>
      if c.loc + ChunkSize(|c.data|, c.loc) == |c.data| {
        LastTakenEnds(w, c);
      } else {
        EarlierTakenGoesOn(w, c, c.(loc := c.loc + 20));
      }
  }

  lemma GoingKept(w: Worker, w': Worker, c: Command)
    requires Going(w, c) && w'.submitted == w.submitted
    requires Written(w'.writes, c.job) == Written(w.writes, c.job)
    requires TakenFor(w'.writes, c.job) == TakenFor(w.writes, c.job)
    requires Reported(w'.reports, c.job) == Reported(w.reports, c.job)
    ensures Going(w', c)
  {
  }

  /** Handling the first command of the queue keeps every job going or ended. */
  lemma WorkKeeps(w: Worker, o: Outcome)
    requires Inv(w) && w.queue != []
    ensures Inv(Handle(w.(queue := w.queue[1..]), w.queue[0], o))
  {
    var c, rest := w.queue[0], w.(queue := w.queue[1..]);
    var w' := Handle(rest, c, o);
    assert Going(w, c) && Going(rest, c);
    OneGoesOn(rest, c, o);
    forall i | 0 <= i < |rest.queue| ensures Going(w', rest.queue[i]) && rest.queue[i].job != c.job {
      assert rest.queue[i] == w.queue[i + 1];
      OthersKeep(rest, c, o, rest.queue[i].job);
      GoingKept(w, w', w.queue[i + 1]);
    }
    forall job: nat | job < |w'.submitted| && !Queued(w'.queue, job) ensures Ended(w', job) {
      WorkEnds(w, o, job);
    }
    forall job: nat | job >= |w'.submitted| ensures Unknown(w', job) {
      assert Unknown(w, job);
      OthersKeep(rest, c, o, job);
    }
  }

  lemma WorkEnds(w: Worker, o: Outcome, job: nat)
    requires Inv(w) && w.queue != [] && job < |w.submitted|
    requires Going(w, w.queue[0]) && !Queued(Handle(w.(queue := w.queue[1..]), w.queue[0], o).queue, job)
    ensures Ended(Handle(w.(queue := w.queue[1..]), w.queue[0], o), job)
  {
    var c, rest := w.queue[0], w.(queue := w.queue[1..]);
    var w' := Handle(rest, c, o);
    if job == c.job {
      assert Going(rest, c);
      OneGoesOn(rest, c, o);
      if w'.queue != rest.queue {
        var d :| w'.queue == rest.queue + [d] && d.job == c.job;
        QueuedOneMore(rest.queue, d, job);
      }
    } else {
      OthersKeep(rest, c, o, job);
      QueuedFirst(w.queue, job);
      assert Ended(w, job);
    }
  }

  lemma NextKeeps(w: Worker, e: Event)
    requires Inv(w)
    ensures Inv(Next(w, e))
  {
    match e
    case Submit(data) => SubmitKeeps(w, data);
    case Work(o) => if w.queue != [] { assert Going(w, w.queue[0]); WorkKeeps(w, o); }
  }

  /** Whatever writes are rejected and however scripts of other devices come in between, a
      submitted script is either waiting to go on exactly where its writes stopped, or was
      reported once: as done with exactly its bytes written in order, or as failed. */
  lemma {:induction false} EveryScriptAccountedFor(events: seq<Event>)
    ensures Inv(Run(events))
  {
    if events != [] {
      EveryScriptAccountedFor(events[..|events| - 1]);
      NextKeeps(Run(events[..|events| - 1]), events[|events| - 1]);
    }
  }

  // ----- Enough taken writes finish a script ---------------------------------------------------

  /** In any run, with any scripts in between and any number of rejections: a script that did not
      fail is done, and reported so, exactly when as many of its own writes were taken as it has
      pieces; before that it waits to go on after these. */
  lemma BackPressureOnlyDelays(events: seq<Event>, job: nat)
    requires job < |Run(events).submitted|
    ensures var w := Run(events);
            var k, needed := TakenFor(w.writes, job), WritesNeeded(|w.submitted[job]|);
            && k <= needed
            && (Reported(w.reports, job) == [true] <==> k == needed)
            && (Reported(w.reports, job) == [] <==> Queued(w.queue, job))
            && (Queued(w.queue, job) ==> SendScript(job, w.submitted[job], 20 * k) in w.queue)
  {
    var w := Run(events);
    EveryScriptAccountedFor(events);
    if Queued(w.queue, job) {
      var i :| 0 <= i < |w.queue| && w.queue[i].job == job;
      assert Going(w, w.queue[i]);
    } else {
      assert Ended(w, job);
      SingleReport(Reported(w.reports, job));
    }
  }

  lemma SingleReport(done: seq<bool>)
    requires |done| == 1
    ensures done == [true] <==> done[0]
  {
  }

  // ----- As code -----------------------------------------------------------------------------------

  class CommandProcessor {
    var commands: seq<Command>
    var writes: seq<Write>
    var callbacks: seq<Report>
    ghost var submitted: seq<seq<byte>>

    constructor ()
      ensures View() == START
    {
      commands, writes, callbacks, submitted := [], [], [], [];
    }

    ghost function View(): Worker
      reads this
    {
      Worker(submitted, commands, writes, callbacks)
    }

    /** Handle one command that goes on with a script; `o` is what the device answers.  The
        callback is called unless the command was queued again. */
    method SendNext(job: nat, data: seq<byte>, loc: nat, o: Outcome)
      requires loc <= |data|
      modifies this
      ensures View() == Handle(old(View()), SendScript(job, data, loc), o)
    {
      var chunkSize := 20;
      if |data| - loc < 20 { chunkSize := |data| - loc; }
      var chunk := data[loc..loc + chunkSize];
      if o == TooFast {
        commands := commands + [SendScript(job, data, loc)];
        return;
      }
      if o == Failed {
        callbacks := callbacks + [Report(job, false)];
        return;
      }
      writes := writes + [Write(job, chunk)];
      if loc + chunkSize != |data| {
        commands := commands + [SendScript(job, data, loc + chunkSize)];
        return;
      }
      callbacks := callbacks + [Report(job, true)];
    }

    /** Take commands off the queue, one for each answer of the device, as long as there are any. */
    method Process(outcomes: seq<Outcome>)
      requires Inv(View())
      modifies this
      ensures Inv(View()) && submitted == old(submitted)
      ensures View() == AfterWork(old(View()), outcomes)
    {
      for i := 0 to |outcomes|
        invariant Inv(View()) && submitted == old(submitted)
        invariant View() == AfterWork(old(View()), outcomes[..i])
      {
        assert outcomes[..i + 1][..i] == outcomes[..i];
        NextKeeps(View(), Work(outcomes[i]));
        if commands != [] {
          assert Going(View(), commands[0]);
          var c := commands[0];
          commands := commands[1..];
          SendNext(c.job, c.data, c.loc, outcomes[i]);
        }
      }
      assert outcomes[..|outcomes|] == outcomes;
    }
  }

  function AfterWork(w: Worker, outcomes: seq<Outcome>): Worker {
    if outcomes == [] then w else Next(AfterWork(w, outcomes[..|outcomes| - 1]), Work(outcomes[|outcomes| - 1]))
  }
}
