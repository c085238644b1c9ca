/** Building the next report of a data streamer from its walker. */
module Streamers {
  import opened Basics
  import opened Streams
  import opened ReadingLog
  import opened SensorLogs
  import opened Formats

  const HEADER_SIZE := 20
  const FOOTER_SIZE := 24
  const READING_SIZE := 16

  datatype Outcome =
    | NoAuth
    | NoReportId
    | NoData
    | TooSmall
    | Unsupported
    | Report(readings: seq<Reading>, highestId: nat)

  predicate RequiresSigning(f: Format) { f.SignedListUserKey? || f.SignedListDeviceKey? }
  predicate RequiresId(f: Format) { !f.Individual? }

  /** How many readings fit in a hashed list of at most maxSize bytes. */
  function MaxReadings(maxSize: int): int { (maxSize - HEADER_SIZE - FOOTER_SIZE) / READING_SIZE }

  /** Popping up to n readings, stopping when a pop fails. */
  function Drain(w: Walker, data: seq<Reading>, n: nat): (seq<Reading>, Walker) {
    if n == 0 then ([], w)
    else
      var (rs, w') := Drain(w, data, n - 1);
      if |rs| < n - 1 then (rs, w')
      else
        var (r, w'') := Pop(w', data);
        (if r.Some? then rs + [r.value] else rs, w'')
  }

  function HighestId(rs: seq<Reading>): nat {
    if rs == [] then 0
    else
      var h := HighestId(rs[..|rs| - 1]);
      if rs[|rs| - 1].id > h then rs[|rs| - 1].id else h
  }

  lemma {:induction false} HighestIdBounds(rs: seq<Reading>)
    ensures forall i | 0 <= i < |rs| :: rs[i].id <= HighestId(rs)
    ensures rs != [] ==> exists i :: 0 <= i < |rs| && rs[i].id == HighestId(rs)
  {
    if rs != [] {
      var p := rs[..|rs| - 1];
      HighestIdBounds(p);
      forall i | 0 <= i < |rs| ensures rs[i].id <= HighestId(rs) {
        if i < |p| { assert p[i] == rs[i]; }
      }
      if rs[|rs| - 1].id <= HighestId(p) && p != [] {
        var i :| 0 <= i < |p| && p[i].id == HighestId(p);
        assert rs[i].id == HighestId(rs);
      } else {
        assert rs[|rs| - 1].id == HighestId(rs);
      }
    }
  }

  /** Draining a walker that agrees with the log takes its first waiting readings in
      order and leaves the rest. */
  lemma {:induction false} DrainTakesFirst(w: Walker, data: seq<Reading>, n: nat)
    requires Synced(w, data)
    ensures var (rs, w') := Drain(w, data, n);
            var m := Min(n, |Waiting(w, data)|);
            && rs == Waiting(w, data)[..m]
            && Synced(w', data) && w'.sel == w.sel
            && Waiting(w', data) == Waiting(w, data)[m..]
  {
    if n > 0 {
      DrainTakesFirst(w, data, n - 1);
      var (rs, w') := Drain(w, data, n - 1);
      PopTakesFirst(w', data);
    }
  }

  /** What a streamer's next report is, and the walker after it. */
  function NextReport(w: Walker, data: seq<Reading>, f: Format, t: ReportType, maxSize: int,
                      hasAuth: bool, hasId: bool): (Outcome, Walker)
  {
    if RequiresSigning(f) && !hasAuth then (NoAuth, w)
    else if RequiresId(f) && !hasId then (NoReportId, w)
    else if f.Individual? then
      var (r, w') := Pop(w, data);
      (if r.None? then NoData else if t.Synchronous? then Unsupported else Report([r.value], r.value.id), w')
    else if f.HashedList? then
      if MaxReadings(maxSize) <= 0 then (TooSmall, w)
      else
        var (rs, w') := Drain(w, data, MaxReadings(maxSize));
        (if rs == [] then NoData else Report(rs, HighestId(rs)), w')
    else (Unsupported, w)
  }

  /** A hashed list holds exactly the first waiting readings that fit, in order; it is
      not larger than allowed but would be with one reading more, unless none is left;
      it reports their largest id and takes exactly them off the walker. */
  lemma HashedListReport(w: Walker, data: seq<Reading>, t: ReportType, maxSize: int, hasAuth: bool)
    requires Synced(w, data)
    ensures var (out, w') := NextReport(w, data, HashedList, t, maxSize, hasAuth, true);
            && Synced(w', data) && w'.count == w.count - (if out.Report? then |out.readings| else 0)
            && (out == TooSmall <==> maxSize < HEADER_SIZE + FOOTER_SIZE + READING_SIZE)
            && (out == NoData <==> out != TooSmall && Waiting(w, data) == [])
            && (out.Report? ==>
                  && 0 < |out.readings| <= |Waiting(w, data)|
                  && out.readings + Waiting(w', data) == Waiting(w, data)
                  && HEADER_SIZE + FOOTER_SIZE + READING_SIZE * |out.readings| <= maxSize
                  && (Waiting(w', data) != [] ==>
                        HEADER_SIZE + FOOTER_SIZE + READING_SIZE * (|out.readings| + 1) > maxSize)
                  && (forall i | 0 <= i < |out.readings| :: out.readings[i].id <= out.highestId)
                  && exists i :: 0 <= i < |out.readings| && out.readings[i].id == out.highestId)
            && (!out.Report? ==> w' == w)
  {
    if MaxReadings(maxSize) > 0 {
      DrainTakesFirst(w, data, MaxReadings(maxSize));
      var (rs, w') := Drain(w, data, MaxReadings(maxSize));
      HighestIdBounds(rs);
      if Waiting(w, data) == [] { DrainNothing(w, data, MaxReadings(maxSize)); }
    }
  }

  lemma {:induction false} DrainNothing(w: Walker, data: seq<Reading>, n: nat)
    requires Synced(w, data) && Waiting(w, data) == []
    ensures Drain(w, data, n) == ([], w)
  {
    if n > 0 { DrainNothing(w, data, n - 1); }
  }

  function Reported(out: Outcome): seq<Reading> { if out.Report? then out.readings else [] }

  /** Whatever report is asked for, with whatever result: the readings in it and those still
      waiting are the ones that were waiting before if and only if it is not a synchronous
      individual report while something is waiting. */
  lemma TakenIsReported(w: Walker, data: seq<Reading>, f: Format, t: ReportType, maxSize: int, hasAuth: bool,
                        hasId: bool)
    requires Synced(w, data)
    ensures var (out, w') := NextReport(w, data, f, t, maxSize, hasAuth, hasId);
            && Synced(w', data)
            && (Reported(out) + Waiting(w', data) == Waiting(w, data) <==>
                !(f.Individual? && t.Synchronous? && Waiting(w, data) != []))
  {
    PopTakesFirst(w, data);
    if f.HashedList? && hasId { HashedListReport(w, data, t, maxSize, hasAuth); }
    if f.Individual? && Waiting(w, data) != [] {
      assert Waiting(w, data) == [Waiting(w, data)[0]] + Waiting(w, data)[1..];
    }
  }

  /** A synchronous individual report takes a reading off the walker and then fails: the
      reading is in no report. */
  lemma SynchronousLosesReading(w: Walker, data: seq<Reading>, maxSize: int, hasAuth: bool, hasId: bool)
    requires Synced(w, data) && Waiting(w, data) != []
    ensures var (out, w') := NextReport(w, data, Individual, Synchronous, maxSize, hasAuth, hasId);
            out == Unsupported && Synced(w', data) && Waiting(w', data) == Waiting(w, data)[1..]
  {
    PopTakesFirst(w, data);
  }

  class DataStreamer {
    const walker: BufferedStreamWalker
    const format: Format
    const reportType: ReportType

    constructor (walker: BufferedStreamWalker, format: Format, reportType: ReportType)
      ensures this.walker == walker && this.format == format && this.reportType == reportType
    {
      this.walker, this.format, this.reportType := walker, format, reportType;
    }

    method BuildReport(maxSize: int, hasAuth: bool, hasId: bool) returns (out: Outcome)
      modifies walker
      ensures (out, walker.View()) ==
              NextReport(old(walker.View()), walker.Data(), format, reportType, maxSize, hasAuth, hasId)
    {
      if RequiresSigning(format) && !hasAuth { return NoAuth; }
      if RequiresId(format) && !hasId { return NoReportId; }
      if format.Individual? {
        var r := walker.Pop();
        if r.None? { return NoData; }
        if reportType.Synchronous? { return Unsupported; }
        return Report([r.value], r.value.id);
      } else if format.HashedList? {
        out := BuildHashedList(maxSize);
      } else {
        return Unsupported;
      }
    }

    method BuildHashedList(maxSize: int) returns (out: Outcome)
      modifies walker
      ensures if MaxReadings(maxSize) <= 0 then out == TooSmall && walker.View() == old(walker.View())
              else var (rs, w) := Drain(old(walker.View()), walker.Data(), MaxReadings(maxSize));
                   walker.View() == w && out == if rs == [] then NoData else Report(rs, HighestId(rs))
    {
      var maxReadings := (maxSize - HEADER_SIZE - FOOTER_SIZE) / READING_SIZE;
      if maxReadings <= 0 { return TooSmall; }
      var readings: seq<Reading> := [];
      var highestId: nat := 0;
      ghost var was, data := walker.View(), walker.Data();
      while |readings| < maxReadings
        invariant |readings| <= maxReadings
        invariant Drain(was, data, |readings|) == (readings, walker.View())
        invariant walker.Data() == data && highestId == HighestId(readings)
      {
        var r := walker.Pop();
        if r.None? {
          DrainStops(was, data, |readings| + 1, maxReadings);
          break;
        }
        assert (readings + [r.value])[..|readings|] == readings;
        readings := readings + [r.value];
        if r.value.id > highestId { highestId := r.value.id; }
      }
      if readings == [] { return NoData; }
      return Report(readings, highestId);
    }
  }

  lemma {:induction false} DrainStops(w: Walker, data: seq<Reading>, k: nat, n: nat)
    requires k <= n && |Drain(w, data, k).0| < k
    ensures Drain(w, data, n) == Drain(w, data, k)
  {
    if k < n { DrainStops(w, data, k, n - 1); }
  }
}
