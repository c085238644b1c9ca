/** Which report comes out of a streamer, in numbers. */
module ReportOutcomes {
  import opened Basics
  import opened Formats
  import opened Streams
  import opened ReadingLog
  import opened Streamers

  /** What is missing is noticed first: a key for the signed formats, then a report id for all formats
      but the individual one.  Signed lists are not built at all.  Nothing is taken off the walker. */
  lemma Refused(w: Walker, data: seq<Reading>, f: Format, t: ReportType, maxSize: int, hasAuth: bool, hasId: bool)
    ensures var next := NextReport(w, data, f, t, maxSize, hasAuth, hasId);
            if f in {SignedListUserKey, SignedListDeviceKey}
            then next == (if !hasAuth then (NoAuth, w) else if !hasId then (NoReportId, w) else (Unsupported, w))
            else if f == HashedList then
              (!hasId ==> next == (NoReportId, w)) && (hasId && maxSize < 60 ==> next == (TooSmall, w))
            else next.0 !in {NoAuth, NoReportId, TooSmall}
  {
  }

  /** An individual report holds the first waiting reading and tells its id, and takes it off the
      walker. */
  lemma IndividualReport(w: Walker, data: seq<Reading>, t: ReportType, maxSize: int, hasAuth: bool, hasId: bool)
    requires Synced(w, data)
    ensures var (out, w') := NextReport(w, data, Individual, t, maxSize, hasAuth, hasId);
            if Waiting(w, data) == [] then out == NoData && w' == w
            else
              && out == (if t == Synchronous then Unsupported
                         else Report([Waiting(w, data)[0]], Waiting(w, data)[0].id))
              && Synced(w', data) && w'.sel == w.sel && Waiting(w', data) == Waiting(w, data)[1..]
  {
    PopTakesFirst(w, data);
  }

  /** A hashed list of at most maxSize bytes takes 44 of them and 16 for each reading: it holds as many
      of the first waiting readings as fit, tells their largest id, and takes them off the walker. */
  lemma HashedReport(w: Walker, data: seq<Reading>, t: ReportType, maxSize: int, hasAuth: bool)
    requires Synced(w, data) && maxSize >= 60
    ensures var (out, w') := NextReport(w, data, HashedList, t, maxSize, hasAuth, true);
            var waiting, n := Waiting(w, data), Min((maxSize - 44) / 16, |Waiting(w, data)|);
            && 0 <= n <= |waiting| && Synced(w', data) && Waiting(w', data) == waiting[n..]
            && if n == 0 then out == NoData && w' == w
               else
                 && out.Report? && out.readings == waiting[..n]
                 && (forall i | 0 <= i < n :: waiting[i].id <= out.highestId)
                 && (exists i :: 0 <= i < n && waiting[i].id == out.highestId)
  {
    var n := (maxSize - 44) / 16;
    DrainTakesFirst(w, data, n);
    LargestId(Waiting(w, data), Min(n, |Waiting(w, data)|));
    if Waiting(w, data) == [] { DrainNothing(w, data, n); }
  }

  lemma LargestId(rs: seq<Reading>, n: nat)
    requires n <= |rs|
    ensures forall i | 0 <= i < n :: rs[i].id <= HighestId(rs[..n])
    ensures n > 0 ==> exists i :: 0 <= i < n && rs[i].id == HighestId(rs[..n])
  {
    var first := rs[..n];
    HighestIdBounds(first);
    forall i | 0 <= i < n ensures rs[i].id <= HighestId(first) { assert first[i] == rs[i]; }
    if n > 0 {
      var i :| 0 <= i < |first| && first[i].id == HighestId(first);
      assert rs[i].id == HighestId(first);
    }
  }
}
