/** The MMI log analyzer: speed statistics over the MMI speed samples, the
    event-type distribution with the error and critical events, the
    bookkeeping of operation-mode changes, and the intervals between
    errors. */
module MmiAnalyzer {
  import opened Common
  import opened Stats
  import opened MmiRecords

  /** Speeds strictly above this, in km/h, are over speed. */
  const SpeedThreshold: real := 90.0

  /** `np.max` of an empty array raises ValueError; indexing an empty payload
      raises IndexError. */
  datatype Failure = ValueError | IndexError

  // ---------------------------------------------------------------------------
  // Speed statistics.
  // ---------------------------------------------------------------------------

  datatype AccelStats = AccelStats(
    maxAcceleration: real,
    maxDeceleration: real,
    avgAcceleration: Option<real>,
    avgDeceleration: Option<real>)

  /** The speed statistics. `acceleration` is None when two consecutive
      samples share a timestamp: numpy then divides by zero and the summary
      holds infinities or NaN, which this model does not compute. */
  datatype SpeedStats = SpeedStats(
    maxSpeed: real,
    minSpeed: real,
    avgSpeed: real,
    overSpeedCount: nat,
    totalTime: real,
    acceleration: Option<AccelStats>)

  function SpeedOf(r: MmiSpeedRecord): real
  {
    r.speed
  }

  function TimeOf(r: MmiSpeedRecord): int
  {
    r.timestamp
  }

  /** No two consecutive samples share a timestamp. */
  predicate DistinctSteps(times: seq<int>)
  {
    forall i :: 0 < i < |times| ==> times[i] != times[i - 1]
  }

  /** `dv / dt` over consecutive samples. */
  function Accelerations(speeds: seq<real>, times: seq<int>): (a: seq<real>)
    requires |speeds| == |times| >= 1 && DistinctSteps(times)
    ensures |a| == |speeds| - 1
  {
    seq(|speeds| - 1, i requires 0 <= i < |speeds| - 1 =>
      (speeds[i + 1] - speeds[i]) / ((times[i + 1] - times[i]) as real))
  }

  function Below(threshold: real): real -> bool
  {
    v => v < threshold
  }

  function AccelerationOf(speeds: seq<real>, times: seq<int>): Option<AccelStats>
    requires |speeds| == |times| >= 2
  {
    if !DistinctSteps(times) then None
    else
      var a := Accelerations(speeds, times);
      Some(AccelStats(Max(a), Min(a), MeanOrNaN(Filter(a, Above(0.0))), MeanOrNaN(Filter(a, Below(0.0)))))
  }

  /** `analyze_speed`: no records give the empty result (None). A single
      record leaves no acceleration, and `np.max` of the empty array
      raises. */
  function SpeedAnalysisOf(records: seq<MmiSpeedRecord>): Result<Option<SpeedStats>, Failure>
  {
    if records == [] then Ok(None)
    else if |records| == 1 then Err(ValueError)
    else
      var v, t := MapSeq(records, SpeedOf), MapSeq(records, TimeOf);
      Ok(Some(SpeedStats(Max(v), Min(v), Mean(v), CountAbove(v, SpeedThreshold),
                         (t[|t| - 1] - t[0]) as real / 3600.0, AccelerationOf(v, t))))
  }

  /** The speed statistics: empty for no records, an error for one. The
      average lies between the minimum and the maximum, the over-speed count
      is the number of speeds strictly above 90 km/h, and the total time is
      the last timestamp less the first, in hours. The acceleration summary
      is computed exactly when no two consecutive samples share a time; its
      largest deceleration is at most its largest acceleration, and the mean
      of the positive (negative) accelerations is missing exactly when there
      is none, and is otherwise positive (negative). */
  lemma SpeedAnalysisMeaning(records: seq<MmiSpeedRecord>)
    ensures SpeedAnalysisOf(records) == Ok(None) <==> records == []
    ensures SpeedAnalysisOf(records).Err? <==> |records| == 1
    ensures SpeedAnalysisOf(records).Err? ==> SpeedAnalysisOf(records).error == ValueError
    ensures SpeedAnalysisOf(records).Ok? && SpeedAnalysisOf(records).value.Some? ==>
      var s := SpeedAnalysisOf(records).value.value;
      var v := MapSeq(records, SpeedOf);
      && s.minSpeed <= s.avgSpeed <= s.maxSpeed
      && (forall i :: 0 <= i < |records| ==> s.minSpeed <= records[i].speed <= s.maxSpeed)
      && s.overSpeedCount == Count(v, Above(SpeedThreshold)) <= |records|
      && s.totalTime == (records[|records| - 1].timestamp - records[0].timestamp) as real / 3600.0
      && (s.acceleration.Some? <==> DistinctSteps(MapSeq(records, TimeOf)))
  {
    if |records| >= 2 {
      var v := MapSeq(records, SpeedOf);
      MeanBounds(v);
      CountAboveIsFilter(v, SpeedThreshold);
    }
  }

  lemma AccelerationMeaning(speeds: seq<real>, times: seq<int>)
    requires |speeds| == |times| >= 2 && DistinctSteps(times)
    ensures var s := AccelerationOf(speeds, times).value;
      var a := Accelerations(speeds, times);
      && s.maxDeceleration <= s.maxAcceleration
      && (s.avgAcceleration.Some? <==> exists i :: 0 <= i < |a| && a[i] > 0.0)
      && (s.avgAcceleration.Some? ==> 0.0 < s.avgAcceleration.value <= s.maxAcceleration)
      && (s.avgDeceleration.Some? <==> exists i :: 0 <= i < |a| && a[i] < 0.0)
      && (s.avgDeceleration.Some? ==> s.maxDeceleration <= s.avgDeceleration.value < 0.0)
  {
    var a := Accelerations(speeds, times);
    var up, down := Filter(a, Above(0.0)), Filter(a, Below(0.0));
    forall i | 0 <= i < |a| && a[i] > 0.0 {
      FilterKeeps(a, Above(0.0), a[i]);
    }
    forall i | 0 <= i < |a| && a[i] < 0.0 {
      FilterKeeps(a, Below(0.0), a[i]);
    }
    if up != [] {
      var lo := Min(up);
      var hi := Max(up);
      assert 0.0 < lo && hi <= Max(a) by {
        var j :| 0 <= j < |up| && up[j] == lo;
        var k :| 0 <= k < |up| && up[k] == hi;
        assert hi in a;
      }
    }
    if down != [] {
      var lo := Min(down);
      var hi := Max(down);
      assert hi < 0.0 && Min(a) <= lo by {
        var j :| 0 <= j < |down| && down[j] == lo;
        var k :| 0 <= k < |down| && down[k] == hi;
        assert lo in a;
      }
    }
  }

  // ---------------------------------------------------------------------------
  // Event statistics.
  // ---------------------------------------------------------------------------

  datatype ErrorEntry = ErrorEntry(time: int, data: seq<Byte>)

  datatype CriticalEntry = CriticalEntry(time: int, eventType: MmiEventType, data: seq<Byte>)

  datatype EventTally = EventTally(counts: map<MmiEventType, int>, critical: seq<CriticalEntry>, errors: seq<ErrorEntry>)

  datatype EventStats = EventStats(
    eventCounts: map<MmiEventType, int>,
    criticalEvents: seq<CriticalEntry>,
    errorEvents: seq<ErrorEntry>,
    totalEvents: nat,
    errorCount: nat)

  predicate IsError(r: MmiEventRecord)
  {
    r.eventType == EventError
  }

  /** Shutdowns and mode changes are the critical events. */
  predicate IsCritical(r: MmiEventRecord)
  {
    r.eventType == EventShutdown || r.eventType == EventModeChange
  }

  function ErrorOf(r: MmiEventRecord): ErrorEntry
  {
    ErrorEntry(r.timestamp, r.eventData)
  }

  function CriticalOf(r: MmiEventRecord): CriticalEntry
  {
    CriticalEntry(r.timestamp, r.eventType, r.eventData)
  }

  function OfType(t: MmiEventType): MmiEventRecord -> bool
  {
    (r: MmiEventRecord) => r.eventType == t
  }

  /** One iteration of the loop over the records. */
  function TallyStep(t: EventTally, r: MmiEventRecord): EventTally
  {
    var k := r.eventType;
    var counts := t.counts[k := (if k in t.counts then t.counts[k] else 0) + 1];
    if IsError(r) then EventTally(counts, t.critical, t.errors + [ErrorOf(r)])
    else if IsCritical(r) then EventTally(counts, t.critical + [CriticalOf(r)], t.errors)
    else EventTally(counts, t.critical, t.errors)
  }

  function TallyEvents(records: seq<MmiEventRecord>): EventTally
  {
    if records == [] then EventTally(map[], [], [])
    else TallyStep(TallyEvents(records[..|records| - 1]), records[|records| - 1])
  }

  function EventStatsOf(records: seq<MmiEventRecord>): Option<EventStats>
  {
    if records == [] then None
    else
      var t := TallyEvents(records);
      Some(EventStats(t.counts, t.critical, t.errors, |records|, |t.errors|))
  }

  method AnalyzeEvents(records: seq<MmiEventRecord>) returns (r: Option<EventStats>)
    ensures r == EventStatsOf(records)
  {
    if records == [] {
      return None;
    }
    var eventCounts: map<MmiEventType, int> := map[];
    var criticalEvents: seq<CriticalEntry> := [];
    var errorEvents: seq<ErrorEntry> := [];
    for i := 0 to |records|
      invariant TallyEvents(records[..i]) == EventTally(eventCounts, criticalEvents, errorEvents)
    {
      var record := records[i];
      assert records[..i + 1][..i] == records[..i];
      eventCounts := eventCounts[record.eventType :=
        (if record.eventType in eventCounts then eventCounts[record.eventType] else 0) + 1];
      if record.eventType == EventError {
        errorEvents := errorEvents + [ErrorEntry(record.timestamp, record.eventData)];
      } else if record.eventType == EventShutdown || record.eventType == EventModeChange {
        criticalEvents := criticalEvents + [CriticalEntry(record.timestamp, record.eventType, record.eventData)];
      }
    }
    assert records[..|records|] == records;
    r := Some(EventStats(eventCounts, criticalEvents, errorEvents, |records|, |errorEvents|));
  }

  /** Each event type seen has an entry counting its records, no other type
      has one, and so the counts add up to the number of records. */
  lemma EventCountsMeaning(records: seq<MmiEventRecord>)
    ensures var c := TallyEvents(records).counts;
      && (forall t :: t in c <==> Count(records, OfType(t)) > 0)
      && (forall t :: t in c ==> c[t] == Count(records, OfType(t)))
      && MapTotal(c) == |records|
  {
    EventCountsAre(records);
    EventCountsTotal(records);
  }

  lemma {:induction false} EventCountsAre(records: seq<MmiEventRecord>)
    ensures var c := TallyEvents(records).counts;
      forall t :: (t in c <==> Count(records, OfType(t)) > 0) && (t in c ==> c[t] == Count(records, OfType(t)))
  {
    if records != [] {
      var n := |records| - 1;
      EventCountsAre(records[..n]);
      var before := TallyEvents(records[..n]).counts;
      var k := records[n].eventType;
      assert TallyEvents(records).counts == before[k := (if k in before then before[k] else 0) + 1];
    }
  }

  lemma {:induction false} EventCountsTotal(records: seq<MmiEventRecord>)
    ensures MapTotal(TallyEvents(records).counts) == |records|
  {
    if records != [] {
      var n := |records| - 1;
      EventCountsTotal(records[..n]);
      var before := TallyEvents(records[..n]).counts;
      var k := records[n].eventType;
      assert TallyEvents(records).counts == before[k := (if k in before then before[k] else 0) + 1];
      MapTotalUpdate(before, k, (if k in before then before[k] else 0) + 1);
    }
  }

  /** The error events are the error records and the critical events the
      shutdown and mode-change records, each in input order; no critical
      event is an error. */
  lemma {:induction false} EventListsMeaning(records: seq<MmiEventRecord>)
    ensures TallyEvents(records).errors == MapSeq(Filter(records, IsError), ErrorOf)
    ensures TallyEvents(records).critical == MapSeq(Filter(records, IsCritical), CriticalOf)
    ensures forall c :: c in TallyEvents(records).critical ==> c.eventType != EventError
  {
    if records != [] {
      var n := |records| - 1;
      var r := records[n];
      EventListsMeaning(records[..n]);
      MapSeqAppend(Filter(records[..n], IsError), if IsError(r) then [r] else [], ErrorOf);
      MapSeqAppend(Filter(records[..n], IsCritical), if IsCritical(r) then [r] else [], CriticalOf);
    }
  }

  /** The event statistics: empty for no records; otherwise the total is
      the number of records, the error count the number of error records,
      and the type counts add up to the total. */
  lemma EventStatsMeaning(records: seq<MmiEventRecord>)
    ensures EventStatsOf(records).None? <==> records == []
    ensures EventStatsOf(records).Some? ==>
      var s := EventStatsOf(records).value;
      && s.totalEvents == |records|
      && s.errorCount == Count(records, IsError)
      && MapTotal(s.eventCounts) == s.totalEvents
  {
    EventCountsMeaning(records);
    EventListsMeaning(records);
    FilterLength(records, IsError);
  }

  // ---------------------------------------------------------------------------
  // Operation modes.
  // ---------------------------------------------------------------------------

  datatype ModeChange = ModeChange(time: int, fromMode: Byte, toMode: Byte)

  /** The loop state: the changes so far, the time spent in each mode, the
      current mode and the time it was entered. */
  datatype ModeState = ModeState(changes: seq<ModeChange>, durations: map<Byte, int>, current: Option<Byte>, lastChange: int)

  datatype ModeReport = ModeReport(modeChanges: seq<ModeChange>, modeDurations: map<Byte, int>, totalChanges: nat)

  predicate IsModeChange(r: MmiEventRecord)
  {
    r.eventType == EventModeChange
  }

  /** One iteration: a mode-change record reads its mode from the first
      payload byte (raising on an empty payload); every one but the first
      records a change and credits the elapsed time to the mode left. */
  function ModeStep(s: ModeState, r: MmiEventRecord): Result<ModeState, Failure>
  {
    if !IsModeChange(r) then Ok(s)
    else if r.eventData == [] then Err(IndexError)
    else
      var mode := r.eventData[0];
      if s.current.None? then Ok(ModeState(s.changes, s.durations, Some(mode), r.timestamp))
      else
        var from := s.current.value;
        var elapsed := r.timestamp - s.lastChange;
        var durations := s.durations[from := (if from in s.durations then s.durations[from] else 0) + elapsed];
        Ok(ModeState(s.changes + [ModeChange(r.timestamp, from, mode)], durations, Some(mode), r.timestamp))
  }

  function ModesOf(records: seq<MmiEventRecord>): Result<ModeState, Failure>
  {
    if records == [] then Ok(ModeState([], map[], None, 0))
    else
      var before := ModesOf(records[..|records| - 1]);
      if before.Err? then before else ModeStep(before.value, records[|records| - 1])
  }

  function OperationModesOf(records: seq<MmiEventRecord>): Result<ModeReport, Failure>
  {
    var s := ModesOf(records);
    if s.Err? then Err(s.error) else Ok(ModeReport(s.value.changes, s.value.durations, |s.value.changes|))
  }

  method AnalyzeOperationModes(records: seq<MmiEventRecord>) returns (r: Result<ModeReport, Failure>)
    ensures r == OperationModesOf(records)
  {
    var modeChanges: seq<ModeChange> := [];
    var currentMode: Option<Byte> := None;
    var modeDurations: map<Byte, int> := map[];
    var lastChange := 0;
    for i := 0 to |records|
      invariant ModesOf(records[..i]) == Ok(ModeState(modeChanges, modeDurations, currentMode, lastChange))
    {
      var record := records[i];
      assert records[..i + 1][..i] == records[..i];
      if record.eventType == EventModeChange {
        if record.eventData == [] {
          ModesFailLater(records, i + 1);
          return Err(IndexError);
        }
        var mode := record.eventData[0];
        if currentMode.Some? {
          modeChanges := modeChanges + [ModeChange(record.timestamp, currentMode.value, mode)];
          if currentMode.value in modeDurations {
            modeDurations := modeDurations[currentMode.value := modeDurations[currentMode.value] + (record.timestamp - lastChange)];
          } else {
            modeDurations := modeDurations[currentMode.value := record.timestamp - lastChange];
          }
        }
        currentMode := Some(mode);
        lastChange := record.timestamp;
      }
    }
    assert records[..|records|] == records;
    r := Ok(ModeReport(modeChanges, modeDurations, |modeChanges|));
  }

  /** Once a prefix has raised, so has the whole list, with the same error. */
  lemma {:induction false} ModesFailLater(records: seq<MmiEventRecord>, k: nat)
    requires k <= |records| && ModesOf(records[..k]).Err?
    ensures ModesOf(records) == ModesOf(records[..k])
    decreases |records| - k
  {
    if k < |records| {
      assert records[..k + 1][..k] == records[..k];
      ModesFailLater(records, k + 1);
    } else {
      assert records[..k] == records;
    }
  }

  /** The times of the mode-change records, in input order. */
  function ModeChangeTimes(records: seq<MmiEventRecord>): seq<int>
  {
    if records == [] then []
    else
      var r := records[|records| - 1];
      ModeChangeTimes(records[..|records| - 1]) + if IsModeChange(r) then [r.timestamp] else []
  }

  /** The analysis raises exactly when some mode-change record has an empty
      payload. */
  lemma {:induction false} ModesFail(records: seq<MmiEventRecord>)
    ensures ModesOf(records).Err? <==>
      exists i :: 0 <= i < |records| && IsModeChange(records[i]) && records[i].eventData == []
    ensures ModesOf(records).Err? ==> ModesOf(records).error == IndexError
  {
    if records != [] {
      var n := |records| - 1;
      var p := records[..n];
      ModesFail(p);
      assert forall i :: 0 <= i < n ==> p[i] == records[i];
    }
  }

  /** Without an error, there is one change per mode-change record after the
      first, and the mode-change times are |changes| + 1 (or none): each
      change leaves the mode the previous one entered and the last enters
      the current mode. The times credited to the modes add up to the last
      mode-change time less the first. */
  lemma {:induction false} ModesMeaning(records: seq<MmiEventRecord>)
    requires ModesOf(records).Ok?
    ensures var s := ModesOf(records).value;
      var times := ModeChangeTimes(records);
      && |times| == Count(records, IsModeChange)
      && (s.current.None? <==> times == [])
      && (times == [] ==> s.changes == [] && s.durations == map[])
      && (times != [] ==>
            && |s.changes| == |times| - 1
            && s.lastChange == times[|times| - 1]
            && MapTotal(s.durations) == times[|times| - 1] - times[0])
      && (forall k :: 0 < k < |s.changes| ==> s.changes[k - 1].toMode == s.changes[k].fromMode)
      && (s.changes != [] ==> s.changes[|s.changes| - 1].toMode == s.current.value)
  {
    if records != [] {
      var n := |records| - 1;
      var p := records[..n];
      assert ModesOf(p).Ok?;
      ModesMeaning(p);
      var s := ModesOf(p).value;
      var r := records[n];
      if IsModeChange(r) && s.current.Some? {
        var from := s.current.value;
        MapTotalUpdate(s.durations, from, (if from in s.durations then s.durations[from] else 0) + (r.timestamp - s.lastChange));
      }
    }
  }

  /** The report counts the changes: one fewer than the mode-change records,
      or none. */
  lemma TotalChanges(records: seq<MmiEventRecord>)
    requires OperationModesOf(records).Ok?
    ensures OperationModesOf(records).value.totalChanges
         == if Count(records, IsModeChange) == 0 then 0 else Count(records, IsModeChange) - 1
  {
    ModesMeaning(records);
  }

  // ---------------------------------------------------------------------------
  // System stability.
  // ---------------------------------------------------------------------------

  datatype StabilityState = StabilityState(errorCount: nat, restartCount: nat, lastError: Option<int>, intervals: seq<int>)

  datatype StabilityReport = StabilityReport(
    errorCount: nat,
    restartCount: nat,
    avgErrorInterval: real,
    minErrorInterval: int,
    errorIntervals: seq<int>)

  predicate IsStartup(r: MmiEventRecord)
  {
    r.eventType == EventStartup
  }

  /** One iteration: an error counts and, after the first, records the
      interval since the previous error; a startup counts as a restart. */
  function StabilityStep(s: StabilityState, r: MmiEventRecord): StabilityState
  {
    if IsError(r) then
      var intervals := if s.lastError.Some? then s.intervals + [r.timestamp - s.lastError.value] else s.intervals;
      StabilityState(s.errorCount + 1, s.restartCount, Some(r.timestamp), intervals)
    else if IsStartup(r) then StabilityState(s.errorCount, s.restartCount + 1, s.lastError, s.intervals)
    else s
  }

  function StabilityOf(records: seq<MmiEventRecord>): StabilityState
  {
    if records == [] then StabilityState(0, 0, None, [])
    else StabilityStep(StabilityOf(records[..|records| - 1]), records[|records| - 1])
  }

  function AsReal(i: int): real
  {
    i as real
  }

  function StabilityReportOf(records: seq<MmiEventRecord>): StabilityReport
  {
    var s := StabilityOf(records);
    var avg := if s.intervals != [] then Mean(MapSeq(s.intervals, AsReal)) else 0.0;
    var least := if s.intervals != [] then MinInt(s.intervals) else 0;
    StabilityReport(s.errorCount, s.restartCount, avg, least, s.intervals)
  }

  method AnalyzeSystemStability(records: seq<MmiEventRecord>) returns (r: StabilityReport)
    ensures r == StabilityReportOf(records)
  {
    var errorIntervals: seq<int> := [];
    var lastError: Option<int> := None;
    var errorCount := 0;
    var restartCount := 0;
    for i := 0 to |records|
      invariant StabilityOf(records[..i]) == StabilityState(errorCount, restartCount, lastError, errorIntervals)
    {
      var record := records[i];
      assert records[..i + 1][..i] == records[..i];
      if record.eventType == EventError {
        errorCount := errorCount + 1;
        if lastError.Some? {
          errorIntervals := errorIntervals + [record.timestamp - lastError.value];
        }
        lastError := Some(record.timestamp);
      } else if record.eventType == EventStartup {
        restartCount := restartCount + 1;
      }
    }
    assert records[..|records|] == records;
    var avg := if errorIntervals != [] then Mean(MapSeq(errorIntervals, AsReal)) else 0.0;
    var least := if errorIntervals != [] then MinInt(errorIntervals) else 0;
    r := StabilityReport(errorCount, restartCount, avg, least, errorIntervals);
  }

  /** The times of the error records, in input order. */
  function ErrorTimes(records: seq<MmiEventRecord>): seq<int>
  {
    if records == [] then []
    else
      var r := records[|records| - 1];
      ErrorTimes(records[..|records| - 1]) + if IsError(r) then [r.timestamp] else []
  }

  /** The error and restart counts count the error and startup records. */
  lemma {:induction false} StabilityCounts(records: seq<MmiEventRecord>)
    ensures var s := StabilityOf(records);
      && s.errorCount == Count(records, IsError) == |ErrorTimes(records)|
      && s.restartCount == Count(records, IsStartup)
  {
    if records != [] {
      StabilityCounts(records[..|records| - 1]);
    }
  }

  /** The intervals are the differences of consecutive error times, and the
      last error is the latest error time. */
  lemma StabilityIntervals(records: seq<MmiEventRecord>)
    ensures var s := StabilityOf(records);
      var e := ErrorTimes(records);
      && s.intervals == Diffs(e)
      && (s.lastError.None? <==> e == [])
      && (s.lastError.Some? ==> s.lastError.value == e[|e| - 1])
  {
    LastErrorIs(records);
    IntervalsAre(records);
  }

  lemma {:induction false} LastErrorIs(records: seq<MmiEventRecord>)
    ensures var s := StabilityOf(records);
      var e := ErrorTimes(records);
      && (s.lastError.None? <==> e == [])
      && (s.lastError.Some? ==> s.lastError.value == e[|e| - 1])
  {
    if records != [] {
      LastErrorIs(records[..|records| - 1]);
    }
  }

  lemma {:induction false} IntervalsAre(records: seq<MmiEventRecord>)
    ensures StabilityOf(records).intervals == Diffs(ErrorTimes(records))
  {
    if records == [] {
      assert Diffs([]) == [];
    } else {
      var n := |records| - 1;
      var r := records[n];
      IntervalsAre(records[..n]);
      LastErrorIs(records[..n]);
      var s := StabilityOf(records[..n]);
      var e := ErrorTimes(records[..n]);
      var t := StabilityOf(records);
      assert t == StabilityStep(s, r);
      if IsError(r) {
        var x := r.timestamp;
        assert ErrorTimes(records) == e + [x];
        assert t.intervals == if s.lastError.Some? then s.intervals + [x - s.lastError.value] else s.intervals;
        AppendInterval(s.intervals, s.lastError, e, x);
        assert t.intervals == Diffs(e + [x]);
      } else {
        assert ErrorTimes(records) == e;
        assert t.intervals == s.intervals;
      }
    }
  }

  /** Appending the interval since the last error time, when there is one,
      to the differences of the error times gives the differences of the
      error times with one more. */
  lemma AppendInterval(intervals: seq<int>, last: Option<int>, e: seq<int>, x: int)
    requires intervals == Diffs(e)
    requires last.None? <==> e == []
    requires last.Some? ==> last.value == e[|e| - 1]
    ensures (if last.Some? then intervals + [x - last.value] else intervals) == Diffs(e + [x])
  {
    if e != [] {
      DiffsSnoc(e, x);
    } else {
      assert e + [x] == [x];
    }
  }

  /** The stability report: |intervals| is max(errors - 1, 0); with no
      interval the average and the minimum are 0; otherwise the minimum is
      an interval, at most every interval and at most the average, and the
      intervals add up to the last error time less the first. */
  lemma StabilityMeaning(records: seq<MmiEventRecord>)
    ensures var r := StabilityReportOf(records);
      && r.errorCount == Count(records, IsError)
      && r.restartCount == Count(records, IsStartup)
      && |r.errorIntervals| == (if r.errorCount == 0 then 0 else r.errorCount - 1)
      && (r.errorIntervals == [] ==> r.avgErrorInterval == 0.0 && r.minErrorInterval == 0)
      && (r.errorIntervals != [] ==>
            && r.minErrorInterval in r.errorIntervals
            && (forall i :: 0 <= i < |r.errorIntervals| ==> r.minErrorInterval <= r.errorIntervals[i])
            && r.minErrorInterval as real <= r.avgErrorInterval
            && |ErrorTimes(records)| >= 2
            && SumInt(r.errorIntervals) == ErrorTimes(records)[|ErrorTimes(records)| - 1] - ErrorTimes(records)[0])
  {
    StabilityCounts(records);
    StabilityIntervals(records);
    var s := StabilityOf(records);
    if s.intervals != [] {
      MeanAtLeastMin(s.intervals);
      DiffsTelescope(ErrorTimes(records));
    }
  }

  /** The mean of whole numbers is at least the least of them. */
  lemma MeanAtLeastMin(xs: seq<int>)
    requires xs != []
    ensures MinInt(xs) as real <= Mean(MapSeq(xs, AsReal))
  {
    var least := MinInt(xs) as real;
    var v := MapSeq(xs, AsReal);
    assert forall i :: 0 <= i < |v| ==> least <= v[i];
    SumAtLeast(v, least);
    QuotientAtLeast(Sum(v), |v| as real, least);
  }

  lemma QuotientAtLeast(total: real, n: real, lo: real)
    requires n > 0.0 && n * lo <= total
    ensures lo <= total / n
  {
    assert total / n - lo == (total - n * lo) / n;
  }

  lemma {:induction false} SumAtLeast(v: seq<real>, lo: real)
    requires forall i :: 0 <= i < |v| ==> lo <= v[i]
    ensures (|v| as real) * lo <= Sum(v)
  {
    if v != [] {
      SumAtLeast(v[..|v| - 1], lo);
    }
  }
}
