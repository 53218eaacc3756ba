/** `ATPAnalyzer`: a single pass over the raw record list that separates the
    speed samples from the event records, then summarises speeds,
    accelerations, station-to-station times, locations and event counts. */
module AtpAnalyzer {
  import opened Common
  import opened Records
  import opened Stats
  import Processors

  /** `self.speed_threshold`, in km/h. */
  const SpeedThreshold: real := 90.0

  const NoRecordsMessage := "No records to analyze"

  /** What `analyze` raises. */
  datatype Failure =
    | NoRecords(message: string)  // the ValueError raised for an empty record list
    | UnicodeDecodeError          // a PRS payload that is not ASCII
    | IndexError                  // an MMI status record with an empty payload

  /** `record.speed / 100.0`: cm/s read as km/h. */
  function Kmh(speed: int): real
  {
    speed as real / 100.0
  }

  /** `record.location / 100000.0`: cm read as km. */
  function Km(location: int): real
  {
    location as real / 100000.0
  }

  // ---------------------------------------------------------------------------
  // The collection loop.
  // ---------------------------------------------------------------------------

  /** The four lists the first loop of `analyze` fills. */
  datatype Collected = Collected(speeds: seq<real>, locations: seq<real>, timestamps: seq<int>, events: seq<RURecord>)

  const NothingCollected := Collected([], [], [], [])

  /** What the loop has collected after the given records: each speed sample
      adds its speed, location and time, each event record is kept, and
      every other record is ignored. */
  function Collect(records: seq<RURecord>): (c: Collected)
    ensures |c.speeds| == |c.locations| == |c.timestamps|
  {
    if records == [] then NothingCollected
    else
      var c := Collect(records[..|records| - 1]);
      var r := records[|records| - 1];
      CollectOne(c, r)
  }

  function CollectOne(c: Collected, r: RURecord): Collected
  {
    if r.logType == SpeedSample then
      Collected(c.speeds + [Kmh(r.speed)], c.locations + [Km(r.location)], c.timestamps + [r.timestamp], c.events)
    else if IsEventType(r.logType) then c.(events := c.events + [r])
    else c
  }

  predicate IsEvent(r: RURecord)
  {
    IsEventType(r.logType)
  }

  /** Only speed samples contribute speeds, locations and times, in their
      order, converted to km/h and km; the event list is exactly the
      records of types 2, 3, 91 and 201, in their order. */
  lemma {:induction false} CollectMeaning(records: seq<RURecord>)
    ensures var c := Collect(records);
      var s := Samples(records);
      && |c.speeds| == |s|
      && (forall i :: 0 <= i < |s| ==> c.speeds[i] == Kmh(s[i].speed))
      && (forall i :: 0 <= i < |s| ==> c.locations[i] == Km(s[i].location))
      && (forall i :: 0 <= i < |s| ==> c.timestamps[i] == s[i].timestamp)
      && c.events == Filter(records, IsEvent)
  {
    if records != [] {
      var p := records[..|records| - 1];
      CollectMeaning(p);
    }
  }

  // ---------------------------------------------------------------------------
  // Braking, speed bands, accelerations and location bins.
  // ---------------------------------------------------------------------------

  /** `_is_emergency_brake`: a non-empty payload whose first byte is 2. */
  predicate IsEmergencyBrake(data: seq<Byte>)
  {
    |data| > 0 && data[0] == 2
  }

  predicate IsEmergencyEvent(e: RURecord)
  {
    e.logType == AtpStatus && IsEmergencyBrake(e.data)
  }

  predicate IsShutdownEvent(e: RURecord)
  {
    e.logType == AtpShutdown
  }

  /** This analyzer and the event processor agree on what an emergency
      brake is. */
  lemma EmergencyAgrees(r: RURecord)
    requires r.logType == AtpStatus
    ensures Processors.ParseEvent(r).Some?
    ensures Processors.ParseEvent(r).value.isEmergency <==> IsEmergencyBrake(r.data)
  {
  }

  /** `_calculate_speed_distribution`: nothing for no speeds, otherwise the
      six 20 km/h bands from 0 to 120. */
  function SpeedDistribution(speeds: seq<real>): (d: seq<nat>)
    ensures |d| == if speeds == [] then 0 else 6
    ensures SumNat(d) == Count(speeds, v => 0.0 <= v <= 120.0)
  {
    if speeds == [] then [] else SpeedBands(speeds)
  }

  /** One acceleration: the speed step over the time step, or 0 when time
      did not advance. */
  function Rate(dv: real, dt: int): (a: real)
    ensures dt <= 0 ==> a == 0.0
    ensures a > 0.0 <==> dt > 0 && dv > 0.0
    ensures a < 0.0 <==> dt > 0 && dv < 0.0
  {
    if dt > 0 then dv / (dt as real) else 0.0
  }

  /** When time advances, the acceleration times the time step is the
      speed step. */
  lemma RateTimesStep(dv: real, dt: int)
    requires dt > 0
    ensures Rate(dv, dt) * (dt as real) == dv
  {
  }

  /** The accelerations of consecutive pairs, one per pair. */
  function Accelerations(speeds: seq<real>, timestamps: seq<int>): (a: seq<real>)
    requires |speeds| == |timestamps|
    ensures |a| == if speeds == [] then 0 else |speeds| - 1
    ensures forall i :: 0 <= i < |a| ==> a[i] == Rate(speeds[i + 1] - speeds[i], timestamps[i + 1] - timestamps[i])
  {
    if |speeds| < 2 then []
    else
      var n := |speeds| - 1;
      Accelerations(speeds[..n], timestamps[..n]) + [Rate(speeds[n] - speeds[n - 1], timestamps[n] - timestamps[n - 1])]
  }

  function Positives(s: seq<real>): (r: seq<real>)
    ensures forall i :: 0 <= i < |r| ==> r[i] > 0.0
  {
    if s == [] then [] else Positives(s[..|s| - 1]) + (if s[|s| - 1] > 0.0 then [s[|s| - 1]] else [])
  }

  function Negatives(s: seq<real>): (r: seq<real>)
    ensures forall i :: 0 <= i < |r| ==> r[i] < 0.0
  {
    if s == [] then [] else Negatives(s[..|s| - 1]) + (if s[|s| - 1] < 0.0 then [s[|s| - 1]] else [])
  }

  /** The four figures of `_analyze_acceleration`; a mean of no values is
      absent (numpy gives NaN). */
  datatype AccelerationStats = AccelerationStats(
    maxAcceleration: real,
    maxDeceleration: real,
    avgAcceleration: Option<real>,
    avgDeceleration: Option<real>)

  /** `_analyze_acceleration`: nothing for fewer than two speeds; otherwise
      the largest acceleration, the size of the smallest, and the sizes of
      the means of the positive and of the negative accelerations. */
  function AnalyzeAcceleration(speeds: seq<real>, timestamps: seq<int>): (r: Option<AccelerationStats>)
    requires |speeds| == |timestamps|
    ensures r.None? <==> |speeds| < 2
  {
    if |speeds| < 2 then None else Some(AccelerationSummary(Accelerations(speeds, timestamps)))
  }

  function AccelerationSummary(a: seq<real>): AccelerationStats
    requires a != []
  {
    var neg := MeanOrNaN(Negatives(a));
    AccelerationStats(Max(a), AbsReal(Min(a)), MeanOrNaN(Positives(a)), if neg.Some? then Some(AbsReal(neg.value)) else None)
  }

  /** The extreme figures of the acceleration analysis: the largest
      acceleration is one of them and bounds them all; the deceleration is
      the size of the strongest braking one and bounds every one from below. */
  lemma AccelerationExtremes(a: seq<real>)
    requires a != []
    ensures var r := AccelerationSummary(a);
      && r.maxAcceleration in a
      && (forall i :: 0 <= i < |a| ==> a[i] <= r.maxAcceleration)
      && r.maxDeceleration >= 0.0
      && (forall i :: 0 <= i < |a| ==> -r.maxDeceleration <= a[i])
      && ((exists i :: 0 <= i < |a| && a[i] < 0.0) ==> exists k :: 0 <= k < |a| && a[k] == -r.maxDeceleration)
  {
    var d := AccelerationSummary(a).maxDeceleration;
    var m := Min(a);
    assert d == AbsReal(m);
    if exists i :: 0 <= i < |a| && a[i] < 0.0 {
      var k :| 0 <= k < |a| && a[k] == m;
      assert m < 0.0;
      assert a[k] == -d;
    } else {
      assert m >= 0.0;
    }
  }

  /** Each mean of the acceleration analysis is present exactly when some
      acceleration has its sign, and its size is then positive. */
  lemma AccelerationMeans(a: seq<real>)
    requires a != []
    ensures var r := AccelerationSummary(a);
      && (r.avgAcceleration.Some? <==> exists i :: 0 <= i < |a| && a[i] > 0.0)
      && (r.avgAcceleration.Some? ==> r.avgAcceleration.value > 0.0)
      && (r.avgDeceleration.Some? <==> exists i :: 0 <= i < |a| && a[i] < 0.0)
      && (r.avgDeceleration.Some? ==> r.avgDeceleration.value > 0.0)
  {
    PositivesNonEmpty(a);
    NegativesNonEmpty(a);
    var pos := Positives(a);
    var neg := Negatives(a);
    if pos != [] {
      assert Min(pos) in pos;
    }
    if neg != [] {
      assert Max(neg) in neg;
    }
  }

  lemma {:induction false} PositivesNonEmpty(s: seq<real>)
    ensures Positives(s) != [] <==> exists i :: 0 <= i < |s| && s[i] > 0.0
  {
    if s != [] {
      var p := s[..|s| - 1];
      PositivesNonEmpty(p);
      if exists i :: 0 <= i < |s| && s[i] > 0.0 {
        var i :| 0 <= i < |s| && s[i] > 0.0;
        if i < |p| {
          assert p[i] > 0.0;
        }
      }
    }
  }

  lemma {:induction false} NegativesNonEmpty(s: seq<real>)
    ensures Negatives(s) != [] <==> exists i :: 0 <= i < |s| && s[i] < 0.0
  {
    if s != [] {
      var p := s[..|s| - 1];
      NegativesNonEmpty(p);
      if exists i :: 0 <= i < |s| && s[i] < 0.0 {
        var i :| 0 <= i < |s| && s[i] < 0.0;
        if i < |p| {
          assert p[i] < 0.0;
        }
      }
    }
  }

  /** A pair whose time did not advance contributes a zero acceleration; it
      is not dropped. */
  lemma StalledPairIsZero(speeds: seq<real>, timestamps: seq<int>, i: nat)
    requires |speeds| == |timestamps| && i + 1 < |speeds|
    requires timestamps[i + 1] <= timestamps[i]
    ensures |Accelerations(speeds, timestamps)| == |speeds| - 1
    ensures Accelerations(speeds, timestamps)[i] == 0.0
  {
  }

  /** `_calculate_location_distribution`: nothing for no locations,
      otherwise the 10 km bins from 0 up to the largest location. */
  function LocationDistribution(locations: seq<real>): (d: seq<nat>)
    ensures locations == [] ==> d == []
    ensures locations != [] ==> |d| == LocationBinCount(locations)
    ensures d != [] ==> SumNat(d) == Count(locations, v => 0.0 <= v)
  {
    if locations == [] then [] else LocationBins(locations)
  }

  // ---------------------------------------------------------------------------
  // Station-to-station times, in file order and without stripping.
  // ---------------------------------------------------------------------------

  /** Every PRS record is an arrival, in file order, named by its payload
      decoded as ASCII and kept as it is; absent when some PRS payload does
      not decode. */
  function Arrivals(records: seq<RURecord>): Option<seq<Processors.Stop>>
  {
    if records == [] then Some([])
    else
      match Arrivals(records[..|records| - 1])
      case None => None
      case Some(stops) => ArriveAt(stops, records[|records| - 1])
  }

  function ArriveAt(stops: seq<Processors.Stop>, r: RURecord): Option<seq<Processors.Stop>>
  {
    if r.logType != PrsEvent then Some(stops)
    else
      match AsciiDecode(r.data)
      case None => None
      case Some(name) => Some(stops + [Processors.Stop(name, r.timestamp)])
  }

  /** A PRS record whose payload `decode('ascii')` rejects. */
  predicate BadPrs(r: RURecord)
  {
    r.logType == PrsEvent && AsciiDecode(r.data).None?
  }

  /** One transit from each arrival whose station name is not empty to the
      next arrival; a later pair overwrites an earlier one with the same key. */
  function RawTransits(stops: seq<Processors.Stop>): map<string, real>
  {
    if |stops| < 2 then map[]
    else
      var times := RawTransits(stops[..|stops| - 1]);
      var from := stops[|stops| - 2];
      if from.name != [] then Processors.AddTransit(times, from, stops[|stops| - 1]) else times
  }

  /** What `_calculate_station_times` returns or raises. */
  function StationTimesOf(records: seq<RURecord>): Result<map<string, real>, Failure>
  {
    match Arrivals(records)
    case None => Err(UnicodeDecodeError)
    case Some(stops) => Ok(RawTransits(stops))
  }

  /** The station times fail exactly when some PRS payload is not ASCII. */
  lemma {:induction false} ArrivalsFail(records: seq<RURecord>)
    ensures Arrivals(records).None? <==> exists i :: 0 <= i < |records| && BadPrs(records[i])
  {
    if records != [] {
      var n := |records| - 1;
      var p := records[..n];
      ArrivalsFail(p);
      if exists i :: 0 <= i < |records| && BadPrs(records[i]) {
        var i :| 0 <= i < |records| && BadPrs(records[i]);
        if i < n {
          assert BadPrs(p[i]);
        }
      } else {
        assert forall i :: 0 <= i < |p| ==> !BadPrs(p[i]) by {
          forall i | 0 <= i < |p| ensures !BadPrs(p[i]) {
            assert p[i] == records[i];
          }
        }
      }
    }
  }

  /** Without a failure, the arrivals are the PRS records in order: each
      one's decoded payload, unstripped, at its time. */
  lemma {:induction false} ArrivalsMeaning(records: seq<RURecord>)
    requires Arrivals(records).Some?
    ensures var stops := Arrivals(records).value;
      var prs := OfType(records, PrsEvent);
      && |stops| == |prs|
      && forall i :: 0 <= i < |prs| ==>
          AsciiDecode(prs[i].data) == Some(stops[i].name) && stops[i].time == prs[i].timestamp
  {
    if records != [] {
      ArrivalsMeaning(records[..|records| - 1]);
    }
  }

  /** The keys are exactly the pairs of consecutive arrivals whose first
      station name is not empty. */
  lemma {:induction false} RawTransitKeys(stops: seq<Processors.Stop>)
    ensures forall i :: 0 < i < |stops| && stops[i - 1].name != [] ==> Processors.PairKey(stops, i) in RawTransits(stops)
    ensures forall k :: k in RawTransits(stops) ==>
      exists i :: 0 < i < |stops| && stops[i - 1].name != [] && Processors.PairKey(stops, i) == k
  {
    if |stops| >= 2 {
      var n := |stops| - 1;
      var p := stops[..n];
      RawTransitKeys(p);
      assert forall i :: 0 < i < |p| ==> Processors.PairKey(p, i) == Processors.PairKey(stops, i);
      if stops[n - 1].name != [] {
        assert RawTransits(stops) == RawTransits(p)[Processors.PairKey(stops, n) := Processors.PairMinutes(stops, n)];
      }
    }
  }

  /** The minutes stored under a key are those of the last pair with it. */
  lemma {:induction false} RawTransitLastWins(stops: seq<Processors.Stop>, i: nat)
    requires 0 < i < |stops| && stops[i - 1].name != []
    requires forall j :: i < j < |stops| && stops[j - 1].name != [] ==> Processors.PairKey(stops, j) != Processors.PairKey(stops, i)
    ensures Processors.PairKey(stops, i) in RawTransits(stops)
    ensures RawTransits(stops)[Processors.PairKey(stops, i)] == Processors.PairMinutes(stops, i)
  {
    var n := |stops| - 1;
    var p := stops[..n];
    if i < n {
      assert Processors.PairKey(p, i) == Processors.PairKey(stops, i);
      assert Processors.PairMinutes(p, i) == Processors.PairMinutes(stops, i);
      forall j | i < j < |p| && p[j - 1].name != []
        ensures Processors.PairKey(p, j) != Processors.PairKey(p, i)
      {
        assert Processors.PairKey(p, j) == Processors.PairKey(stops, j);
      }
      RawTransitLastWins(p, i);
      if stops[n - 1].name != [] {
        assert RawTransits(stops) == RawTransits(p)[Processors.PairKey(stops, n) := Processors.PairMinutes(stops, n)];
      } else {
        assert RawTransits(stops) == RawTransits(p);
      }
    }
  }

  /** When no station name is empty, a transit follows every arrival, as in
      the location processor's walk over stripped names. */
  lemma {:induction false} RawTransitsAgree(stops: seq<Processors.Stop>)
    requires forall i :: 0 <= i < |stops| ==> stops[i].name != []
    ensures RawTransits(stops) == Processors.TransitTimes(stops)
  {
    if |stops| >= 2 {
      var p := stops[..|stops| - 1];
      RawTransitsAgree(p);
    }
  }

  /** `_calculate_station_times`: the walk over the records, raising at the
      first PRS payload that is not ASCII. */
  method CalculateStationTimes(records: seq<RURecord>) returns (r: Result<map<string, real>, Failure>)
    ensures r == StationTimesOf(records)
  {
    var stationTimes: map<string, real> := map[];
    var currentStation: Option<Processors.Stop> := None;
    for i := 0 to |records|
      invariant StationWalked(records, i, stationTimes, currentStation)
    {
      var record := records[i];
      if record.logType != PrsEvent {
        OtherRecordStep(records, i, stationTimes, currentStation);
        continue;
      }
      var decoded := AsciiDecode(record.data);
      if decoded.None? {
        ArrivalsStep(records, i);
        ArrivalsFailLater(records, i + 1);
        return Err(UnicodeDecodeError);
      }
      var stop := Processors.Stop(decoded.value, record.timestamp);
      ArrivalStep(records, i, stationTimes, currentStation, stop);
      if currentStation.Some? && currentStation.value.name != [] {
        ghost var before := stationTimes;
        var duration := record.timestamp - currentStation.value.time;
        stationTimes := stationTimes[Processors.TransitKey(currentStation.value.name, decoded.value) := duration as real / 60.0];
        assert stationTimes == Processors.AddTransit(before, currentStation.value, stop);
      }
      currentStation := Some(stop);
    }
    assert records[..|records|] == records;
    r := Ok(stationTimes);
  }

  /** The state after the first i records: the transits so far and the last
      arrival. */
  ghost predicate StationWalked(records: seq<RURecord>, i: nat, times: map<string, real>, current: Option<Processors.Stop>)
    requires i <= |records|
  {
    var a := Arrivals(records[..i]);
    && a.Some?
    && times == RawTransits(a.value)
    && (current.None? <==> a.value == [])
    && (current.Some? ==> current.value == a.value[|a.value| - 1])
  }

  lemma ArrivalsStep(records: seq<RURecord>, i: nat)
    requires i < |records|
    ensures Arrivals(records[..i + 1]) ==
      match Arrivals(records[..i])
      case None => None
      case Some(stops) => ArriveAt(stops, records[i])
  {
    assert records[..i + 1][..i] == records[..i];
  }

  /** Once a prefix has failed, the whole list fails. */
  lemma {:induction false} ArrivalsFailLater(records: seq<RURecord>, j: nat)
    requires j <= |records| && Arrivals(records[..j]).None?
    ensures Arrivals(records).None?
  {
    if j == |records| {
      assert records[..j] == records;
    } else {
      var p := records[..|records| - 1];
      assert p[..j] == records[..j];
      ArrivalsFailLater(p, j);
    }
  }

  lemma OtherRecordStep(records: seq<RURecord>, i: nat, times: map<string, real>, current: Option<Processors.Stop>)
    requires i < |records| && StationWalked(records, i, times, current)
    requires records[i].logType != PrsEvent
    ensures StationWalked(records, i + 1, times, current)
  {
    ArrivalsStep(records, i);
  }

  lemma ArrivalStep(records: seq<RURecord>, i: nat, times: map<string, real>, current: Option<Processors.Stop>, stop: Processors.Stop)
    requires i < |records| && StationWalked(records, i, times, current)
    requires records[i].logType == PrsEvent
    requires AsciiDecode(records[i].data) == Some(stop.name) && stop.time == records[i].timestamp
    ensures StationWalked(records, i + 1,
      if current.Some? && current.value.name != [] then Processors.AddTransit(times, current.value, stop) else times,
      Some(stop))
  {
    ArrivalsStep(records, i);
    var stops := Arrivals(records[..i]).value;
    assert Arrivals(records[..i + 1]) == Some(stops + [stop]);
    var s := stops + [stop];
    assert s[..|s| - 1] == stops;
  }

  // ---------------------------------------------------------------------------
  // Event counts and details.
  // ---------------------------------------------------------------------------

  /** An MMI operation: its time and the first payload byte. */
  datatype MmiEntry = MmiEntry(time: int, code: Byte)

  /** A PRS message: its time and the decoded payload. */
  datatype PrsEntry = PrsEntry(time: int, text: string)

  /** `_analyze_events`: one counter per event type, the times of the
      emergency brakes, and the MMI and PRS logs. */
  datatype EventStats = EventStats(
    atpStatusChanges: nat,
    mmiStatusChanges: nat,
    prsEvents: nat,
    atpShutdowns: nat,
    emergencyTimes: seq<int>,
    mmiLog: seq<MmiEntry>,
    prsLog: seq<PrsEntry>)

  const NoEvents := EventStats(0, 0, 0, 0, [], [], [])

  /** An MMI status record whose payload has no first byte. */
  predicate BadMmi(r: RURecord)
  {
    r.logType == MmiStatus && |r.data| == 0
  }

  /** An event record `_analyze_events` raises on. */
  predicate Breaks(r: RURecord)
  {
    BadMmi(r) || BadPrs(r)
  }

  function BreakError(r: RURecord): Failure
    requires Breaks(r)
  {
    if BadMmi(r) then IndexError else UnicodeDecodeError
  }

  /** One iteration of the event loop. */
  function EventStep(s: EventStats, e: RURecord): Result<EventStats, Failure>
  {
    if e.logType == AtpStatus then
      Ok(s.(atpStatusChanges := s.atpStatusChanges + 1,
            emergencyTimes := if IsEmergencyBrake(e.data) then s.emergencyTimes + [e.timestamp] else s.emergencyTimes))
    else if e.logType == MmiStatus then
      if |e.data| == 0 then Err(IndexError)
      else Ok(s.(mmiStatusChanges := s.mmiStatusChanges + 1, mmiLog := s.mmiLog + [MmiEntry(e.timestamp, e.data[0])]))
    else if e.logType == PrsEvent then
      match AsciiDecode(e.data)
      case None => Err(UnicodeDecodeError)
      case Some(text) => Ok(s.(prsEvents := s.prsEvents + 1, prsLog := s.prsLog + [PrsEntry(e.timestamp, text)]))
    else if e.logType == AtpShutdown then Ok(s.(atpShutdowns := s.atpShutdowns + 1))
    else Ok(s)
  }

  /** What `_analyze_events` returns or raises for an event list. */
  function EventStatsOf(events: seq<RURecord>): Result<EventStats, Failure>
  {
    if events == [] then Ok(NoEvents)
    else
      match EventStatsOf(events[..|events| - 1])
      case Err(f) => Err(f)
      case Ok(s) => EventStep(s, events[|events| - 1])
  }

  function TimeOf(r: RURecord): int
  {
    r.timestamp
  }

  /** The event analysis fails exactly when some record breaks it. */
  lemma {:induction false} EventStatsFail(events: seq<RURecord>)
    ensures EventStatsOf(events).Err? <==> exists i :: 0 <= i < |events| && Breaks(events[i])
  {
    if events != [] {
      var n := |events| - 1;
      var p := events[..n];
      EventStatsFail(p);
      if exists i :: 0 <= i < |events| && Breaks(events[i]) {
        var i :| 0 <= i < |events| && Breaks(events[i]);
        if i < n {
          assert Breaks(p[i]);
        }
      } else {
        forall i | 0 <= i < |p| ensures !Breaks(p[i]) {
          assert p[i] == events[i];
        }
      }
    }
  }

  /** The error raised is that of the first record that breaks. */
  lemma {:induction false} EventStatsFirstError(events: seq<RURecord>, i: nat)
    requires i < |events| && Breaks(events[i])
    requires forall j :: 0 <= j < i ==> !Breaks(events[j])
    ensures EventStatsOf(events) == Err(BreakError(events[i]))
  {
    var n := |events| - 1;
    var p := events[..n];
    if i == n {
      EventStatsFail(p);
      assert forall j :: 0 <= j < |p| ==> p[j] == events[j];
    } else {
      assert p[i] == events[i];
      assert forall j :: 0 <= j < i ==> p[j] == events[j];
      EventStatsFirstError(p, i);
    }
  }

  /** Each counter counts the records of its type. */
  lemma {:induction false} EventCounters(events: seq<RURecord>)
    requires EventStatsOf(events).Ok?
    ensures var s := EventStatsOf(events).value;
      && s.atpStatusChanges == |OfType(events, AtpStatus)|
      && s.mmiStatusChanges == |OfType(events, MmiStatus)|
      && s.prsEvents == |OfType(events, PrsEvent)|
      && s.atpShutdowns == |OfType(events, AtpShutdown)|
  {
    if events != [] {
      var p := events[..|events| - 1];
      assert EventStatsOf(p).Ok?;
      EventCounters(p);
    }
  }

  /** The emergency list holds the time of every emergency brake, in order. */
  lemma {:induction false} EmergencyTimes(events: seq<RURecord>)
    requires EventStatsOf(events).Ok?
    ensures EventStatsOf(events).value.emergencyTimes == MapSeq(Filter(events, IsEmergencyEvent), TimeOf)
  {
    if events != [] {
      var p := events[..|events| - 1];
      assert EventStatsOf(p).Ok?;
      EmergencyTimes(p);
      var f := Filter(p, IsEmergencyEvent);
      if IsEmergencyEvent(events[|events| - 1]) {
        assert (f + [events[|events| - 1]])[..|f|] == f;
      } else {
        assert f + [] == f;
      }
    }
  }

  /** The MMI log has one entry per MMI status record, in order: its time
      and its first payload byte. */
  lemma {:induction false} MmiLogMeaning(events: seq<RURecord>)
    requires EventStatsOf(events).Ok?
    ensures var s := EventStatsOf(events).value;
      var m := OfType(events, MmiStatus);
      && |s.mmiLog| == |m|
      && forall i :: 0 <= i < |m| ==> |m[i].data| > 0 && s.mmiLog[i] == MmiEntry(m[i].timestamp, m[i].data[0])
  {
    if events != [] {
      var p := events[..|events| - 1];
      assert EventStatsOf(p).Ok?;
      MmiLogMeaning(p);
    }
  }

  /** The PRS log has one entry per PRS record, in order: its time and its
      decoded payload. */
  lemma {:induction false} PrsLogMeaning(events: seq<RURecord>)
    requires EventStatsOf(events).Ok?
    ensures var s := EventStatsOf(events).value;
      var m := OfType(events, PrsEvent);
      && |s.prsLog| == |m|
      && forall i :: 0 <= i < |m| ==> AsciiDecode(m[i].data) == Some(s.prsLog[i].text) && s.prsLog[i].time == m[i].timestamp
  {
    if events != [] {
      var p := events[..|events| - 1];
      assert EventStatsOf(p).Ok?;
      PrsLogMeaning(p);
    }
  }

  /** Every event of the four types is counted exactly once. */
  lemma {:induction false} EventTotal(events: seq<RURecord>)
    requires EventStatsOf(events).Ok?
    ensures var s := EventStatsOf(events).value;
      s.atpStatusChanges + s.mmiStatusChanges + s.prsEvents + s.atpShutdowns == Count(events, IsEvent)
  {
    if events != [] {
      var p := events[..|events| - 1];
      assert EventStatsOf(p).Ok?;
      EventTotal(p);
    }
  }

  /** `_analyze_events` as a loop, raising at the first record that breaks. */
  method AnalyzeEvents(events: seq<RURecord>) returns (r: Result<EventStats, Failure>)
    ensures r == EventStatsOf(events)
  {
    var atp, mmi, prs, down := 0, 0, 0, 0;
    var important: seq<int> := [];
    var mmiLog: seq<MmiEntry> := [];
    var prsLog: seq<PrsEntry> := [];
    for i := 0 to |events|
      invariant EventStatsOf(events[..i]) == Ok(EventStats(atp, mmi, prs, down, important, mmiLog, prsLog))
    {
      var event := events[i];
      assert events[..i + 1][..i] == events[..i];
      if event.logType == AtpStatus {
        atp := atp + 1;
        if IsEmergencyBrake(event.data) {
          important := important + [event.timestamp];
        }
      } else if event.logType == MmiStatus {
        if |event.data| == 0 {
          EventsFailLater(events, i + 1);
          return Err(IndexError);
        }
        mmi := mmi + 1;
        mmiLog := mmiLog + [MmiEntry(event.timestamp, event.data[0])];
      } else if event.logType == PrsEvent {
        var decoded := AsciiDecode(event.data);
        if decoded.None? {
          EventsFailLater(events, i + 1);
          return Err(UnicodeDecodeError);
        }
        prs := prs + 1;
        prsLog := prsLog + [PrsEntry(event.timestamp, decoded.value)];
      } else if event.logType == AtpShutdown {
        down := down + 1;
      }
    }
    assert events[..|events|] == events;
    r := Ok(EventStats(atp, mmi, prs, down, important, mmiLog, prsLog));
  }

  /** Once a prefix has raised, the whole list raises the same error. */
  lemma {:induction false} EventsFailLater(events: seq<RURecord>, j: nat)
    requires j <= |events| && EventStatsOf(events[..j]).Err?
    ensures EventStatsOf(events) == EventStatsOf(events[..j])
  {
    if j == |events| {
      assert events[..j] == events;
    } else {
      var p := events[..|events| - 1];
      assert p[..j] == events[..j];
      EventsFailLater(p, j);
    }
  }

  // ---------------------------------------------------------------------------
  // The whole analysis.
  // ---------------------------------------------------------------------------

  /** `AnalysisResult`. Times are whole seconds; an acceleration analysis of
      fewer than two speeds is absent (the source gives an empty dictionary). */
  datatype AnalysisResult = AnalysisResult(
    maxSpeed: real,
    avgSpeed: real,
    totalDistance: real,
    totalTime: int,
    overSpeedCount: nat,
    emergencyBrakeCount: nat,
    atpDownCount: nat,
    speedDistribution: seq<nat>,
    acceleration: Option<AccelerationStats>,
    stationTimes: map<string, real>,
    locationDistribution: seq<nat>,
    eventStats: EventStats)

  /** The statistics `analyze` computes from the collected lists, the
      station times and the event statistics. */
  function Summary(c: Collected, stationTimes: map<string, real>, eventStats: EventStats): AnalysisResult
    requires |c.speeds| == |c.locations| == |c.timestamps|
  {
    var empty := c.speeds == [];
    AnalysisResult(
      if empty then 0.0 else Max(c.speeds),
      if empty then 0.0 else Mean(c.speeds),
      if empty then 0.0 else c.locations[|c.locations| - 1] - c.locations[0],
      if empty then 0 else c.timestamps[|c.timestamps| - 1] - c.timestamps[0],
      CountAbove(c.speeds, SpeedThreshold),
      Count(c.events, IsEmergencyEvent),
      Count(c.events, IsShutdownEvent),
      SpeedDistribution(c.speeds),
      AnalyzeAcceleration(c.speeds, c.timestamps),
      stationTimes,
      LocationDistribution(c.locations),
      eventStats)
  }

  /** What `analyze` returns or raises: the empty list is refused, then the
      station times may raise, then the event analysis may. */
  function AnalysisOf(records: seq<RURecord>): Result<AnalysisResult, Failure>
  {
    if records == [] then Err(NoRecords(NoRecordsMessage))
    else
      var c := Collect(records);
      match StationTimesOf(records)
      case Err(f) => Err(f)
      case Ok(times) =>
        match EventStatsOf(c.events)
        case Err(f) => Err(f)
        case Ok(events) => Ok(Summary(c, times, events))
  }

  /** `ATPAnalyzer.analyze`. */
  method Analyze(records: seq<RURecord>) returns (r: Result<AnalysisResult, Failure>)
    ensures r == AnalysisOf(records)
  {
    if records == [] {
      return Err(NoRecords(NoRecordsMessage));
    }
    var speeds: seq<real> := [];
    var locations: seq<real> := [];
    var timestamps: seq<int> := [];
    var events: seq<RURecord> := [];
    for i := 0 to |records|
      invariant Collect(records[..i]) == Collected(speeds, locations, timestamps, events)
    {
      var record := records[i];
      assert records[..i + 1][..i] == records[..i];
      if record.logType == SpeedSample {
        speeds := speeds + [Kmh(record.speed)];
        locations := locations + [Km(record.location)];
        timestamps := timestamps + [record.timestamp];
      } else if IsEventType(record.logType) {
        events := events + [record];
      }
    }
    assert records[..|records|] == records;
    var collected := Collected(speeds, locations, timestamps, events);
    var stationTimes := CalculateStationTimes(records);
    if stationTimes.Err? {
      return Err(stationTimes.error);
    }
    var eventStats := AnalyzeEvents(events);
    if eventStats.Err? {
      return Err(eventStats.error);
    }
    r := Ok(Summary(collected, stationTimes.value, eventStats.value));
  }

  /** `analyze` raises for the empty list, for a PRS payload that is not
      ASCII (from the station times, which run first), and otherwise for an
      MMI status record without payload; it succeeds in every other case. */
  lemma AnalysisFails(records: seq<RURecord>)
    ensures records == [] ==> AnalysisOf(records) == Err(NoRecords(NoRecordsMessage))
    ensures records != [] && (exists i :: 0 <= i < |records| && BadPrs(records[i])) ==>
      AnalysisOf(records) == Err(UnicodeDecodeError)
    ensures records != [] && (forall i :: 0 <= i < |records| ==> !BadPrs(records[i])) ==>
      (AnalysisOf(records).Err? <==> exists i :: 0 <= i < |records| && BadMmi(records[i]))
    ensures AnalysisOf(records).Err? && AnalysisOf(records).error == IndexError ==>
      exists i :: 0 <= i < |records| && BadMmi(records[i])
  {
    if records != [] {
      ArrivalsFail(records);
      CollectMeaning(records);
      var events := Collect(records).events;
      EventStatsFail(events);
      EventsOfBreaks(records);
    }
  }

  /** A record breaks the event analysis exactly when some record of the
      whole list does (every breaking record is an event). */
  lemma EventsOfBreaks(records: seq<RURecord>)
    ensures var events := Filter(records, IsEvent);
      (exists i :: 0 <= i < |events| && Breaks(events[i])) <==> (exists i :: 0 <= i < |records| && Breaks(records[i]))
  {
    var events := Filter(records, IsEvent);
    if exists i :: 0 <= i < |events| && Breaks(events[i]) {
      var i :| 0 <= i < |events| && Breaks(events[i]);
      assert events[i] in records;
      var j :| 0 <= j < |records| && records[j] == events[i];
    }
    if exists i :: 0 <= i < |records| && Breaks(records[i]) {
      var i :| 0 <= i < |records| && Breaks(records[i]);
      FilterKeeps(records, IsEvent, records[i]);
      var j :| 0 <= j < |events| && events[j] == records[i];
    }
  }

  /** The speed figures of a successful analysis, in terms of the speed
      samples: all zero without samples, otherwise the top speed and the
      distance and time from the first sample to the last. */
  lemma AnalysisSpeeds(records: seq<RURecord>)
    requires AnalysisOf(records).Ok?
    ensures var a := AnalysisOf(records).value;
      var s := Samples(records);
      && (s == [] ==> a.maxSpeed == 0.0 && a.avgSpeed == 0.0 && a.totalDistance == 0.0 && a.totalTime == 0)
      && (s != [] ==>
            && (forall i :: 0 <= i < |s| ==> Kmh(s[i].speed) <= a.maxSpeed)
            && (exists i :: 0 <= i < |s| && Kmh(s[i].speed) == a.maxSpeed)
            && a.totalDistance == Km(s[|s| - 1].location) - Km(s[0].location)
            && a.totalTime == s[|s| - 1].timestamp - s[0].timestamp)
  {
    AnalysisFigures(records);
    CollectMax(records);
    if Samples(records) != [] {
      AnalysisSpan(records);
    }
  }

  /** The collected speeds are one per sample, and their maximum is the
      top sample speed in km/h. */
  lemma CollectMax(records: seq<RURecord>)
    ensures var c := Collect(records);
      var s := Samples(records);
      && |c.speeds| == |s|
      && (s != [] ==>
            && (forall i :: 0 <= i < |s| ==> Kmh(s[i].speed) <= Max(c.speeds))
            && (exists i :: 0 <= i < |s| && Kmh(s[i].speed) == Max(c.speeds)))
  {
    CollectMeaning(records);
    var c := Collect(records);
    var s := Samples(records);
    if s != [] {
      var m := Max(c.speeds);
      var k :| 0 <= k < |c.speeds| && c.speeds[k] == m;
      assert Kmh(s[k].speed) == m;
    }
  }

  /** The distance and time of a successful analysis with samples run from
      the first sample to the last. */
  lemma AnalysisSpan(records: seq<RURecord>)
    requires AnalysisOf(records).Ok? && Samples(records) != []
    ensures var a := AnalysisOf(records).value;
      var s := Samples(records);
      && a.totalDistance == Km(s[|s| - 1].location) - Km(s[0].location)
      && a.totalTime == s[|s| - 1].timestamp - s[0].timestamp
  {
    AnalysisFigures(records);
    CollectEnds(records);
  }

  /** The first and last collected locations and times are those of the
      first and last speed samples. */
  lemma CollectEnds(records: seq<RURecord>)
    requires Samples(records) != []
    ensures var c := Collect(records);
      var s := Samples(records);
      && |c.speeds| == |s|
      && c.locations[|c.locations| - 1] == Km(s[|s| - 1].location) && c.locations[0] == Km(s[0].location)
      && c.timestamps[|c.timestamps| - 1] == s[|s| - 1].timestamp && c.timestamps[0] == s[0].timestamp
  {
    CollectMeaning(records);
  }

  /** The speed, distance and time figures of a successful analysis, in
      terms of the collected samples. */
  lemma AnalysisFigures(records: seq<RURecord>)
    requires AnalysisOf(records).Ok?
    ensures var a := AnalysisOf(records).value;
      var c := Collect(records);
      && (c.speeds == [] ==> a.maxSpeed == 0.0 && a.avgSpeed == 0.0 && a.totalDistance == 0.0 && a.totalTime == 0)
      && (c.speeds != [] ==>
            && a.maxSpeed == Max(c.speeds)
            && a.totalDistance == c.locations[|c.locations| - 1] - c.locations[0]
            && a.totalTime == c.timestamps[|c.timestamps| - 1] - c.timestamps[0])
  {
    var c := Collect(records);
    AnalysisIsSummary(records);
    SummaryFigures(c, StationTimesOf(records).value, EventStatsOf(c.events).value);
  }

  /** A successful analysis is the summary of what was collected, with the
      station times and event statistics that succeeded. */
  lemma AnalysisIsSummary(records: seq<RURecord>)
    requires AnalysisOf(records).Ok?
    ensures var c := Collect(records);
      && StationTimesOf(records).Ok? && EventStatsOf(c.events).Ok?
      && AnalysisOf(records).value == Summary(c, StationTimesOf(records).value, EventStatsOf(c.events).value)
  {
  }

  /** The speed, distance and time figures of a summary: all zero without
      speeds, otherwise the top speed and the first-to-last spans. */
  lemma SummaryFigures(c: Collected, stationTimes: map<string, real>, eventStats: EventStats)
    requires |c.speeds| == |c.locations| == |c.timestamps|
    ensures var a := Summary(c, stationTimes, eventStats);
      && (c.speeds == [] ==> a.maxSpeed == 0.0 && a.avgSpeed == 0.0 && a.totalDistance == 0.0 && a.totalTime == 0)
      && (c.speeds != [] ==>
            && a.maxSpeed == Max(c.speeds)
            && a.totalDistance == c.locations[|c.locations| - 1] - c.locations[0]
            && a.totalTime == c.timestamps[|c.timestamps| - 1] - c.timestamps[0])
  {
  }

  /** The over-speed count of a successful analysis is the number of speed
      samples above 90 km/h. */
  lemma AnalysisOverSpeed(records: seq<RURecord>)
    requires AnalysisOf(records).Ok?
    ensures AnalysisOf(records).value.overSpeedCount == Count(Samples(records), IsOverSpeed)
  {
    CollectMeaning(records);
    var c := Collect(records);
    CountAboveIsFilter(c.speeds, SpeedThreshold);
    CountAlong(c.speeds, Samples(records), Above(SpeedThreshold), IsOverSpeed);
  }

  /** The brake and shutdown counts of a successful analysis count those
      records among all the input, and agree with the event statistics. */
  lemma AnalysisEventCounts(records: seq<RURecord>)
    requires AnalysisOf(records).Ok?
    ensures var a := AnalysisOf(records).value;
      && a.emergencyBrakeCount == Count(records, IsEmergencyEvent)
      && a.atpDownCount == Count(records, IsShutdownEvent)
      && a.emergencyBrakeCount == |a.eventStats.emergencyTimes|
      && a.atpDownCount == a.eventStats.atpShutdowns
  {
    CollectMeaning(records);
    var c := Collect(records);
    CountOfFilter(records, IsEvent, IsEmergencyEvent);
    CountOfFilter(records, IsEvent, IsShutdownEvent);
    EmergencyTimes(c.events);
    EventCounters(c.events);
    FilterLength(c.events, IsEmergencyEvent);
    ShutdownsCounted(c.events);
  }

  /** A speed sample above the threshold. */
  predicate IsOverSpeed(r: RURecord)
  {
    Kmh(r.speed) > SpeedThreshold
  }

  lemma {:induction false} ShutdownsCounted(events: seq<RURecord>)
    ensures |OfType(events, AtpShutdown)| == Count(events, IsShutdownEvent)
  {
    if events != [] {
      ShutdownsCounted(events[..|events| - 1]);
    }
  }
}
