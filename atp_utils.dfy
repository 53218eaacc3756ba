/** `ATPEventParser`: the texts of the ATP, MMI and PRS status codes, and
    the one-line description of an event record, including the position and
    speed carried by a shutdown record. */
module AtpEventParser {
  import opened Common
  import opened Records
  import Processors

  const IncompleteData := "資料不完整"
  const UnknownEventType := "未知事件類型"
  const UnknownStatus := "未知狀態"
  const UnknownEvent := "未知事件"

  const AtpStatusMap: map<int, string> :=
    map[0 := "正常", 1 := "常用緊軔", 2 := "緊急緊軔", 3 := "系統故障", 4 := "通訊異常",
        5 := "感應子異常", 6 := "軔機測試中", 7 := "超速警告", 8 := "自動防護"]
  const MmiStatusMap: map<int, string> :=
    map[0 := "正常", 1 := "顯示異常", 2 := "按鍵故障", 3 := "記憶體不足", 4 := "通訊中斷", 5 := "系統重啟"]
  const PrsEventMap: map<int, string> :=
    map[0 := "通訊正常", 1 := "列車編號設定", 2 := "CRC錯誤", 3 := "通訊逾時", 4 := "編號不符",
        5 := "連線中斷", 6 := "連線恢復"]

  /** The three `parse_*` class methods: a payload without a first byte is
      incomplete; otherwise the first byte is looked up in the table, and an
      unknown code is shown in parentheses after `unknown`. */
  function ParseCode(table: map<int, string>, data: seq<Byte>, unknown: string): (s: string)
  {
    if |data| < 1 then IncompleteData else Processors.Describe(table, Some(data[0]), unknown)
  }

  function ParseAtpStatus(data: seq<Byte>): string { ParseCode(AtpStatusMap, data, UnknownStatus) }
  function ParseMmiStatus(data: seq<Byte>): string { ParseCode(MmiStatusMap, data, UnknownStatus) }
  function ParsePrsEvent(data: seq<Byte>): string { ParseCode(PrsEventMap, data, UnknownEvent) }

  /** The three outcomes of a lookup: incomplete exactly for an empty
      payload, the table's text for a known code, the code in parentheses
      for an unknown one. */
  lemma ParseCodeCases(table: map<int, string>, data: seq<Byte>, unknown: string)
    requires table == AtpStatusMap || table == MmiStatusMap || table == PrsEventMap
    requires unknown == UnknownStatus || unknown == UnknownEvent
    ensures ParseCode(table, data, unknown) == IncompleteData <==> data == []
    ensures data != [] && data[0] in table ==> ParseCode(table, data, unknown) == table[data[0]]
    ensures data != [] && data[0] !in table ==>
      ParseCode(table, data, unknown) == unknown + "(" + NatToDecimal(data[0]) + ")"
  {
    if data != [] && data[0] !in table {
      var s := ParseCode(table, data, unknown);
      assert s[0] == unknown[0];
    }
  }

  // ---------------------------------------------------------------------------
  // The shutdown payload: two signed 32-bit integers, least significant
  // byte first.
  // ---------------------------------------------------------------------------

  const TwoTo31: int := 0x8000_0000
  const TwoTo32: int := 0x1_0000_0000

  predicate IsInt32(x: int)
  {
    -TwoTo31 <= x < TwoTo31
  }

  /** `struct.unpack('i', b)[0]` on a little-endian machine. */
  function Int32(b: seq<Byte>): (x: int)
    requires |b| == 4
    ensures IsInt32(x)
  {
    var u: int := b[0] as int + 0x100 * (b[1] as int) + 0x1_0000 * (b[2] as int) + 0x100_0000 * (b[3] as int);
    if u < TwoTo31 then u else u - TwoTo32
  }

  /** `struct.pack('i', x)` on a little-endian machine. */
  function PackInt32(x: int): (b: seq<Byte>)
    requires IsInt32(x)
    ensures |b| == 4
  {
    var u := if x < 0 then x + TwoTo32 else x;
    var q1 := u / 0x100;
    var q2 := q1 / 0x100;
    [u % 0x100, q1 % 0x100, q2 % 0x100, q2 / 0x100]
  }

  /** Unpacking undoes packing. */
  lemma UnpackPack(x: int)
    requires IsInt32(x)
    ensures Int32(PackInt32(x)) == x
  {
    var u := if x < 0 then x + TwoTo32 else x;
    var q1 := u / 0x100;
    var q2 := q1 / 0x100;
    assert u == u % 0x100 + 0x100 * q1;
    assert q1 == q1 % 0x100 + 0x100 * q2;
    assert q2 == q2 % 0x100 + 0x100 * (q2 / 0x100);
    var b := PackInt32(x);
    assert b[0] as int == u % 0x100 && b[1] as int == q1 % 0x100;
    assert b[2] as int == q2 % 0x100 && b[3] as int == q2 / 0x100;
    assert u == b[0] as int + 0x100 * (b[1] as int) + 0x1_0000 * (b[2] as int) + 0x100_0000 * (b[3] as int);
  }

  /** The four base-256 digits of a little-endian number are its bytes. */
  lemma LittleEndianDigits(b0: int, b1: int, b2: int, b3: int)
    requires 0 <= b0 < 0x100 && 0 <= b1 < 0x100 && 0 <= b2 < 0x100 && 0 <= b3 < 0x100
    ensures var u := b0 + 0x100 * b1 + 0x1_0000 * b2 + 0x100_0000 * b3;
      u % 0x100 == b0 && u / 0x100 % 0x100 == b1 && u / 0x100 / 0x100 % 0x100 == b2 && u / 0x100 / 0x100 / 0x100 == b3
  {
    var u := b0 + 0x100 * b1 + 0x1_0000 * b2 + 0x100_0000 * b3;
    assert u / 0x100 == b1 + 0x100 * b2 + 0x1_0000 * b3;
    assert u / 0x100 / 0x100 == b2 + 0x100 * b3;
  }

  /** Packing undoes unpacking: every four bytes are the packing of one
      32-bit number. */
  lemma PackUnpack(b: seq<Byte>)
    requires |b| == 4
    ensures PackInt32(Int32(b)) == b
  {
    LittleEndianDigits(b[0], b[1], b[2], b[3]);
  }

  /** A description is a text, or the position (km) and speed (km/h) of a
      shutdown, which the source then formats with two and one decimals. */
  datatype Description = Text(text: string) | Position(locationKm: real, speedKmh: real)

  /** `get_event_description`. */
  function EventDescription(eventType: int, data: seq<Byte>): (d: Description)
  {
    if eventType == AtpStatus then Text(ParseAtpStatus(data))
    else if eventType == MmiStatus then Text(ParseMmiStatus(data))
    else if eventType == PrsEvent then Text(ParsePrsEvent(data))
    else if eventType == AtpShutdown && |data| >= 8 then
      Position(Int32(data[0..4]) as real / 100000.0, (Int32(data[4..8]) as real / 100.0))
    else Text(UnknownEventType)
  }

  /** A shutdown payload that packs a location and a speed is described by
      exactly that location in km and that speed in km/h, whatever follows. */
  lemma ShutdownRoundTrip(location: int, speed: int, rest: seq<Byte>)
    requires IsInt32(location) && IsInt32(speed)
    ensures EventDescription(AtpShutdown, PackInt32(location) + PackInt32(speed) + rest)
        == Position(location as real / 100000.0, speed as real / 100.0)
  {
    var data := PackInt32(location) + PackInt32(speed) + rest;
    assert data[0..4] == PackInt32(location);
    assert data[4..8] == PackInt32(speed);
    UnpackPack(location);
    UnpackPack(speed);
  }

  /** Only the four event types get a real description; a shutdown needs
      eight bytes for one, and everything else is an unknown type. */
  lemma UnknownTypes(eventType: int, data: seq<Byte>)
    ensures EventDescription(eventType, data).Position? <==> eventType == AtpShutdown && |data| >= 8
    ensures EventDescription(eventType, data) == Text(UnknownEventType) <==>
      !(eventType in {AtpStatus, MmiStatus, PrsEvent}) && !(eventType == AtpShutdown && |data| >= 8)
  {
    if eventType in {AtpStatus, MmiStatus, PrsEvent} {
      var table := if eventType == AtpStatus then AtpStatusMap else if eventType == MmiStatus then MmiStatusMap else PrsEventMap;
      var unknown := if eventType == PrsEvent then UnknownEvent else UnknownStatus;
      assert EventDescription(eventType, data) == Text(ParseCode(table, data, unknown));
      NotUnknownType(table, data, unknown);
    }
  }

  lemma NotUnknownType(table: map<int, string>, data: seq<Byte>, unknown: string)
    requires table == AtpStatusMap || table == MmiStatusMap || table == PrsEventMap
    requires unknown == UnknownStatus || unknown == UnknownEvent
    ensures ParseCode(table, data, unknown) != UnknownEventType
  {
    var s := ParseCode(table, data, unknown);
    if data != [] && data[0] !in table {
      assert s[4] == '(';
    }
  }
}

/** `SpeedAnalyzer`: the speed profile of a list of speeds (km/h) and their
    times, and the detection of sudden speed changes, over-speed and
    fluctuation along a sliding window. */
module SpeedAnalyzer {
  import opened Common
  import opened Stats
  import AtpAnalyzer

  const DefaultThreshold: real := 90.0
  const DefaultWindow: nat := 5
  /** The acceleration or deceleration, in km/h per second, above which a
      change counts as sudden. */
  const SuddenChange: real := 2.0
  /** The window spread above which speeds fluctuate: a standard deviation
      of 5 km/h, compared here as a variance of 25 (km/h)². */
  const FluctuationVariance: real := 25.0

  /** What the analyzer raises. */
  datatype Failure =
    | ValueError         // numpy refuses the shapes, or `max` of no accelerations
    | IndexError         // a time is missing for a speed
    | ZeroDivisionError  // two consecutive times are equal

  // ---------------------------------------------------------------------------
  // analyze_speed_profile
  // ---------------------------------------------------------------------------

  /** No two consecutive times are equal, so every `dv/dt` is a number. */
  predicate StepsNonZero(timestamps: seq<int>)
  {
    forall i :: 0 < i < |timestamps| ==> timestamps[i] != timestamps[i - 1]
  }

  /** numpy can divide the speed steps by the time steps: each list has at
      least one step, and the two step counts agree or one of them is a
      single step, which numpy stretches over the other. */
  predicate Broadcastable(n: nat, m: nat)
  {
    n >= 2 && m >= 2 && (n == m || n == 2 || m == 2)
  }

  /** The number of quotients numpy computes: the longer step list's. */
  function QuotientCount(n: nat, m: nat): nat
    requires n >= 1 && m >= 1
  {
    if n >= m then n - 1 else m - 1
  }

  /** Which of `steps` steps the k-th quotient takes: its own, or the only
      one when a single step is stretched. */
  function StretchIndex(steps: nat, k: nat): nat
  {
    if steps == 1 then 0 else k
  }

  /** The k-th element of `np.diff(speeds) / np.diff(times)`. */
  function Quotient(speeds: seq<real>, timestamps: seq<int>, k: nat): real
    requires Broadcastable(|speeds|, |timestamps|) && StepsNonZero(timestamps)
    requires k < QuotientCount(|speeds|, |timestamps|)
  {
    var i := StretchIndex(|speeds| - 1, k);
    var j := StretchIndex(|timestamps| - 1, k);
    (speeds[i + 1] - speeds[i]) / ((timestamps[j + 1] - timestamps[j]) as real)
  }

  /** `np.diff(speeds) / np.diff(times)`, broadcasting a single step. */
  function Quotients(speeds: seq<real>, timestamps: seq<int>): (a: seq<real>)
    requires Broadcastable(|speeds|, |timestamps|) && StepsNonZero(timestamps)
    ensures |a| == QuotientCount(|speeds|, |timestamps|)
  {
    seq(QuotientCount(|speeds|, |timestamps|), k requires 0 <= k < QuotientCount(|speeds|, |timestamps|) => Quotient(speeds, timestamps, k))
  }

  /** Each acceleration times the time step it divides by is the speed
      change it divides: the k-th step of both lists when their lengths
      agree, and the only step of a two-element list for every k. */
  lemma QuotientsTimesSteps(speeds: seq<real>, timestamps: seq<int>, k: nat)
    requires Broadcastable(|speeds|, |timestamps|) && StepsNonZero(timestamps)
    requires k < QuotientCount(|speeds|, |timestamps|)
    ensures var i := if |speeds| == 2 then 0 else k;
      var j := if |timestamps| == 2 then 0 else k;
      && i + 1 < |speeds| && j + 1 < |timestamps|
      && Quotients(speeds, timestamps)[k] * ((timestamps[j + 1] - timestamps[j]) as real) == speeds[i + 1] - speeds[i]
  {
    var i := StretchIndex(|speeds| - 1, k);
    var j := StretchIndex(|timestamps| - 1, k);
    var dt := (timestamps[j + 1] - timestamps[j]) as real;
    assert timestamps[j + 1] != timestamps[j];
    var q := (speeds[i + 1] - speeds[i]) / dt;
    assert Quotients(speeds, timestamps)[k] == q;
    assert q * dt == speeds[i + 1] - speeds[i];
  }

  /** The profile; the acceleration figures are absent when two
      consecutive times are equal, where numpy divides by zero and yields
      infinities or NaN. */
  datatype SpeedProfile = SpeedProfile(
    maxSpeed: real,
    avgSpeed: real,
    overSpeedCount: nat,
    overSpeedRatio: real,
    distribution: seq<nat>,
    acceleration: Option<AtpAnalyzer.AccelerationStats>)

  /** `analyze_speed_profile`: nothing for no speeds or no times; otherwise
      a ValueError when numpy cannot divide the speed steps by the time
      steps (step counts that differ with neither a single step) or when
      the division leaves no acceleration to take the `max` of (a single
      speed or a single time). */
  function AnalyzeSpeedProfile(speeds: seq<real>, timestamps: seq<int>, threshold: real): (r: Result<Option<SpeedProfile>, Failure>)
    ensures r == Ok(None) <==> speeds == [] || timestamps == []
    ensures r.Err? <==> speeds != [] && timestamps != [] && !Broadcastable(|speeds|, |timestamps|)
    ensures r.Err? ==> r.error == ValueError
  {
    if speeds == [] || timestamps == [] then Ok(None)
    else if !Broadcastable(|speeds|, |timestamps|) then Err(ValueError)
    else Ok(Some(ProfileOf(speeds, timestamps, threshold)))
  }

  /** The profile fails exactly for a single speed, a single time, or
      speed and time lists of different lengths neither of which has
      exactly two elements. */
  lemma ProfileFails(speeds: seq<real>, timestamps: seq<int>, threshold: real)
    ensures AnalyzeSpeedProfile(speeds, timestamps, threshold).Err? <==>
      (&& speeds != [] && timestamps != []
       && (|speeds| == 1 || |timestamps| == 1 || (|speeds| != |timestamps| && |speeds| != 2 && |timestamps| != 2)))
  {
  }

  /** The figures of a profile the analyzer can compute. */
  function ProfileOf(speeds: seq<real>, timestamps: seq<int>, threshold: real): SpeedProfile
    requires Broadcastable(|speeds|, |timestamps|)
  {
    var count := CountAbove(speeds, threshold);
    SpeedProfile(
      Max(speeds),
      Mean(speeds),
      count,
      Percentage(count, |speeds|),
      SpeedBands(speeds),
      ProfileAcceleration(speeds, timestamps))
  }

  /** The acceleration figures of the quotients, when no time step is zero. */
  function ProfileAcceleration(speeds: seq<real>, timestamps: seq<int>): (a: Option<AtpAnalyzer.AccelerationStats>)
    requires Broadcastable(|speeds|, |timestamps|)
    ensures a.Some? <==> StepsNonZero(timestamps)
  {
    if StepsNonZero(timestamps) then Some(AtpAnalyzer.AccelerationSummary(Quotients(speeds, timestamps))) else None
  }

  /** Two speeds against five distinct times: numpy stretches the one
      speed step over the four time steps, so a profile is computed, with
      the accelerations 12, 12, 6 and 3. */
  lemma BroadcastProfile()
    ensures var r := AnalyzeSpeedProfile([0.0, 12.0], [0, 1, 2, 4, 8], 90.0);
      r.Ok? && r.value.Some?
    ensures StepsNonZero([0, 1, 2, 4, 8])
    ensures var a := Quotients([0.0, 12.0], [0, 1, 2, 4, 8]);
      |a| == 4 && a[0] == 12.0 && a[1] == 12.0 && a[2] == 6.0 && a[3] == 3.0
  {
    var t := [0, 1, 2, 4, 8];
    assert t[1] != t[0] && t[2] != t[1] && t[3] != t[2] && t[4] != t[3];
    var a := Quotients([0.0, 12.0], t);
    assert a[0] == 12.0 / 1.0 && a[1] == 12.0 / 1.0 && a[2] == 12.0 / 2.0 && a[3] == 12.0 / 4.0;
  }

  /** The over-speed count is the number of speeds strictly above the
      threshold. */
  lemma ProfileOverSpeed(speeds: seq<real>, timestamps: seq<int>, threshold: real, p: SpeedProfile)
    requires AnalyzeSpeedProfile(speeds, timestamps, threshold) == Ok(Some(p))
    ensures p.overSpeedCount == Count(speeds, Above(threshold))
  {
    ProfileFields(speeds, timestamps, threshold, p);
    CountAboveIsFilter(speeds, threshold);
  }

  /** The over-speed ratio is the percentage of the speeds that lie
      strictly above the threshold, so it lies between 0 and 100. */
  lemma ProfileRatio(speeds: seq<real>, timestamps: seq<int>, threshold: real, p: SpeedProfile)
    requires AnalyzeSpeedProfile(speeds, timestamps, threshold) == Ok(Some(p))
    ensures 0.0 <= p.overSpeedRatio <= 100.0
    ensures Count(speeds, Above(threshold)) <= |speeds|
    ensures p.overSpeedRatio == Percentage(Count(speeds, Above(threshold)), |speeds|)
  {
    ProfileIsOf(speeds, timestamps, threshold, p);
    CountAboveIsFilter(speeds, threshold);
  }

  /** The top speed bounds every speed, the average lies between the
      extremes, there are six bands, and the acceleration figures are
      present exactly when no two consecutive times are equal. */
  lemma ProfileSpeeds(speeds: seq<real>, timestamps: seq<int>, threshold: real, p: SpeedProfile)
    requires AnalyzeSpeedProfile(speeds, timestamps, threshold) == Ok(Some(p))
    ensures forall i :: 0 <= i < |speeds| ==> speeds[i] <= p.maxSpeed
    ensures p.maxSpeed in speeds
    ensures Min(speeds) <= p.avgSpeed <= p.maxSpeed
    ensures |p.distribution| == 6
    ensures p.acceleration.Some? <==> StepsNonZero(timestamps)
  {
    ProfileFields(speeds, timestamps, threshold, p);
    MeanBounds(speeds);
  }

  /** A computed profile is the one of `ProfileOf`. */
  lemma ProfileIsOf(speeds: seq<real>, timestamps: seq<int>, threshold: real, p: SpeedProfile)
    requires AnalyzeSpeedProfile(speeds, timestamps, threshold) == Ok(Some(p))
    ensures Broadcastable(|speeds|, |timestamps|)
    ensures p == ProfileOf(speeds, timestamps, threshold)
  {
  }

  /** The fields of a computed profile, one by one. */
  lemma ProfileFields(speeds: seq<real>, timestamps: seq<int>, threshold: real, p: SpeedProfile)
    requires AnalyzeSpeedProfile(speeds, timestamps, threshold) == Ok(Some(p))
    ensures Broadcastable(|speeds|, |timestamps|) && speeds != []
    ensures p.maxSpeed == Max(speeds) && p.avgSpeed == Mean(speeds)
    ensures p.overSpeedCount == CountAbove(speeds, threshold) <= |speeds|
    ensures |p.distribution| == 6
    ensures p.acceleration.Some? <==> StepsNonZero(timestamps)
  {
  }

  /** `count / n * 100`. */
  function Percentage(count: nat, n: nat): (q: real)
    requires 0 < n && count <= n
    ensures 0.0 <= q <= 100.0
    ensures q * (n as real) == (count as real) * 100.0
  {
    var f := count as real / (n as real);
    assert f * (n as real) == count as real;
    assert f <= 1.0;
    f * 100.0
  }

  // ---------------------------------------------------------------------------
  // detect_speed_events
  // ---------------------------------------------------------------------------

  /** One detected event, with its time: the sudden acceleration or
      deceleration in km/h/s with the speed, the speed above the threshold,
      or the window's variance with its average speed. */
  datatype SpeedEvent =
    | RapidAcceleration(time: int, value: real, speed: real)
    | RapidDeceleration(time: int, value: real, speed: real)
    | OverSpeed(time: int, value: real, threshold: real)
    | Fluctuation(time: int, variance: real, avgSpeed: real)

  function Squares(s: seq<real>, m: real): (r: seq<real>)
    ensures |r| == |s|
  {
    if s == [] then [] else Squares(s[..|s| - 1], m) + [(s[|s| - 1] - m) * (s[|s| - 1] - m)]
  }

  /** `np.std(window) ** 2`: the mean squared distance from the mean. */
  function Variance(s: seq<real>): (v: real)
    requires s != []
  {
    Mean(Squares(s, Mean(s)))
  }

  /** The number of window positions the loop visits. */
  function Positions(speeds: seq<real>, windowSize: nat): nat
  {
    if |speeds| > windowSize then |speeds| - windowSize else 0
  }

  /** The events of position i, in the order the loop appends them. */
  function EventsAt(speeds: seq<real>, timestamps: seq<int>, windowSize: nat, threshold: real, i: nat): Result<seq<SpeedEvent>, Failure>
    requires i < Positions(speeds, windowSize)
  {
    var window := speeds[i..i + windowSize];
    match SuddenChanges(speeds, timestamps, i)
    case Err(f) => Err(f)
    case Ok(changes) =>
      var over := speeds[i] > threshold;
      var fluctuates := window != [] && Variance(window) > FluctuationVariance;
      if (over || fluctuates) && i >= |timestamps| then Err(IndexError)
      else
        Ok(changes
           + (if over then [OverSpeed(timestamps[i], speeds[i], threshold)] else [])
           + (if fluctuates then [Fluctuation(timestamps[i], Variance(window), Mean(window))] else []))
  }

  /** The sudden acceleration and deceleration checks of position i, which
      the first position skips. */
  function SuddenChanges(speeds: seq<real>, timestamps: seq<int>, i: nat): Result<seq<SpeedEvent>, Failure>
    requires i < |speeds|
  {
    if i == 0 then Ok([])
    else if i >= |timestamps| then Err(IndexError)
    else
      var dt := timestamps[i] - timestamps[i - 1];
      if dt == 0 then Err(ZeroDivisionError)
      else
        var acceleration := (speeds[i] - speeds[i - 1]) / (dt as real);
        var deceleration := (speeds[i - 1] - speeds[i]) / (dt as real);
        Ok((if acceleration > SuddenChange then [RapidAcceleration(timestamps[i], acceleration, speeds[i])] else [])
           + (if deceleration > SuddenChange then [RapidDeceleration(timestamps[i], deceleration, speeds[i])] else []))
  }

  /** The events of the first k positions, or the first failure. */
  function EventsUpTo(speeds: seq<real>, timestamps: seq<int>, windowSize: nat, threshold: real, k: nat): Result<seq<SpeedEvent>, Failure>
    requires k <= Positions(speeds, windowSize)
  {
    if k == 0 then Ok([])
    else
      match EventsUpTo(speeds, timestamps, windowSize, threshold, k - 1)
      case Err(f) => Err(f)
      case Ok(events) =>
        match EventsAt(speeds, timestamps, windowSize, threshold, k - 1)
        case Err(f) => Err(f)
        case Ok(more) => Ok(events + more)
  }

  function SpeedEventsOf(speeds: seq<real>, timestamps: seq<int>, windowSize: nat, threshold: real): Result<seq<SpeedEvent>, Failure>
  {
    EventsUpTo(speeds, timestamps, windowSize, threshold, Positions(speeds, windowSize))
  }

  /** `detect_speed_events`. */
  method DetectSpeedEvents(speeds: seq<real>, timestamps: seq<int>, windowSize: nat, threshold: real) returns (r: Result<seq<SpeedEvent>, Failure>)
    ensures r == SpeedEventsOf(speeds, timestamps, windowSize, threshold)
  {
    var events: seq<SpeedEvent> := [];
    var n := Positions(speeds, windowSize);
    for i := 0 to n
      invariant EventsUpTo(speeds, timestamps, windowSize, threshold, i) == Ok(events)
    {
      var found := CheckPosition(speeds, timestamps, windowSize, threshold, i);
      if found.Err? {
        FailLater(speeds, timestamps, windowSize, threshold, i + 1);
        return Err(found.error);
      }
      events := events + found.value;
    }
    r := Ok(events);
  }

  /** The four checks of one window position, in the order the loop
      appends their events. */
  method CheckPosition(speeds: seq<real>, timestamps: seq<int>, windowSize: nat, threshold: real, i: nat) returns (r: Result<seq<SpeedEvent>, Failure>)
    requires i < Positions(speeds, windowSize)
    ensures r == EventsAt(speeds, timestamps, windowSize, threshold, i)
  {
    var window := speeds[i..i + windowSize];
    var changes := CheckSuddenChanges(speeds, timestamps, i);
    if changes.Err? {
      return Err(changes.error);
    }
    var found := changes.value;
    var over := speeds[i] > threshold;
    var fluctuates := window != [] && Variance(window) > FluctuationVariance;
    if (over || fluctuates) && i >= |timestamps| {
      return Err(IndexError);
    }
    ghost var overs := if over then [OverSpeed(timestamps[i], speeds[i], threshold)] else [];
    ghost var swings := if fluctuates then [Fluctuation(timestamps[i], Variance(window), Mean(window))] else [];
    if over {
      found := found + [OverSpeed(timestamps[i], speeds[i], threshold)];
    }
    assert found == changes.value + overs;
    if fluctuates {
      found := found + [Fluctuation(timestamps[i], Variance(window), Mean(window))];
    }
    assert found == changes.value + overs + swings;
    r := Ok(found);
  }

  /** The two sudden-change checks of one position. */
  method CheckSuddenChanges(speeds: seq<real>, timestamps: seq<int>, i: nat) returns (r: Result<seq<SpeedEvent>, Failure>)
    requires i < |speeds|
    ensures r == SuddenChanges(speeds, timestamps, i)
  {
    var found: seq<SpeedEvent> := [];
    if i > 0 {
      if i >= |timestamps| {
        return Err(IndexError);
      }
      var dt := timestamps[i] - timestamps[i - 1];
      if dt == 0 {
        return Err(ZeroDivisionError);
      }
      var acceleration := (speeds[i] - speeds[i - 1]) / (dt as real);
      if acceleration > SuddenChange {
        found := found + [RapidAcceleration(timestamps[i], acceleration, speeds[i])];
      }
      ghost var accelerated := found;
      assert accelerated == if acceleration > SuddenChange then [RapidAcceleration(timestamps[i], acceleration, speeds[i])] else [];
      var deceleration := (speeds[i - 1] - speeds[i]) / (dt as real);
      if deceleration > SuddenChange {
        found := found + [RapidDeceleration(timestamps[i], deceleration, speeds[i])];
      }
      assert found == accelerated + (if deceleration > SuddenChange then [RapidDeceleration(timestamps[i], deceleration, speeds[i])] else []);
    }
    r := Ok(found);
  }

  /** Once the first k positions have failed, the whole detection fails
      the same way. */
  lemma {:induction false} FailLater(speeds: seq<real>, timestamps: seq<int>, windowSize: nat, threshold: real, k: nat)
    requires k <= Positions(speeds, windowSize)
    requires EventsUpTo(speeds, timestamps, windowSize, threshold, k).Err?
    ensures SpeedEventsOf(speeds, timestamps, windowSize, threshold) == EventsUpTo(speeds, timestamps, windowSize, threshold, k)
    decreases Positions(speeds, windowSize) - k
  {
    if k < Positions(speeds, windowSize) {
      FailLater(speeds, timestamps, windowSize, threshold, k + 1);
    }
  }

  predicate IsOverSpeedEvent(e: SpeedEvent)
  {
    e.OverSpeed?
  }

  /** Reference definition of the over-speed event of position i: one
      exactly when its speed is strictly above the threshold. */
  function OverSpeedOf(speeds: seq<real>, timestamps: seq<int>, threshold: real, i: nat): (r: seq<SpeedEvent>)
    requires i < |speeds|
    ensures |r| <= 1 && forall j :: 0 <= j < |r| ==> r[j].OverSpeed?
  {
    if speeds[i] > threshold && i < |timestamps| then [OverSpeed(timestamps[i], speeds[i], threshold)] else []
  }

  /** The over-speed events of the first k positions, in position order. */
  function OverSpeedsUpTo(speeds: seq<real>, timestamps: seq<int>, threshold: real, k: nat): (r: seq<SpeedEvent>)
    requires k <= |speeds|
    ensures |r| <= k
  {
    if k == 0 then []
    else OverSpeedsUpTo(speeds, timestamps, threshold, k - 1) + OverSpeedOf(speeds, timestamps, threshold, k - 1)
  }

  /** A position reports at most one sudden change, never both an
      acceleration and a deceleration, and the first position none. */
  lemma SuddenChangesAtMostOne(speeds: seq<real>, timestamps: seq<int>, i: nat)
    requires i < |speeds|
    requires SuddenChanges(speeds, timestamps, i).Ok?
    ensures var changes := SuddenChanges(speeds, timestamps, i).value;
      && |changes| <= 1
      && (i == 0 ==> changes == [])
      && forall j :: 0 <= j < |changes| ==>
        (changes[j].RapidAcceleration? || changes[j].RapidDeceleration?) && changes[j].value > SuddenChange
  {
    if i > 0 {
      var dt := (timestamps[i] - timestamps[i - 1]) as real;
      var acceleration := (speeds[i] - speeds[i - 1]) / dt;
      var deceleration := (speeds[i - 1] - speeds[i]) / dt;
      assert deceleration == -acceleration;
    }
  }

  /** The over-speed events of one position: one exactly when its speed
      exceeds the threshold. */
  lemma OverSpeedAt(speeds: seq<real>, timestamps: seq<int>, windowSize: nat, threshold: real, i: nat)
    requires i < Positions(speeds, windowSize)
    requires EventsAt(speeds, timestamps, windowSize, threshold, i).Ok?
    ensures Filter(EventsAt(speeds, timestamps, windowSize, threshold, i).value, IsOverSpeedEvent)
      == OverSpeedOf(speeds, timestamps, threshold, i)
  {
    var window := speeds[i..i + windowSize];
    var changes := SuddenChanges(speeds, timestamps, i).value;
    var fluctuates := window != [] && Variance(window) > FluctuationVariance;
    var swings := if fluctuates then [Fluctuation(timestamps[i], Variance(window), Mean(window))] else [];
    SuddenChangesAtMostOne(speeds, timestamps, i);
    FilterOverSpeeds(changes, OverSpeedOf(speeds, timestamps, threshold, i), swings);
  }

  /** At most one event, and not an over-speed one: nothing is kept. */
  lemma FilterNoOverSpeed(s: seq<SpeedEvent>)
    requires |s| <= 1 && (s != [] ==> !s[0].OverSpeed?)
    ensures Filter(s, IsOverSpeedEvent) == []
  {
    FilterAtMostOne(s, IsOverSpeedEvent);
  }

  /** At most one event, an over-speed one: it is kept. */
  lemma FilterOneOverSpeed(s: seq<SpeedEvent>)
    requires |s| <= 1 && (s != [] ==> s[0].OverSpeed?)
    ensures Filter(s, IsOverSpeedEvent) == s
  {
    FilterAtMostOne(s, IsOverSpeedEvent);
  }

  /** Only the middle part of a position's events are over-speed events. */
  lemma FilterOverSpeeds(changes: seq<SpeedEvent>, overs: seq<SpeedEvent>, swings: seq<SpeedEvent>)
    requires |changes| <= 1 && forall i :: 0 <= i < |changes| ==> changes[i].RapidAcceleration? || changes[i].RapidDeceleration?
    requires |overs| <= 1 && forall i :: 0 <= i < |overs| ==> overs[i].OverSpeed?
    requires |swings| <= 1 && forall i :: 0 <= i < |swings| ==> swings[i].Fluctuation?
    ensures Filter(changes + overs + swings, IsOverSpeedEvent) == overs
  {
    FilterNoOverSpeed(changes);
    FilterOneOverSpeed(overs);
    FilterNoOverSpeed(swings);
    var front := changes + overs;
    FilterAppend(changes, overs, IsOverSpeedEvent);
    assert Filter(front, IsOverSpeedEvent) == overs by {
      assert [] + overs == overs;
    }
    FilterAppend(front, swings, IsOverSpeedEvent);
    assert overs + [] == overs;
  }

  /** The over-speed events a successful detection reports are exactly
      those of the reference definition: one per examined position whose
      speed exceeds the threshold. */
  lemma {:induction false} OverSpeedEvents(speeds: seq<real>, timestamps: seq<int>, windowSize: nat, threshold: real, k: nat)
    requires k <= Positions(speeds, windowSize)
    requires EventsUpTo(speeds, timestamps, windowSize, threshold, k).Ok?
    ensures Filter(EventsUpTo(speeds, timestamps, windowSize, threshold, k).value, IsOverSpeedEvent)
      == OverSpeedsUpTo(speeds, timestamps, threshold, k)
  {
    if k > 0 {
      var i := k - 1;
      var before := EventsUpTo(speeds, timestamps, windowSize, threshold, i).value;
      var more := EventsAt(speeds, timestamps, windowSize, threshold, i).value;
      OverSpeedEvents(speeds, timestamps, windowSize, threshold, i);
      OverSpeedAt(speeds, timestamps, windowSize, threshold, i);
      FilterAppend(before, more, IsOverSpeedEvent);
    }
  }

  /** Hence the number of over-speed events is the number of examined
      positions whose speed is strictly above the threshold. */
  lemma {:induction false} OverSpeedCount(speeds: seq<real>, timestamps: seq<int>, threshold: real, k: nat)
    requires k <= |speeds| && k <= |timestamps|
    ensures |OverSpeedsUpTo(speeds, timestamps, threshold, k)| == Count(speeds[..k], Above(threshold))
  {
    if k > 0 {
      OverSpeedCount(speeds, timestamps, threshold, k - 1);
      assert speeds[..k][..k - 1] == speeds[..k - 1];
    }
  }
}


/** `LocationAnalyzer`: where the train passes the stations of a station
    map, the running time between consecutive passes, and the average
    speed within each section between two stations. */
module LocationAnalyzer {
  import opened Common
  import opened Stats
  import AtpAnalyzer
  import Processors

  /** One entry of the station map, in the map's order: a station and its
      kilometre mark. */
  datatype Mark = Mark(name: string, km: real)

  /** A location closer than 50 metres to its nearest station passes it. */
  const NearDistance: real := 0.05

  /** What the analyzer raises. */
  datatype Failure =
    | ValueError   // `min` over an empty station map
    | IndexError   // a time is missing for a location

  function Distance(m: Mark, location: real): real
  {
    AbsReal(m.km - location)
  }

  // ---------------------------------------------------------------------------
  // analyze_station_times
  // ---------------------------------------------------------------------------

  /** `min(station_map.items(), key=distance)`: the index of the first
      station, in map order, at the least distance (see `NearestIsFirstLeast`). */
  function Nearest(stations: seq<Mark>, location: real): (r: nat)
    requires stations != []
    ensures r < |stations|
  {
    if |stations| == 1 then 0
    else
      var n := |stations| - 1;
      var best := Nearest(stations[..n], location);
      if Distance(stations[n], location) < Distance(stations[best], location) then n else best
  }

  /** The nearest station is at the least distance, and every station before
      it in map order is strictly farther. */
  lemma {:induction false} NearestIsFirstLeast(stations: seq<Mark>, location: real)
    requires stations != []
    ensures var r := Nearest(stations, location);
      && (forall j :: 0 <= j < |stations| ==> Distance(stations[r], location) <= Distance(stations[j], location))
      && (forall j :: 0 <= j < r ==> Distance(stations[j], location) > Distance(stations[r], location))
  {
    if |stations| > 1 {
      var n := |stations| - 1;
      var p := stations[..n];
      NearestIsFirstLeast(p, location);
      assert forall j :: 0 <= j < n ==> p[j] == stations[j];
    }
  }

  /** The location passes a station: its nearest station is within 50 metres. */
  predicate IsNear(stations: seq<Mark>, location: real)
  {
    stations != [] && Distance(stations[Nearest(stations, location)], location) < NearDistance
  }

  /** `IsNear` as a predicate to count by. */
  function NearTo(stations: seq<Mark>): real -> bool
  {
    location => IsNear(stations, location)
  }

  /** The pass recorded for location i: its nearest station at its time. */
  function PassAt(stations: seq<Mark>, locations: seq<real>, timestamps: seq<int>, i: nat): Processors.Stop
    requires stations != [] && i < |locations| && i < |timestamps|
  {
    Processors.Stop(stations[Nearest(stations, locations[i])].name, timestamps[i])
  }

  /** The passes of the first k locations, or the first failure. */
  function PassesUpTo(stations: seq<Mark>, locations: seq<real>, timestamps: seq<int>, k: nat): Result<seq<Processors.Stop>, Failure>
    requires k <= |locations|
  {
    if k == 0 then Ok([])
    else
      match PassesUpTo(stations, locations, timestamps, k - 1)
      case Err(f) => Err(f)
      case Ok(passes) =>
        if stations == [] then Err(ValueError)
        else if !IsNear(stations, locations[k - 1]) then Ok(passes)
        else if k - 1 >= |timestamps| then Err(IndexError)
        else Ok(passes + [PassAt(stations, locations, timestamps, k - 1)])
  }

  /** What `analyze_station_times` returns or raises: the running time, in
      minutes, between consecutive passes, under the key "A->B". */
  function StationTimesOf(stations: seq<Mark>, locations: seq<real>, timestamps: seq<int>): Result<map<string, real>, Failure>
  {
    match PassesUpTo(stations, locations, timestamps, |locations|)
    case Err(f) => Err(f)
    case Ok(passes) => Ok(AtpAnalyzer.RawTransits(passes))
  }

  /** `analyze_station_times`. */
  method AnalyzeStationTimes(stations: seq<Mark>, locations: seq<real>, timestamps: seq<int>) returns (r: Result<map<string, real>, Failure>)
    ensures r == StationTimesOf(stations, locations, timestamps)
  {
    var stationTimes: map<string, real> := map[];
    var currentStation: Option<string> := None;
    var entryTime: Option<int> := None;
    for i := 0 to |locations|
      invariant Passed(stations, locations, timestamps, i, stationTimes, currentStation, entryTime)
    {
      var failure;
      failure, stationTimes, currentStation, entryTime :=
        VisitLocation(stations, locations, timestamps, i, stationTimes, currentStation, entryTime);
      if failure.Some? {
        PassesFailLater(stations, locations, timestamps, i + 1);
        return Err(failure.value);
      }
    }
    r := Ok(stationTimes);
  }

  /** The state after the first i locations: no failure so far, the
      transits between the passes so far, and the station and time of the
      last pass. */
  ghost predicate Passed(stations: seq<Mark>, locations: seq<real>, timestamps: seq<int>, i: nat,
                         times: map<string, real>, current: Option<string>, entry: Option<int>)
    requires i <= |locations|
  {
    var walk := PassesUpTo(stations, locations, timestamps, i);
    && walk.Ok?
    && times == AtpAnalyzer.RawTransits(walk.value)
    && (current.None? <==> walk.value == [])
    && (entry.None? <==> walk.value == [])
    && (walk.value != [] ==>
          current == Some(walk.value[|walk.value| - 1].name) && entry == Some(walk.value[|walk.value| - 1].time))
  }

  /** One iteration over a location: a location near its nearest station
      records the transit from the current station, when that has a name,
      and becomes the current one. */
  method VisitLocation(stations: seq<Mark>, locations: seq<real>, timestamps: seq<int>, i: nat,
                       stationTimes: map<string, real>, currentStation: Option<string>, entryTime: Option<int>)
    returns (failure: Option<Failure>, times': map<string, real>, current': Option<string>, entry': Option<int>)
    requires i < |locations| && Passed(stations, locations, timestamps, i, stationTimes, currentStation, entryTime)
    ensures failure.Some? ==> PassesUpTo(stations, locations, timestamps, i + 1) == Err(failure.value)
    ensures failure.None? ==> Passed(stations, locations, timestamps, i + 1, times', current', entry')
  {
    failure, times', current', entry' := None, stationTimes, currentStation, entryTime;
    if stations == [] {
      return Some(ValueError), times', current', entry';
    }
    var mark := stations[Nearest(stations, locations[i])];
    if Distance(mark, locations[i]) < NearDistance {
      if i >= |timestamps| {
        return Some(IndexError), times', current', entry';
      }
      if currentStation.Some? && currentStation.value != [] && entryTime.Some? {
        var duration := timestamps[i] - entryTime.value;
        times' := stationTimes[Processors.TransitKey(currentStation.value, mark.name) := duration as real / 60.0];
      }
      current' := Some(mark.name);
      entry' := Some(timestamps[i]);
      PassStep(stations, locations, timestamps, i, stationTimes, currentStation, entryTime);
    }
  }

  /** A location near its nearest station records the transit from the
      current station, when there is one with a name, and becomes the
      current pass. */
  lemma PassStep(stations: seq<Mark>, locations: seq<real>, timestamps: seq<int>, i: nat,
                 times: map<string, real>, current: Option<string>, entry: Option<int>)
    requires i < |locations| && i < |timestamps| && Passed(stations, locations, timestamps, i, times, current, entry)
    requires IsNear(stations, locations[i])
    ensures var mark := stations[Nearest(stations, locations[i])];
      var times' := if current.Some? && current.value != [] && entry.Some?
                    then times[Processors.TransitKey(current.value, mark.name) := (timestamps[i] - entry.value) as real / 60.0]
                    else times;
      Passed(stations, locations, timestamps, i + 1, times', Some(mark.name), Some(timestamps[i]))
  {
    var passes := PassesUpTo(stations, locations, timestamps, i).value;
    var pass := PassAt(stations, locations, timestamps, i);
    assert PassesUpTo(stations, locations, timestamps, i + 1) == Ok(passes + [pass]);
    RawTransitsSnoc(passes, pass);
  }

  /** One more pass adds the transit from the previous one, unless this
      has an empty name. */
  lemma RawTransitsSnoc(passes: seq<Processors.Stop>, pass: Processors.Stop)
    ensures AtpAnalyzer.RawTransits(passes + [pass])
      == if passes != [] && passes[|passes| - 1].name != []
         then Processors.AddTransit(AtpAnalyzer.RawTransits(passes), passes[|passes| - 1], pass)
         else AtpAnalyzer.RawTransits(passes)
  {
    assert (passes + [pass])[..|passes|] == passes;
  }

  /** Once the first k locations have failed, the whole walk fails the
      same way. */
  lemma {:induction false} PassesFailLater(stations: seq<Mark>, locations: seq<real>, timestamps: seq<int>, k: nat)
    requires k <= |locations|
    requires PassesUpTo(stations, locations, timestamps, k).Err?
    ensures PassesUpTo(stations, locations, timestamps, |locations|) == PassesUpTo(stations, locations, timestamps, k)
    decreases |locations| - k
  {
    if k < |locations| {
      PassesFailLater(stations, locations, timestamps, k + 1);
    }
  }

  /** The walk raises ValueError exactly when there are locations but no
      stations, and IndexError exactly when some location passing a
      station has no time. */
  lemma {:induction false} PassesFail(stations: seq<Mark>, locations: seq<real>, timestamps: seq<int>, k: nat)
    requires k <= |locations|
    ensures PassesUpTo(stations, locations, timestamps, k) == Err(ValueError) <==> stations == [] && k > 0
    ensures PassesUpTo(stations, locations, timestamps, k) == Err(IndexError) <==>
      stations != [] && exists i :: |timestamps| <= i < k && IsNear(stations, locations[i])
  {
    if k > 0 {
      PassesFail(stations, locations, timestamps, k - 1);
      var before := PassesUpTo(stations, locations, timestamps, k - 1);
      if stations != [] && before.Err? {
        assert before.error == IndexError;
      }
    }
  }

  /** Without a failure there is one pass per location near a station. */
  lemma {:induction false} PassesCount(stations: seq<Mark>, locations: seq<real>, timestamps: seq<int>, k: nat)
    requires k <= |locations|
    requires PassesUpTo(stations, locations, timestamps, k).Ok?
    ensures |PassesUpTo(stations, locations, timestamps, k).value| == Count(locations[..k], NearTo(stations))
  {
    if k > 0 {
      PassesCount(stations, locations, timestamps, k - 1);
      var near := IsNear(stations, locations[k - 1]);
      var before := PassesUpTo(stations, locations, timestamps, k - 1).value;
      assert |PassesUpTo(stations, locations, timestamps, k).value| == |before| + if near then 1 else 0;
      CountPrefixStep(locations, k, NearTo(stations));
      assert NearTo(stations)(locations[k - 1]) == near;
    }
  }

  /** Each pass is the nearest station of a location near it, at that
      location's time. */
  lemma {:induction false} PassesFrom(stations: seq<Mark>, locations: seq<real>, timestamps: seq<int>, k: nat)
    requires k <= |locations|
    requires PassesUpTo(stations, locations, timestamps, k).Ok?
    ensures var passes := PassesUpTo(stations, locations, timestamps, k).value;
      forall j :: 0 <= j < |passes| ==>
        exists i :: 0 <= i < k && i < |timestamps| && IsNear(stations, locations[i]) && passes[j] == PassAt(stations, locations, timestamps, i)
  {
    if k > 0 {
      PassesFrom(stations, locations, timestamps, k - 1);
      var before := PassesUpTo(stations, locations, timestamps, k - 1).value;
      var passes := PassesUpTo(stations, locations, timestamps, k).value;
      forall j | 0 <= j < |passes|
        ensures exists i :: 0 <= i < k && i < |timestamps| && IsNear(stations, locations[i]) && passes[j] == PassAt(stations, locations, timestamps, i)
      {
        if j < |before| {
          assert passes[j] == before[j];
        } else {
          assert passes[j] == PassAt(stations, locations, timestamps, k - 1);
        }
      }
    }
  }

  // ---------------------------------------------------------------------------
  // calculate_section_speeds
  // ---------------------------------------------------------------------------

  /** `f"{station1}-{station2}"`. */
  function SectionKey(from: string, to: string): string
  {
    from + "-" + to
  }

  /** The sections starting at `first` that strictly contain the location,
      in the order of the inner loop over `seconds`. */
  function InnerSections(first: Mark, seconds: seq<Mark>, location: real): (keys: seq<string>)
    ensures |keys| <= |seconds|
  {
    if seconds == [] then []
    else
      var second := seconds[|seconds| - 1];
      InnerSections(first, seconds[..|seconds| - 1], location)
      + (if first.km < location < second.km then [SectionKey(first.name, second.name)] else [])
  }

  /** The sections strictly containing the location, in the order of the
      two nested loops: `firsts` in the outer loop, all stations in the
      inner one. */
  function Sections(firsts: seq<Mark>, stations: seq<Mark>, location: real): seq<string>
  {
    if firsts == [] then []
    else Sections(firsts[..|firsts| - 1], stations, location) + InnerSections(firsts[|firsts| - 1], stations, location)
  }

  /** `section_speeds.setdefault(section, []).append(speed)` for each key in turn. */
  function AddSamples(samples: map<string, seq<real>>, keys: seq<string>, speed: real): map<string, seq<real>>
  {
    if keys == [] then samples
    else
      AddSample(AddSamples(samples, keys[..|keys| - 1], speed), keys[|keys| - 1], speed)
  }

  /** `section_speeds.setdefault(key, []).append(speed)`. */
  function AddSample(samples: map<string, seq<real>>, key: string, speed: real): map<string, seq<real>>
  {
    samples[key := (if key in samples then samples[key] else []) + [speed]]
  }

  /** The number of consecutive location pairs the loop visits. */
  function Pairs(locations: seq<real>): nat
  {
    if locations == [] then 0 else |locations| - 1
  }

  /** `distance / time_diff` with the time difference in hours. */
  function SectionSpeed(distance: real, seconds: int): real
    requires seconds > 0
  {
    distance / ((seconds as real) / 3600.0)
  }

  /** The speed samples of each section after the first k pairs, or the
      first failure. */
  function SamplesUpTo(stations: seq<Mark>, locations: seq<real>, timestamps: seq<int>, k: nat): Result<map<string, seq<real>>, Failure>
    requires k <= Pairs(locations)
  {
    if k == 0 then Ok(map[])
    else
      var i := k - 1;
      match SamplesUpTo(stations, locations, timestamps, i)
      case Err(f) => Err(f)
      case Ok(samples) => SampleStep(stations, locations, timestamps, i, samples)
  }

  /** The speed samples after pair i, i + 1: the speed between the two
      locations added to each section containing the first, unless the time
      does not advance. */
  function SampleStep(stations: seq<Mark>, locations: seq<real>, timestamps: seq<int>, i: nat, samples: map<string, seq<real>>)
    : Result<map<string, seq<real>>, Failure>
    requires i < Pairs(locations)
  {
    if i + 1 >= |timestamps| then Err(IndexError)
    else
      var seconds := timestamps[i + 1] - timestamps[i];
      if seconds <= 0 then Ok(samples)
      else Ok(AddSamples(samples, Sections(stations, stations, locations[i]), SectionSpeed(locations[i + 1] - locations[i], seconds)))
  }

  predicate NoEmptySamples(samples: map<string, seq<real>>)
  {
    forall key :: key in samples ==> samples[key] != []
  }

  /** The dictionary comprehension of the averages. */
  function Averages(samples: map<string, seq<real>>): (r: map<string, real>)
    requires NoEmptySamples(samples)
    ensures r.Keys == samples.Keys
    ensures forall key :: key in r ==> Min(samples[key]) <= r[key] <= Max(samples[key])
  {
    var r := map key | key in samples :: Mean(samples[key]);
    assert forall key :: key in r ==> Min(samples[key]) <= r[key] <= Max(samples[key]) by {
      forall key | key in r ensures Min(samples[key]) <= r[key] <= Max(samples[key]) {
        MeanBounds(samples[key]);
      }
    }
    r
  }

  /** What `calculate_section_speeds` returns or raises. */
  function SectionSpeedsOf(stations: seq<Mark>, locations: seq<real>, timestamps: seq<int>): Result<map<string, real>, Failure>
  {
    match SamplesUpTo(stations, locations, timestamps, Pairs(locations))
    case Err(f) => Err(f)
    case Ok(samples) =>
      SamplesNonEmpty(stations, locations, timestamps, Pairs(locations));
      Ok(Averages(samples))
  }

  /** A section appears only with at least one speed sample. */
  lemma {:induction false} SamplesNonEmpty(stations: seq<Mark>, locations: seq<real>, timestamps: seq<int>, k: nat)
    requires k <= Pairs(locations)
    requires SamplesUpTo(stations, locations, timestamps, k).Ok?
    ensures NoEmptySamples(SamplesUpTo(stations, locations, timestamps, k).value)
  {
    if k > 0 {
      var i := k - 1;
      SamplesNonEmpty(stations, locations, timestamps, i);
      var seconds := timestamps[i + 1] - timestamps[i];
      if seconds > 0 {
        AddSamplesKeys(SamplesUpTo(stations, locations, timestamps, i).value, Sections(stations, stations, locations[i]),
          SectionSpeed(locations[i + 1] - locations[i], seconds));
      }
    }
  }

  /** Adding samples keeps every old section, adds exactly the given keys,
      and leaves no section without samples. */
  lemma {:induction false} AddSamplesKeys(samples: map<string, seq<real>>, keys: seq<string>, speed: real)
    ensures forall key :: key in AddSamples(samples, keys, speed) <==> key in samples || key in keys
    ensures NoEmptySamples(samples) ==> NoEmptySamples(AddSamples(samples, keys, speed))
  {
    if keys != [] {
      var n := |keys| - 1;
      AddSamplesKeys(samples, keys[..n], speed);
      assert forall key :: key in keys <==> key in keys[..n] || key == keys[n] by {
        assert keys == keys[..n] + [keys[n]];
      }
    }
  }

  /** The location lies strictly inside a section between two stations of
      the map, which the key names. */
  predicate InSection(stations: seq<Mark>, location: real, key: string)
  {
    exists a, b :: 0 <= a < |stations| && 0 <= b < |stations| && SectionOf(stations, stations, a, b, location, key)
  }

  /** The location lies strictly inside the section from `firsts[a]` to
      `seconds[b]`, which the key names. */
  predicate SectionOf(firsts: seq<Mark>, seconds: seq<Mark>, a: nat, b: nat, location: real, key: string)
    requires a < |firsts| && b < |seconds|
  {
    firsts[a].km < location < seconds[b].km && key == SectionKey(firsts[a].name, seconds[b].name)
  }

  /** Every section from `first` to a station beyond the location is listed
      by the inner loop. */
  lemma {:induction false} InnerSectionsListed(first: Mark, seconds: seq<Mark>, location: real, b: nat)
    requires b < |seconds| && first.km < location < seconds[b].km
    ensures SectionKey(first.name, seconds[b].name) in InnerSections(first, seconds, location)
  {
    var n := |seconds| - 1;
    if b < n {
      InnerSectionsListed(first, seconds[..n], location, b);
    }
  }

  /** Every section the inner loop lists runs from `first` to a station
      beyond the location. */
  lemma {:induction false} InnerSectionsFound(first: Mark, seconds: seq<Mark>, location: real, key: string)
    requires key in InnerSections(first, seconds, location)
    ensures exists b :: 0 <= b < |seconds| && first.km < location < seconds[b].km && key == SectionKey(first.name, seconds[b].name)
  {
    var n := |seconds| - 1;
    if key in InnerSections(first, seconds[..n], location) {
      InnerSectionsFound(first, seconds[..n], location, key);
      var b :| 0 <= b < n && first.km < location < seconds[..n][b].km && key == SectionKey(first.name, seconds[..n][b].name);
      assert seconds[..n][b] == seconds[b];
    } else {
      assert first.km < location < seconds[n].km && key == SectionKey(first.name, seconds[n].name);
    }
  }

  /** Every section that strictly contains the location and starts at one
      of `firsts` is listed by the two loops. */
  lemma {:induction false} SectionsListed(firsts: seq<Mark>, stations: seq<Mark>, location: real, a: nat, b: nat, key: string)
    requires a < |firsts| && b < |stations| && SectionOf(firsts, stations, a, b, location, key)
    ensures key in Sections(firsts, stations, location)
  {
    var n := |firsts| - 1;
    if a < n {
      assert firsts[..n][a] == firsts[a];
      SectionsListed(firsts[..n], stations, location, a, b, key);
    } else {
      InnerSectionsListed(firsts[n], stations, location, b);
    }
  }

  /** Every section the two loops list strictly contains the location and
      starts at one of `firsts`. */
  lemma {:induction false} SectionsFound(firsts: seq<Mark>, stations: seq<Mark>, location: real, key: string)
    requires key in Sections(firsts, stations, location)
    ensures exists a, b :: 0 <= a < |firsts| && 0 <= b < |stations| && SectionOf(firsts, stations, a, b, location, key)
  {
    var n := |firsts| - 1;
    var p := firsts[..n];
    if key in Sections(p, stations, location) {
      SectionsFound(p, stations, location, key);
      var a, b :| 0 <= a < n && 0 <= b < |stations| && SectionOf(p, stations, a, b, location, key);
      assert p[a] == firsts[a];
      assert SectionOf(firsts, stations, a, b, location, key);
    } else {
      InnerSectionsFound(firsts[n], stations, location, key);
      var b :| 0 <= b < |stations| && firsts[n].km < location < stations[b].km && key == SectionKey(firsts[n].name, stations[b].name);
      assert SectionOf(firsts, stations, n, b, location, key);
    }
  }

  /** The sections the two loops list for a location are exactly those of
      the map that strictly contain it. */
  lemma SectionsMembers(stations: seq<Mark>, location: real, key: string)
    ensures key in Sections(stations, stations, location) <==> InSection(stations, location, key)
  {
    if key in Sections(stations, stations, location) {
      SectionsFound(stations, stations, location, key);
    }
    if InSection(stations, location, key) {
      var a, b :| 0 <= a < |stations| && 0 <= b < |stations| && SectionOf(stations, stations, a, b, location, key);
      SectionsListed(stations, stations, location, a, b, key);
    }
  }

  /** The walk over the pairs fails, with IndexError, exactly when some
      pair's second time is missing. */
  lemma {:induction false} SamplesFail(stations: seq<Mark>, locations: seq<real>, timestamps: seq<int>, k: nat)
    requires k <= Pairs(locations)
    ensures SamplesUpTo(stations, locations, timestamps, k).Err? <==> k > 0 && k >= |timestamps|
    ensures SamplesUpTo(stations, locations, timestamps, k).Err? ==> SamplesUpTo(stations, locations, timestamps, k).error == IndexError
  {
    if k > 0 {
      SamplesFail(stations, locations, timestamps, k - 1);
    }
  }

  /** The sections with samples after the first k pairs are those that
      strictly contain the first location of a pair whose time advances. */
  lemma {:induction false} SamplesKeys(stations: seq<Mark>, locations: seq<real>, timestamps: seq<int>, k: nat, key: string)
    requires k <= Pairs(locations)
    requires SamplesUpTo(stations, locations, timestamps, k).Ok?
    ensures key in SamplesUpTo(stations, locations, timestamps, k).value <==> Sampled(stations, locations, timestamps, k, key)
  {
    if k > 0 {
      var i := k - 1;
      var before := SamplesUpTo(stations, locations, timestamps, i);
      assert before.Ok?;
      SamplesKeys(stations, locations, timestamps, i, key);
      SampledStep(stations, locations, timestamps, k, key);
      assert SamplesUpTo(stations, locations, timestamps, k) == SampleStep(stations, locations, timestamps, i, before.value);
      SampleStepKeys(stations, locations, timestamps, i, before.value, key);
    }
  }

  /** One pair adds the sections containing its first location, when its
      time advances. */
  lemma SampleStepKeys(stations: seq<Mark>, locations: seq<real>, timestamps: seq<int>, i: nat,
                       samples: map<string, seq<real>>, key: string)
    requires i < Pairs(locations) && SampleStep(stations, locations, timestamps, i, samples).Ok?
    ensures key in SampleStep(stations, locations, timestamps, i, samples).value <==>
      key in samples || (Advances(timestamps, i) && InSection(stations, locations[i], key))
  {
    var seconds := timestamps[i + 1] - timestamps[i];
    if seconds > 0 {
      AddSamplesKeys(samples, Sections(stations, stations, locations[i]), SectionSpeed(locations[i + 1] - locations[i], seconds));
      SectionsMembers(stations, locations[i], key);
    }
  }

  /** Some pair among the first k has a time that advances and a first
      location inside the key's section. */
  predicate Sampled(stations: seq<Mark>, locations: seq<real>, timestamps: seq<int>, k: nat, key: string)
    requires k <= |locations|
  {
    exists i :: 0 <= i < k && Advances(timestamps, i) && InSection(stations, locations[i], key)
  }

  lemma SampledStep(stations: seq<Mark>, locations: seq<real>, timestamps: seq<int>, k: nat, key: string)
    requires 0 < k <= |locations|
    ensures Sampled(stations, locations, timestamps, k, key) <==>
      Sampled(stations, locations, timestamps, k - 1, key)
      || (Advances(timestamps, k - 1) && InSection(stations, locations[k - 1], key))
  {
  }

  /** `calculate_section_speeds` raises IndexError exactly when there is a
      pair of locations and fewer times than locations; otherwise each
      section it reports strictly contains the first location of some pair
      whose time advances, and every such section is reported. */
  lemma SectionSpeedsKeys(stations: seq<Mark>, locations: seq<real>, timestamps: seq<int>, key: string)
    ensures var r := SectionSpeedsOf(stations, locations, timestamps);
      && (r.Err? <==> |locations| >= 2 && |timestamps| < |locations|)
      && (r.Err? ==> r.error == IndexError)
      && (r.Ok? ==> (key in r.value <==> Sampled(stations, locations, timestamps, Pairs(locations), key)))
  {
    SamplesFail(stations, locations, timestamps, Pairs(locations));
    if |locations| < 2 || |timestamps| >= |locations| {
      SamplesKeys(stations, locations, timestamps, Pairs(locations), key);
    }
  }

  /** The time advances from location i to the next. */
  predicate Advances(timestamps: seq<int>, i: nat)
  {
    i + 1 < |timestamps| && timestamps[i + 1] - timestamps[i] > 0
  }

  /** `calculate_section_speeds`. */
  method CalculateSectionSpeeds(stations: seq<Mark>, locations: seq<real>, timestamps: seq<int>) returns (r: Result<map<string, real>, Failure>)
    ensures r == SectionSpeedsOf(stations, locations, timestamps)
  {
    var sectionSpeeds: map<string, seq<real>> := map[];
    for i := 0 to Pairs(locations)
      invariant SamplesUpTo(stations, locations, timestamps, i) == Ok(sectionSpeeds)
    {
      var next := SamplePair(stations, locations, timestamps, i, sectionSpeeds);
      if next.Err? {
        SamplesFailLater(stations, locations, timestamps, i + 1);
        return Err(next.error);
      }
      sectionSpeeds := next.value;
    }
    SamplesNonEmpty(stations, locations, timestamps, Pairs(locations));
    r := Ok(Averages(sectionSpeeds));
  }

  /** One iteration over a pair of consecutive locations. */
  method SamplePair(stations: seq<Mark>, locations: seq<real>, timestamps: seq<int>, i: nat, samples: map<string, seq<real>>)
    returns (r: Result<map<string, seq<real>>, Failure>)
    requires i < Pairs(locations)
    ensures r == SampleStep(stations, locations, timestamps, i, samples)
  {
    if i + 1 >= |timestamps| {
      return Err(IndexError);
    }
    var distance := locations[i + 1] - locations[i];
    var seconds := timestamps[i + 1] - timestamps[i];
    var timeDiff := seconds as real / 3600.0;
    assert timeDiff > 0.0 <==> seconds > 0;
    r := Ok(samples);
    if timeDiff > 0.0 {
      var speed := distance / timeDiff;
      assert speed == SectionSpeed(distance, seconds);
      var added := AddSectionSamples(stations, locations[i], speed, samples);
      r := Ok(added);
    }
  }

  /** The two nested loops over the station map for one location: the
      speed is appended to every section that strictly contains it. */
  method AddSectionSamples(stations: seq<Mark>, location: real, speed: real, samples: map<string, seq<real>>)
    returns (samples': map<string, seq<real>>)
    ensures samples' == AddSamples(samples, Sections(stations, stations, location), speed)
  {
    samples' := samples;
    for a := 0 to |stations|
      invariant samples' == AddSamples(samples, Sections(stations[..a], stations, location), speed)
    {
      ghost var before := samples';
      samples' := AddInnerSamples(stations[a], stations, location, speed, samples');
      AddSamplesAppend(samples, Sections(stations[..a], stations, location), InnerSections(stations[a], stations, location), speed);
      assert stations[..a + 1][..a] == stations[..a];
    }
    assert stations[..|stations|] == stations;
  }

  /** The inner loop: the sections from `first` to each station. */
  method AddInnerSamples(first: Mark, stations: seq<Mark>, location: real, speed: real, samples: map<string, seq<real>>)
    returns (samples': map<string, seq<real>>)
    ensures samples' == AddSamples(samples, InnerSections(first, stations, location), speed)
  {
    samples' := samples;
    for b := 0 to |stations|
      invariant samples' == AddSamples(samples, InnerSections(first, stations[..b], location), speed)
    {
      ghost var keys := InnerSections(first, stations[..b], location);
      assert stations[..b + 1][..b] == stations[..b];
      if first.km < location < stations[b].km {
        var section := SectionKey(first.name, stations[b].name);
        var current := if section in samples' then samples'[section] else [];
        samples' := samples'[section := current + [speed]];
        AddSamplesSnoc(samples, keys, section, speed);
      } else {
        assert InnerSections(first, stations[..b + 1], location) == keys;
      }
    }
    assert stations[..|stations|] == stations;
  }

  /** One more key appends the speed to that section's samples. */
  lemma AddSamplesSnoc(samples: map<string, seq<real>>, keys: seq<string>, key: string, speed: real)
    ensures AddSamples(samples, keys + [key], speed) == AddSample(AddSamples(samples, keys, speed), key, speed)
  {
    assert (keys + [key])[..|keys|] == keys;
  }

  /** Adding the samples of two key lists in turn adds those of the
      concatenation. */
  lemma {:induction false} AddSamplesAppend(samples: map<string, seq<real>>, keys: seq<string>, more: seq<string>, speed: real)
    ensures AddSamples(samples, keys + more, speed) == AddSamples(AddSamples(samples, keys, speed), more, speed)
  {
    if more == [] {
      assert keys + more == keys;
    } else {
      var n := |more| - 1;
      assert (keys + more)[..|keys + more| - 1] == keys + more[..n];
      AddSamplesAppend(samples, keys, more[..n], speed);
    }
  }

  /** Once the first k pairs have failed, the whole computation fails the
      same way. */
  lemma {:induction false} SamplesFailLater(stations: seq<Mark>, locations: seq<real>, timestamps: seq<int>, k: nat)
    requires k <= Pairs(locations)
    requires SamplesUpTo(stations, locations, timestamps, k).Err?
    ensures SamplesUpTo(stations, locations, timestamps, Pairs(locations)) == SamplesUpTo(stations, locations, timestamps, k)
    decreases Pairs(locations) - k
  {
    if k < Pairs(locations) {
      SamplesFailLater(stations, locations, timestamps, k + 1);
    }
  }
}

/** `StationDataAnalyzer.analyze_station_events`: per station, the number of
    arrivals and departures and, from each departure after an arrival, the
    dwell time since the latest arrival. */
module StationDataAnalyzer {
  import opened Common
  import opened Stats

  /** `event.get('action')`. */
  datatype Action = Arrival | Departure | OtherAction

  /** One event: whether `event.get('type') == 'station'`, its station (a
      missing one is the key None), its action, and its time in seconds (a
      missing one is None). */
  datatype StationEvent = StationEvent(isStation: bool, station: Option<string>, action: Action, time: Option<int>)

  /** A station's entry while the events are visited: the counters, the
      dwell times in seconds, and `last_arrival`, absent (None) until the
      first arrival and then the time, possibly None, of the latest one. */
  datatype Tally = Tally(arrivals: nat, departures: nat, dwellTimes: seq<real>, lastArrival: Option<Option<int>>)

  const NewTally := Tally(0, 0, [], None)

  /** What the analysis raises. */
  datatype Failure =
    | TypeError   // a dwell time from a missing departure or arrival time
    | KeyError    // `del ...['last_arrival']` on a station without arrivals

  /** The dwell statistics of a station with at least one dwell time. */
  datatype DwellStats = DwellStats(avg: real, max: real, min: real)

  /** A station's entry in the result. */
  datatype StationSummary = StationSummary(arrivalCount: nat, departureCount: nat, dwell: Option<DwellStats>)

  type StationStats = map<Option<string>, Tally>

  /** One iteration of the event loop. */
  function Visit(stats: StationStats, e: StationEvent): Result<StationStats, Failure>
  {
    if !e.isStation then Ok(stats)
    else
      var t := if e.station in stats then stats[e.station] else NewTally;
      match e.action
      case Arrival => Ok(stats[e.station := t.(arrivals := t.arrivals + 1, lastArrival := Some(e.time))])
      case Departure =>
        var t1 := t.(departures := t.departures + 1);
        if t1.lastArrival.None? then Ok(stats[e.station := t1])
        else if e.time.None? || t1.lastArrival.value.None? then Err(TypeError)
        else Ok(stats[e.station := t1.(dwellTimes := t1.dwellTimes + [(e.time.value - t1.lastArrival.value.value) as real])])
      case OtherAction => Ok(stats[e.station := t])
  }

  /** The entries after the first k events, or the first failure. */
  function TallyUpTo(events: seq<StationEvent>, k: nat): Result<StationStats, Failure>
    requires k <= |events|
  {
    if k == 0 then Ok(map[])
    else
      match TallyUpTo(events, k - 1)
      case Err(f) => Err(f)
      case Ok(stats) => Visit(stats, events[k - 1])
  }

  /** The final pass over one entry. */
  function Summarize(t: Tally): StationSummary
  {
    StationSummary(t.arrivals, t.departures, DwellOf(t.dwellTimes))
  }

  /** The average, largest and smallest dwell time, when there is one. */
  function DwellOf(times: seq<real>): (d: Option<DwellStats>)
    ensures d.Some? <==> times != []
    ensures d.Some? ==> d.value.min <= d.value.avg <= d.value.max
  {
    if times == [] then None
    else
      MeanBounds(times);
      Some(DwellStats(Mean(times), Max(times), Min(times)))
  }

  /** What `analyze_station_events` returns or raises. */
  function StationEventsOf(events: seq<StationEvent>): Result<map<Option<string>, StationSummary>, Failure>
  {
    match TallyUpTo(events, |events|)
    case Err(f) => Err(f)
    case Ok(stats) =>
      if exists s :: s in stats && stats[s].lastArrival.None? then Err(KeyError)
      else Ok(map s | s in stats :: Summarize(stats[s]))
  }

  /** `analyze_station_events`. */
  method AnalyzeStationEvents(events: seq<StationEvent>) returns (r: Result<map<Option<string>, StationSummary>, Failure>)
    ensures r == StationEventsOf(events)
  {
    var stationStats: StationStats := map[];
    for i := 0 to |events|
      invariant TallyUpTo(events, i) == Ok(stationStats)
    {
      var next := VisitEvent(stationStats, events[i]);
      if next.Err? {
        TallyFailLater(events, i + 1);
        return Err(next.error);
      }
      stationStats := next.value;
    }
    var result: map<Option<string>, StationSummary> := map[];
    var remaining := stationStats.Keys;
    while remaining != {}
      invariant remaining <= stationStats.Keys
      invariant result.Keys == stationStats.Keys - remaining
      invariant forall s :: s in result ==> stationStats[s].lastArrival.Some? && result[s] == Summarize(stationStats[s])
      decreases remaining
    {
      var station :| station in remaining;
      var t := stationStats[station];
      if t.lastArrival.None? {
        return Err(KeyError);
      }
      result := result[station := Summarize(t)];
      remaining := remaining - {station};
    }
    assert result == map s | s in stationStats :: Summarize(stationStats[s]);
    r := Ok(result);
  }

  /** The body of the event loop: a station event creates its station's
      entry, an arrival counts and records its time, and a departure counts
      and, after an arrival, adds the time since the latest arrival. */
  method VisitEvent(stationStats: StationStats, event: StationEvent) returns (r: Result<StationStats, Failure>)
    ensures r == Visit(stationStats, event)
  {
    var stats := stationStats;
    if event.isStation {
      var station := event.station;
      if station !in stats {
        stats := stats[station := NewTally];
      }
      var t := stats[station];
      assert t == if station in stationStats then stationStats[station] else NewTally;
      assert stats == stationStats[station := t];
      if event.action == Arrival {
        stats := stats[station := t.(arrivals := t.arrivals + 1, lastArrival := Some(event.time))];
        assert stats == stationStats[station := t.(arrivals := t.arrivals + 1, lastArrival := Some(event.time))];
      } else if event.action == Departure {
        t := t.(departures := t.departures + 1);
        stats := stats[station := t];
        assert stats == stationStats[station := t];
        if t.lastArrival.Some? {
          if event.time.None? || t.lastArrival.value.None? {
            return Err(TypeError);
          }
          var dwellTime := (event.time.value - t.lastArrival.value.value) as real;
          stats := stats[station := t.(dwellTimes := t.dwellTimes + [dwellTime])];
          assert stats == stationStats[station := t.(dwellTimes := t.dwellTimes + [dwellTime])];
        }
      }
    }
    r := Ok(stats);
  }

  // ---------------------------------------------------------------------------
  // What the entries mean, station by station.
  // ---------------------------------------------------------------------------

  /** The event is a station event for `s` with the given action. */
  function ActionAt(s: Option<string>, a: Action): StationEvent -> bool
  {
    (e: StationEvent) => e.isStation && e.station == s && e.action == a
  }

  /** Some station event in `es` names `s`. */
  predicate Mentioned(es: seq<StationEvent>, s: Option<string>)
  {
    exists i :: 0 <= i < |es| && es[i].isStation && es[i].station == s
  }

  /** The time, possibly missing, of the latest arrival at `s` in `es`; None
      when there is none. */
  function LastArrival(es: seq<StationEvent>, s: Option<string>): Option<Option<int>>
  {
    if es == [] then None
    else
      var e := es[|es| - 1];
      if e.isStation && e.station == s && e.action == Arrival then Some(e.time) else LastArrival(es[..|es| - 1], s)
  }

  /** Event i is a departure from a station with an earlier arrival, and
      its own time or that arrival's time is missing. */
  predicate BadDeparture(events: seq<StationEvent>, i: nat)
    requires i < |events|
  {
    var e := events[i];
    e.isStation && e.action == Departure && LastArrival(events[..i], e.station).Some?
    && (e.time.None? || LastArrival(events[..i], e.station).value.None?)
  }

  /** The dwell times at `s`: for each departure from `s` after an arrival
      at `s`, its time less the time of the latest such arrival. */
  function Dwells(es: seq<StationEvent>, s: Option<string>): seq<real>
  {
    if es == [] then []
    else
      var p := es[..|es| - 1];
      var e := es[|es| - 1];
      var last := LastArrival(p, s);
      Dwells(p, s)
      + if e.isStation && e.station == s && e.action == Departure && last.Some? && last.value.Some? && e.time.Some?
        then [(e.time.value - last.value.value) as real] else []
  }

  /** Without a failure, the entries are those of the stations the station
      events name, and each entry holds the number of arrivals and of
      departures at that station, its dwell times in order, and the time
      of its latest arrival. */
  lemma {:induction false} TallyMeaning(events: seq<StationEvent>, k: nat, s: Option<string>)
    requires k <= |events| && TallyUpTo(events, k).Ok?
    ensures var stats := TallyUpTo(events, k).value;
      && (s in stats <==> Mentioned(events[..k], s))
      && (s in stats ==> stats[s] == Tally(Count(events[..k], ActionAt(s, Arrival)), Count(events[..k], ActionAt(s, Departure)),
                                           Dwells(events[..k], s), LastArrival(events[..k], s)))
  {
    if k > 0 {
      TallyMeaning(events, k - 1, s);
      assert events[..k] == events[..k - 1] + [events[k - 1]];
      AgreesStep(TallyUpTo(events, k - 1).value, events[..k - 1], events[k - 1], s);
    }
  }

  /** The entry for `s` in `stats`, if any, is the reference tally of `es`,
      and there is one exactly when `es` names `s`. */
  predicate Agrees(stats: StationStats, es: seq<StationEvent>, s: Option<string>)
  {
    && (s in stats <==> Mentioned(es, s))
    && (s in stats ==> stats[s] == Tally(Count(es, ActionAt(s, Arrival)), Count(es, ActionAt(s, Departure)),
                                         Dwells(es, s), LastArrival(es, s)))
  }

  /** A visit keeps the entries in agreement with the reference tally for
      one more event. */
  lemma AgreesStep(stats: StationStats, p: seq<StationEvent>, e: StationEvent, s: Option<string>)
    requires Agrees(stats, p, s) && Visit(stats, e).Ok?
    ensures Agrees(Visit(stats, e).value, p + [e], s)
  {
    var es := p + [e];
    var k := |es|;
    assert es[..k - 1] == p && es[k - 1] == e;
    MentionedStep(es, k, s);
    CountPrefixStep(es, k, ActionAt(s, Arrival));
    CountPrefixStep(es, k, ActionAt(s, Departure));
    assert es[..k] == es;
    if e.isStation && e.station == s {
      if !Mentioned(p, s) {
        NotMentioned(p, s);
      }
      var t := Tally(Count(p, ActionAt(s, Arrival)), Count(p, ActionAt(s, Departure)), Dwells(p, s), LastArrival(p, s));
      VisitNamed(stats, e, t);
      ReferenceStep(es, k, s);
      var u := Visit(stats, e).value[s];
      assert u.arrivals == Count(es, ActionAt(s, Arrival));
      assert u.departures == Count(es, ActionAt(s, Departure));
      assert u.dwellTimes == Dwells(es, s);
      assert u.lastArrival == LastArrival(es, s);
    } else {
      assert ActionAt(s, Arrival)(e) == false && ActionAt(s, Departure)(e) == false;
      VisitOther(stats, e, s);
    }
  }

  /** One more station event for `s` extends the reference dwell times and
      latest arrival at `s` as a visit does. */
  lemma ReferenceStep(events: seq<StationEvent>, k: nat, s: Option<string>)
    requires 0 < k <= |events| && events[k - 1].isStation && events[k - 1].station == s
    ensures var p, e := events[..k - 1], events[k - 1];
      var last := LastArrival(p, s);
      && LastArrival(events[..k], s) == (if e.action == Arrival then Some(e.time) else last)
      && Dwells(events[..k], s) == Dwells(p, s)
           + if e.action == Departure && last.Some? && last.value.Some? && e.time.Some?
             then [(e.time.value - last.value.value) as real] else []
  {
    assert events[..k][..k - 1] == events[..k - 1];
  }

  /** A station event updates its own station's entry, starting from a new
      one, as the reference functions do for one more event. */
  lemma VisitNamed(stats: StationStats, e: StationEvent, t: Tally)
    requires e.isStation && Visit(stats, e).Ok?
    requires t == if e.station in stats then stats[e.station] else NewTally
    ensures e.station in Visit(stats, e).value
    ensures var u := Visit(stats, e).value[e.station];
      && u.arrivals == t.arrivals + (if e.action == Arrival then 1 else 0)
      && u.departures == t.departures + (if e.action == Departure then 1 else 0)
      && u.lastArrival == (if e.action == Arrival then Some(e.time) else t.lastArrival)
      && u.dwellTimes == t.dwellTimes
           + if e.action == Departure && t.lastArrival.Some? && t.lastArrival.value.Some? && e.time.Some?
             then [(e.time.value - t.lastArrival.value.value) as real] else []
  {
  }

  /** An event that does not name `s` leaves its entry, or its absence, as
      it was. */
  lemma VisitOther(stats: StationStats, e: StationEvent, s: Option<string>)
    requires !(e.isStation && e.station == s) && Visit(stats, e).Ok?
    ensures s in Visit(stats, e).value <==> s in stats
    ensures s in stats ==> Visit(stats, e).value[s] == stats[s]
  {
  }

  /** One more event names `s` when it or an earlier one does. */
  lemma MentionedStep(events: seq<StationEvent>, k: nat, s: Option<string>)
    requires 0 < k <= |events|
    ensures Mentioned(events[..k], s) <==>
      Mentioned(events[..k - 1], s) || (events[k - 1].isStation && events[k - 1].station == s)
  {
    var es, p := events[..k], events[..k - 1];
    assert forall i :: 0 <= i < k - 1 ==> es[i] == p[i];
    if es[k - 1].isStation && es[k - 1].station == s {
      assert Mentioned(es, s);
    }
  }

  /** The loop fails, always with TypeError, exactly when some departure
      after an arrival at its station lacks a time or follows an arrival
      without one. */
  lemma {:induction false} TallyFails(events: seq<StationEvent>, k: nat)
    requires k <= |events|
    ensures TallyUpTo(events, k).Err? <==> exists i :: 0 <= i < k && BadDeparture(events, i)
    ensures TallyUpTo(events, k).Err? ==> TallyUpTo(events, k).error == TypeError
  {
    if k > 0 {
      TallyFails(events, k - 1);
      var before := TallyUpTo(events, k - 1);
      if before.Ok? {
        var e := events[k - 1];
        TallyMeaning(events, k - 1, e.station);
        if !Mentioned(events[..k - 1], e.station) {
          NotMentioned(events[..k - 1], e.station);
        }
        assert TallyUpTo(events, k).Err? <==> BadDeparture(events, k - 1);
      }
    }
  }

  /** What the analysis returns or raises: TypeError for a bad departure;
      otherwise KeyError when some named station has no arrival; otherwise
      one entry per named station with its arrival and departure counts and
      the statistics of its dwell times. */
  lemma StationEventsMeaning(events: seq<StationEvent>, s: Option<string>)
    ensures var r := StationEventsOf(events);
      && (r == Err(TypeError) <==> exists i :: 0 <= i < |events| && BadDeparture(events, i))
      && (r == Err(KeyError) <==>
            (forall i :: 0 <= i < |events| ==> !BadDeparture(events, i))
            && exists i :: 0 <= i < |events| && events[i].isStation && LastArrival(events, events[i].station).None?)
      && (r.Ok? ==> (s in r.value <==> Mentioned(events, s)))
      && (r.Ok? && s in r.value ==>
            r.value[s] == StationSummary(Count(events, ActionAt(s, Arrival)), Count(events, ActionAt(s, Departure)),
                                         DwellOf(Dwells(events, s))))
  {
    var k := |events|;
    assert events[..k] == events;
    TallyFails(events, k);
    if TallyUpTo(events, k).Ok? {
      MissingArrival(events);
      TallyMeaning(events, k, s);
    }
  }

  /** A tallied station lacks a latest arrival exactly when some station
      event names a station with no arrival among the events. */
  lemma MissingArrival(events: seq<StationEvent>)
    requires TallyUpTo(events, |events|).Ok?
    ensures var stats := TallyUpTo(events, |events|).value;
      (exists t :: t in stats && stats[t].lastArrival.None?)
      <==> exists i :: 0 <= i < |events| && events[i].isStation && LastArrival(events, events[i].station).None?
  {
    var k := |events|;
    assert events[..k] == events;
    var stats := TallyUpTo(events, k).value;
    if exists t :: t in stats && stats[t].lastArrival.None? {
      var t :| t in stats && stats[t].lastArrival.None?;
      TallyMeaning(events, k, t);
      var i :| 0 <= i < k && events[i].isStation && events[i].station == t;
      assert events[i].isStation && LastArrival(events, events[i].station).None?;
    }
    if exists i :: 0 <= i < k && events[i].isStation && LastArrival(events, events[i].station).None? {
      var i :| 0 <= i < k && events[i].isStation && LastArrival(events, events[i].station).None?;
      var t := events[i].station;
      TallyMeaning(events, k, t);
      assert t in stats && stats[t].lastArrival.None?;
    }
  }

  /** There are no more dwell times than departures. */
  lemma {:induction false} DwellsAtMostDepartures(es: seq<StationEvent>, s: Option<string>)
    ensures |Dwells(es, s)| <= Count(es, ActionAt(s, Departure))
  {
    if es != [] {
      DwellsAtMostDepartures(es[..|es| - 1], s);
    }
  }

  /** A station no event names has no arrivals, departures or dwell times. */
  lemma {:induction false} NotMentioned(es: seq<StationEvent>, s: Option<string>)
    requires !Mentioned(es, s)
    ensures Count(es, ActionAt(s, Arrival)) == 0 && Count(es, ActionAt(s, Departure)) == 0
    ensures Dwells(es, s) == [] && LastArrival(es, s) == None
  {
    if es != [] {
      var p := es[..|es| - 1];
      assert forall i :: 0 <= i < |p| ==> p[i] == es[i];
      NotMentioned(p, s);
    }
  }

  /** Once the first k events have failed, the whole loop fails the same way. */
  lemma {:induction false} TallyFailLater(events: seq<StationEvent>, k: nat)
    requires k <= |events|
    requires TallyUpTo(events, k).Err?
    ensures TallyUpTo(events, |events|) == TallyUpTo(events, k)
    decreases |events| - k
  {
    if k < |events| {
      TallyFailLater(events, k + 1);
    }
  }
}
