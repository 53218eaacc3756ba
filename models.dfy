/** The analyzer's data model: the dictionary form of a record (its payload
    written as hexadecimal text), the speed profile and station record whose
    statistics are filled in place, the analysis configuration and its range
    checks, and the two unit conversions. */
module Models {
  import opened Common
  import opened Records
  import opened Stats

  // ---------------------------------------------------------------------------
  // Hexadecimal text, as `bytes.hex()` writes it and `bytes.fromhex` reads it.
  // ---------------------------------------------------------------------------

  /** The lower-case digit of a nibble. */
  function HexDigit(n: nat): (c: char)
    requires n < 16
    ensures HexValue(c) == Some(n) && !('A' <= c <= 'F')
  {
    if n < 10 then ('0' as int + n) as char else ('a' as int + n - 10) as char
  }

  /** `bytes.hex()`: two lower-case digits per byte, high nibble first. */
  function Hex(b: seq<Byte>): (s: string)
    ensures |s| == 2 * |b|
  {
    if b == [] then "" else [HexDigit(b[0] / 16), HexDigit(b[0] % 16)] + Hex(b[1..])
  }

  /** The value of one hexadecimal digit of either case. */
  function HexValue(c: char): (v: Option<nat>)
    ensures v.Some? ==> v.value < 16
  {
    if '0' <= c <= '9' then Some(c as int - '0' as int)
    else if 'a' <= c <= 'f' then Some(c as int - 'a' as int + 10)
    else if 'A' <= c <= 'F' then Some(c as int - 'A' as int + 10)
    else None
  }

  /** The ASCII whitespace `bytes.fromhex` skips between byte pairs: space,
      tab, line feed, vertical tab, form feed and carriage return. */
  predicate IsHexSpace(c: char)
  {
    c == ' ' || 9 <= c as int <= 13
  }

  /** `bytes.fromhex`: whitespace may come before any pair of digits but not
      inside one; any other character, or an unpaired digit, is a
      `ValueError` (None). */
  function FromHex(s: string): (r: Option<seq<Byte>>)
    ensures r.Some? ==> 2 * |r.value| <= |s|
    decreases |s|
  {
    if s == [] then Some([])
    else if IsHexSpace(s[0]) then FromHex(s[1..])
    else if |s| < 2 || HexValue(s[0]).None? || HexValue(s[1]).None? then None
    else
      match FromHex(s[2..])
      case None => None
      case Some(rest) => Some([HexValue(s[0]).value * 16 + HexValue(s[1]).value] + rest)
  }

  /** The two digits `hex` writes for a byte are read back as that byte. */
  lemma HexPair(x: Byte, rest: string)
    ensures FromHex([HexDigit(x / 16), HexDigit(x % 16)] + rest)
         == if FromHex(rest).Some? then Some([x] + FromHex(rest).value) else None
  {
    var s := [HexDigit(x / 16), HexDigit(x % 16)] + rest;
    assert s[2..] == rest;
    assert !IsHexSpace(s[0]);
    assert HexValue(s[0]).value * 16 + HexValue(s[1]).value == x;
  }

  /** `bytes.fromhex(b.hex()) == b`. */
  lemma {:induction false} HexRoundTrip(b: seq<Byte>)
    ensures FromHex(Hex(b)) == Some(b)
  {
    if b != [] {
      HexRoundTrip(b[1..]);
      HexPair(b[0], Hex(b[1..]));
      assert [b[0]] + b[1..] == b;
    }
  }

  predicate AllHexDigits(s: string)
  {
    forall i :: 0 <= i < |s| ==> HexValue(s[i]).Some?
  }

  /** A text of digits only is read exactly when it is a whole number of
      digit pairs. */
  lemma {:induction false} FromHexDigitsOnly(s: string)
    requires AllHexDigits(s)
    ensures FromHex(s).Some? <==> |s| % 2 == 0
    decreases |s|
  {
    if |s| >= 2 {
      assert AllHexDigits(s[2..]) by {
        assert forall i :: 0 <= i < |s[2..]| ==> s[2..][i] == s[i + 2];
      }
      FromHexDigitsOnly(s[2..]);
    } else if |s| == 1 {
      assert HexValue(s[0]).Some?;
    }
  }

  /** Whitespace before a digit pair is skipped. */
  lemma FromHexSkipsSpace(c: char, s: string)
    requires IsHexSpace(c)
    ensures FromHex([c] + s) == FromHex(s)
  {
    assert ([c] + s)[1..] == s;
  }

  // ---------------------------------------------------------------------------
  // The dictionary form of a record.
  // ---------------------------------------------------------------------------

  /** `RURecord.to_dict()`: the payload becomes its hexadecimal text; the
      time stays in whole seconds. */
  datatype RecordDict = RecordDict(logType: int, timestamp: int, location: int, speed: int, data: string)

  function ToDict(r: RURecord): (d: RecordDict)
    ensures d.logType == r.logType && d.timestamp == r.timestamp
    ensures d.location == r.location && d.speed == r.speed
    ensures |d.data| == 2 * |r.data|
  {
    RecordDict(r.logType, r.timestamp, r.location, r.speed, Hex(r.data))
  }

  /** `RURecord.from_dict(d)`: fails as `bytes.fromhex` does on a bad payload
      text. */
  function FromDict(d: RecordDict): (r: Option<RURecord>)
    ensures r.Some? <==> FromHex(d.data).Some?
    ensures r.Some? ==>
      r.value.logType == d.logType && r.value.timestamp == d.timestamp
      && r.value.location == d.location && r.value.speed == d.speed
  {
    match FromHex(d.data)
    case None => None
    case Some(bytes) => Some(RURecord(d.logType, d.timestamp, d.location, d.speed, bytes))
  }

  /** `RURecord.from_dict(r.to_dict()) == r`. */
  lemma DictRoundTrip(r: RURecord)
    ensures FromDict(ToDict(r)) == Some(r)
  {
    HexRoundTrip(r.data);
  }

  // ---------------------------------------------------------------------------
  // Speed profile and station record.
  // ---------------------------------------------------------------------------

  /** A speed profile: times, speeds in km/h and locations in km, with the
      statistics `calculate_stats` fills in. */
  class SpeedProfile {
    var timestamps: seq<int>
    var speeds: seq<real>
    var locations: seq<real>
    var maxSpeed: real
    var avgSpeed: real
    var overSpeedCount: int

    constructor(timestamps: seq<int>, speeds: seq<real>, locations: seq<real>)
      ensures this.timestamps == timestamps && this.speeds == speeds && this.locations == locations
      ensures maxSpeed == 0.0 && avgSpeed == 0.0 && overSpeedCount == 0
    {
      this.timestamps := timestamps;
      this.speeds := speeds;
      this.locations := locations;
      maxSpeed := 0.0;
      avgSpeed := 0.0;
      overSpeedCount := 0;
    }

    /** With no speeds nothing changes. Otherwise the largest speed, the
        mean speed and the number of speeds strictly above the threshold are
        stored; the mean lies between the smallest and the largest speed and
        the count between 0 and the number of speeds. */
    method CalculateStats(speedThreshold: real)
      modifies this
      ensures timestamps == old(timestamps) && speeds == old(speeds) && locations == old(locations)
      ensures speeds == [] ==>
        maxSpeed == old(maxSpeed) && avgSpeed == old(avgSpeed) && overSpeedCount == old(overSpeedCount)
      ensures speeds != [] ==>
        maxSpeed == Max(speeds) && avgSpeed == Mean(speeds)
        && overSpeedCount == Count(speeds, Above(speedThreshold))
      ensures speeds != [] ==>
        Min(speeds) <= avgSpeed <= maxSpeed && 0 <= overSpeedCount <= |speeds|
    {
      if speeds == [] {
        return;
      }
      maxSpeed := Max(speeds);
      avgSpeed := Sum(speeds) / (|speeds| as real);
      overSpeedCount := CountAbove(speeds, speedThreshold);
      MeanBounds(speeds);
      CountAboveIsFilter(speeds, speedThreshold);
    }
  }

  /** A stop at a station. Times are whole seconds; the dwell time is filled
      in by `calculate_dwell_time`. */
  class StationRecord {
    var stationId: string
    var stationName: string
    var arrivalTime: Option<int>
    var departureTime: Option<int>
    var dwellTime: Option<int>
    var platform: Option<string>

    constructor(stationId: string, stationName: string, arrivalTime: Option<int>, departureTime: Option<int>)
      ensures this.stationId == stationId && this.stationName == stationName
      ensures this.arrivalTime == arrivalTime && this.departureTime == departureTime
      ensures dwellTime == None && platform == None
    {
      this.stationId := stationId;
      this.stationName := stationName;
      this.arrivalTime := arrivalTime;
      this.departureTime := departureTime;
      dwellTime := None;
      platform := None;
    }

    /** Sets the dwell time so that arrival plus dwell is departure, when
        both times are present; leaves it as it was otherwise. */
    method CalculateDwellTime()
      modifies this
      ensures stationId == old(stationId) && stationName == old(stationName) && platform == old(platform)
      ensures arrivalTime == old(arrivalTime) && departureTime == old(departureTime)
      ensures arrivalTime.Some? && departureTime.Some? ==>
        dwellTime.Some? && arrivalTime.value + dwellTime.value == departureTime.value
      ensures arrivalTime.None? || departureTime.None? ==> dwellTime == old(dwellTime)
    {
      if arrivalTime.Some? && departureTime.Some? {
        dwellTime := Some(departureTime.value - arrivalTime.value);
      }
    }
  }

  // ---------------------------------------------------------------------------
  // The analysis configuration.
  // ---------------------------------------------------------------------------

  datatype AnalysisConfig = AnalysisConfig(
    chunkSize: int,
    speedThreshold: real,
    cacheEnabled: bool,
    parallelEnabled: bool,
    logLevel: string)

  const DefaultConfig := AnalysisConfig(1000, 90.0, true, true, "INFO")

  const LogLevels: set<string> := {"DEBUG", "INFO", "WARNING", "ERROR", "CRITICAL"}

  predicate ChunkSizeInRange(n: int)
  {
    100 <= n <= 10000
  }

  predicate SpeedThresholdInRange(v: real)
  {
    0.0 <= v <= 200.0
  }

  /** The reasons `validate` (and the configuration validator) give. */
  datatype ConfigProblem =
    | InvalidChunkSize(chunkSize: int)
    | InvalidSpeedThreshold(speedThreshold: real)
    | InvalidLogLevel(logLevel: string)
    | MissingKey(key: string)
    | WrongType(key: string)

  /** `AnalysisConfig.validate`: the chunk size is checked first, then the
      speed threshold, then the log level. */
  function Validate(c: AnalysisConfig): (r: Outcome<ConfigProblem>)
    ensures r.Pass? <==>
      ChunkSizeInRange(c.chunkSize) && SpeedThresholdInRange(c.speedThreshold) && c.logLevel in LogLevels
    ensures !ChunkSizeInRange(c.chunkSize) ==> r == Fail(InvalidChunkSize(c.chunkSize))
    ensures ChunkSizeInRange(c.chunkSize) && !SpeedThresholdInRange(c.speedThreshold) ==>
      r == Fail(InvalidSpeedThreshold(c.speedThreshold))
    ensures r.Fail? ==> !r.error.MissingKey? && !r.error.WrongType?
  {
    if !ChunkSizeInRange(c.chunkSize) then Fail(InvalidChunkSize(c.chunkSize))
    else if !SpeedThresholdInRange(c.speedThreshold) then Fail(InvalidSpeedThreshold(c.speedThreshold))
    else if c.logLevel !in LogLevels then Fail(InvalidLogLevel(c.logLevel))
    else Pass
  }

  /** The default configuration is valid. */
  lemma DefaultConfigValid()
    ensures Validate(DefaultConfig) == Pass
  {
  }

  // ---------------------------------------------------------------------------
  // Unit conversions.
  // ---------------------------------------------------------------------------

  /** `convert_speed`: cm/s to km/h. */
  function ConvertSpeed(speedCms: real): (kmh: real)
    ensures kmh * 100000.0 == speedCms * 3600.0
  {
    speedCms * 0.036
  }

  /** `convert_location`: cm to km. */
  function ConvertLocation(locationCm: real): (km: real)
    ensures km * 100000.0 == locationCm
  {
    locationCm / 100000.0
  }

  /** The division by 100 the analyzers use elsewhere for speeds gives 1/3.6
      of `convert_speed`, so the two agree only at standstill. */
  lemma SpeedConversionsDiffer(speedCms: real)
    ensures ConvertSpeed(speedCms) == 3.6 * (speedCms / 100.0)
    ensures ConvertSpeed(speedCms) == speedCms / 100.0 <==> speedCms == 0.0
  {
  }
}
