/** The record validator: five fail-fast checks run in a fixed order (record
    count, timestamps, speeds, locations, event payloads), each described
    here both as the check the code runs and as the property of the log it
    accepts, plus the checker of configuration dictionaries. */
module Validators {
  import opened Common
  import opened Records
  import opened Stats
  import opened Models

  const MaxSpeedKmh := 200.0
  const MaxTimeGap := 300
  const MinRecords := 10
  const OneDay := 86400

  /** Why a log is refused. Every one of them surfaces as a
      `DataValidationError`; `Unexpected` is the error a numpy or built-in
      reduction raises on an empty list, which the validator re-raises as one. */
  datatype ValidationFailure =
    | NoRecords
    | TooFewRecords(count: nat)
    | NotIncreasing
    | GapTooLarge(maxGap: int)
    | SpanTooLarge(duration: int)
    | NoSpeedRecords
    | SpeedOutOfRange(maxSpeed: real)
    | AccelerationAbnormal(maxAcc: real)
    | DecelerationAbnormal(maxDec: real)
    | NoLocationRecords
    | LocationNotMonotonic
    | LocationJump(maxDiff: real)
    | EventMissingData(logType: int, timestamp: int)
    | ShutdownDataIncomplete(timestamp: int)
    | Unexpected

  // ---------------------------------------------------------------------------
  // The series the checks look at.
  // ---------------------------------------------------------------------------

  function Times(rs: seq<RURecord>): (ts: seq<int>)
    ensures |ts| == |rs| && forall i :: 0 <= i < |rs| ==> ts[i] == rs[i].timestamp
  {
    MapSeq(rs, (r: RURecord) => r.timestamp)
  }

  /** The speed samples' speeds divided by 100. */
  function SampleSpeeds(rs: seq<RURecord>): (v: seq<real>)
    ensures |v| == |Samples(rs)|
    ensures forall i :: 0 <= i < |v| ==> v[i] == (Samples(rs)[i].speed as real) / 100.0
  {
    MapSeq(Samples(rs), (r: RURecord) => (r.speed as real) / 100.0)
  }

  /** The speed samples' locations divided by 100000 (km). */
  function SampleLocations(rs: seq<RURecord>): (v: seq<real>)
    ensures |v| == |Samples(rs)|
    ensures forall i :: 0 <= i < |v| ==> v[i] == (Samples(rs)[i].location as real) / 100000.0
  {
    MapSeq(Samples(rs), (r: RURecord) => (r.location as real) / 100000.0)
  }

  predicate NonDecreasingReal(s: seq<real>)
  {
    forall i :: 0 < i < |s| ==> s[i - 1] <= s[i]
  }

  // ---------------------------------------------------------------------------
  // What each check accepts.
  // ---------------------------------------------------------------------------

  predicate TimesAcceptable(ts: seq<int>)
  {
    |ts| >= 2 && NonDecreasing(ts)
    && (forall i :: 0 < i < |ts| ==> ts[i] - ts[i - 1] <= MaxTimeGap)
    && ts[|ts| - 1] - ts[0] <= OneDay
  }

  predicate SpeedsAcceptable(v: seq<real>)
  {
    |v| >= 2
    && (forall i :: 0 <= i < |v| ==> v[i] <= MaxSpeedKmh)
    && (forall i :: 0 < i < |v| ==> -5.0 <= v[i] - v[i - 1] <= 5.0)
  }

  predicate LocationsAcceptable(l: seq<real>)
  {
    |l| >= 2 && NonDecreasingReal(l) && forall i :: 0 < i < |l| ==> l[i] - l[i - 1] <= 1.0
  }

  predicate EventAcceptable(r: RURecord)
  {
    IsEventType(r.logType) ==> r.data != [] && (r.logType == AtpShutdown ==> |r.data| >= 8)
  }

  /** The logs the validator accepts. */
  predicate Acceptable(rs: seq<RURecord>)
  {
    |rs| >= MinRecords
    && TimesAcceptable(Times(rs))
    && SpeedsAcceptable(SampleSpeeds(rs))
    && LocationsAcceptable(SampleLocations(rs))
    && forall i :: 0 <= i < |rs| ==> EventAcceptable(rs[i])
  }

  // ---------------------------------------------------------------------------
  // The checks.
  // ---------------------------------------------------------------------------

  /** `_validate_basic`: the list must hold at least ten records (the field
      presence tests always pass on records). */
  function ValidateBasic(rs: seq<RURecord>): (r: Outcome<ValidationFailure>)
    ensures r.Pass? <==> |rs| >= MinRecords
    ensures rs == [] ==> r == Fail(NoRecords)
    ensures 0 < |rs| < MinRecords ==> r == Fail(TooFewRecords(|rs|))
  {
    if rs == [] then Fail(NoRecords)
    else if |rs| < MinRecords then Fail(TooFewRecords(|rs|))
    else Pass
  }

  /** Every element of a non-decreasing series lies between its first and last. */
  lemma {:induction false} SortedBetweenEnds(ts: seq<int>)
    requires ts != [] && NonDecreasing(ts)
    ensures forall i :: 0 <= i < |ts| ==> ts[0] <= ts[i] <= ts[|ts| - 1]
  {
    if |ts| > 1 {
      var p := ts[..|ts| - 1];
      assert NonDecreasing(p);
      SortedBetweenEnds(p);
      forall i | 0 <= i < |ts|
        ensures ts[0] <= ts[i] <= ts[|ts| - 1]
      {
        if i < |p| {
          assert ts[i] == p[i] && ts[0] == p[0];
        }
      }
    }
  }

  /** The extremes of a sorted series are its first and last elements. */
  lemma SortedEnds(ts: seq<int>)
    requires ts != [] && NonDecreasing(ts)
    ensures forall i :: 0 <= i < |ts| ==> ts[0] <= ts[i] <= ts[|ts| - 1]
    ensures MinInt(ts) == ts[0] && MaxInt(ts) == ts[|ts| - 1]
  {
    SortedBetweenEnds(ts);
    var j :| 0 <= j < |ts| && ts[j] == MinInt(ts);
    var k :| 0 <= k < |ts| && ts[k] == MaxInt(ts);
    assert ts[0] <= ts[j] && ts[k] <= ts[|ts| - 1];
  }

  /** `_validate_timestamps` on the series of record times: times must not
      go backwards, no gap may exceed 300 s and the span from the earliest to
      the latest may not exceed a day. The largest gap of a single record is
      an empty `np.max`. */
  function CheckTimes(ts: seq<int>): (r: Outcome<ValidationFailure>)
    ensures !NonDecreasing(ts) ==> r == Fail(NotIncreasing)
    ensures r.Fail? ==> r.error.NotIncreasing? || r.error.GapTooLarge? || r.error.SpanTooLarge? || r.error.Unexpected?
  {
    if !NonDecreasing(ts) then Fail(NotIncreasing)
    else if |ts| < 2 then Fail(Unexpected)
    else
      var gap := MaxInt(Diffs(ts));
      if gap > MaxTimeGap then Fail(GapTooLarge(gap))
      else
        var duration := MaxInt(ts) - MinInt(ts);
        if duration > OneDay then Fail(SpanTooLarge(duration))
        else Pass
  }

  lemma CheckTimesAccepts(ts: seq<int>)
    ensures CheckTimes(ts).Pass? <==> TimesAcceptable(ts)
  {
    if NonDecreasing(ts) && |ts| >= 2 {
      var d := Diffs(ts);
      if MaxInt(d) > MaxTimeGap {
        assert CheckTimes(ts) == Fail(GapTooLarge(MaxInt(d)));
        LargestGapRefused(ts);
      } else {
        SpanDecides(ts);
      }
    }
  }

  /** Sorted times with no gap over the limit are accepted exactly when
      their span is within a day. */
  lemma SpanDecides(ts: seq<int>)
    requires |ts| >= 2 && NonDecreasing(ts) && MaxInt(Diffs(ts)) <= MaxTimeGap
    ensures CheckTimes(ts).Pass? <==> TimesAcceptable(ts)
  {
    GapsBounded(ts);
    SortedEnds(ts);
    var span := ts[|ts| - 1] - ts[0];
    assert MaxInt(ts) - MinInt(ts) == span;
    CheckTimesUnfold(ts);
  }

  /** What the check decides once the times are sorted and no gap is too
      large. */
  lemma CheckTimesUnfold(ts: seq<int>)
    requires |ts| >= 2 && NonDecreasing(ts) && MaxInt(Diffs(ts)) <= MaxTimeGap
    ensures CheckTimes(ts).Pass? <==> MaxInt(ts) - MinInt(ts) <= OneDay
  {
  }

  /** A gap over the limit makes the times unacceptable. */
  lemma LargestGapRefused(ts: seq<int>)
    requires |ts| >= 2 && MaxInt(Diffs(ts)) > MaxTimeGap
    ensures !TimesAcceptable(ts)
  {
    var d := Diffs(ts);
    var j :| 0 <= j < |d| && d[j] == MaxInt(d);
    assert ts[j + 1] - ts[j] > MaxTimeGap;
  }

  lemma GapsBounded(ts: seq<int>)
    requires |ts| >= 2 && MaxInt(Diffs(ts)) <= MaxTimeGap
    ensures forall i :: 0 < i < |ts| ==> ts[i] - ts[i - 1] <= MaxTimeGap
  {
    var d := Diffs(ts);
    forall i | 0 < i < |ts|
      ensures ts[i] - ts[i - 1] <= MaxTimeGap
    {
      assert d[i - 1] == ts[i] - ts[i - 1];
    }
  }

  function ValidateTimestamps(rs: seq<RURecord>): (r: Outcome<ValidationFailure>)
    ensures r.Pass? <==> TimesAcceptable(Times(rs))
  {
    CheckTimesAccepts(Times(rs));
    CheckTimes(Times(rs))
  }

  /** `_validate_speeds` on the sample speeds: samples must exist, none may
      exceed 200 and no step between neighbouring samples may exceed 5 in
      either direction (the step is not divided by the time between them). */
  function CheckSpeeds(v: seq<real>): (r: Outcome<ValidationFailure>)
    ensures v == [] ==> r == Fail(NoSpeedRecords)
    ensures v != [] && Max(v) > MaxSpeedKmh ==> r == Fail(SpeedOutOfRange(Max(v)))
  {
    if v == [] then Fail(NoSpeedRecords)
    else if Max(v) > MaxSpeedKmh then Fail(SpeedOutOfRange(Max(v)))
    else if |v| < 2 then Fail(Unexpected)
    else
      var d := DiffsReal(v);
      if Max(d) > 5.0 then Fail(AccelerationAbnormal(Max(d)))
      else if Min(d) < -5.0 then Fail(DecelerationAbnormal(Min(d)))
      else Pass
  }

  lemma CheckSpeedsAccepts(v: seq<real>)
    ensures CheckSpeeds(v).Pass? <==> SpeedsAcceptable(v)
  {
    if CheckSpeeds(v).Pass? {
      SpeedsPassAcceptable(v);
    } else {
      SpeedsFailUnacceptable(v);
    }
  }

  lemma SpeedsPassAcceptable(v: seq<real>)
    requires CheckSpeeds(v).Pass?
    ensures SpeedsAcceptable(v)
  {
    var d := DiffsReal(v);
    forall i | 0 < i < |v| ensures -5.0 <= v[i] - v[i - 1] <= 5.0 {
      assert d[i - 1] == v[i] - v[i - 1];
    }
  }

  lemma SpeedsFailUnacceptable(v: seq<real>)
    requires CheckSpeeds(v).Fail?
    ensures !SpeedsAcceptable(v)
  {
    if |v| >= 2 {
      var d := DiffsReal(v);
      if Max(v) > MaxSpeedKmh {
        var j :| 0 <= j < |v| && v[j] == Max(v);
      } else if Max(d) > 5.0 {
        var j :| 0 <= j < |d| && d[j] == Max(d);
        assert v[j + 1] - v[j] > 5.0;
      } else {
        var j :| 0 <= j < |d| && d[j] == Min(d);
        assert v[j + 1] - v[j] < -5.0;
      }
    }
  }

  function ValidateSpeeds(rs: seq<RURecord>): (r: Outcome<ValidationFailure>)
    ensures r.Pass? <==> SpeedsAcceptable(SampleSpeeds(rs))
    ensures Samples(rs) == [] ==> r == Fail(NoSpeedRecords)
  {
    CheckSpeedsAccepts(SampleSpeeds(rs));
    CheckSpeeds(SampleSpeeds(rs))
  }

  /** `_validate_locations` on the sample locations (km): they must exist,
      must not decrease and no step may exceed 1 km. */
  function CheckLocations(l: seq<real>): (r: Outcome<ValidationFailure>)
    ensures l == [] ==> r == Fail(NoLocationRecords)
    ensures l != [] && !NonDecreasingReal(l) ==> r == Fail(LocationNotMonotonic)
  {
    if l == [] then Fail(NoLocationRecords)
    else if !NonDecreasingReal(l) then Fail(LocationNotMonotonic)
    else if |l| < 2 then Fail(Unexpected)
    else
      var d := DiffsReal(l);
      if Max(d) > 1.0 then Fail(LocationJump(Max(d)))
      else Pass
  }

  lemma CheckLocationsAccepts(l: seq<real>)
    ensures CheckLocations(l).Pass? <==> LocationsAcceptable(l)
  {
    if |l| >= 2 && NonDecreasingReal(l) {
      var d := DiffsReal(l);
      if Max(d) > 1.0 {
        var j :| 0 <= j < |d| && d[j] == Max(d);
        assert l[j + 1] - l[j] > 1.0;
      } else {
        assert forall i :: 0 < i < |l| ==> l[i] - l[i - 1] == d[i - 1];
      }
    }
  }

  function ValidateLocations(rs: seq<RURecord>): (r: Outcome<ValidationFailure>)
    ensures r.Pass? <==> LocationsAcceptable(SampleLocations(rs))
    ensures Samples(rs) == [] ==> r == Fail(NoLocationRecords)
  {
    CheckLocationsAccepts(SampleLocations(rs));
    CheckLocations(SampleLocations(rs))
  }

  /** `_validate_events`: the first event record, in list order, with an
      empty payload or a shutdown payload shorter than 8 bytes. */
  function ValidateEvents(rs: seq<RURecord>): (r: Outcome<ValidationFailure>)
    ensures r.Pass? <==> forall i :: 0 <= i < |rs| ==> EventAcceptable(rs[i])
    ensures r.Fail? ==> r.error.EventMissingData? || r.error.ShutdownDataIncomplete?
  {
    if rs == [] then Pass
    else
      var x := rs[0];
      if IsEventType(x.logType) && x.data == [] then Fail(EventMissingData(x.logType, x.timestamp))
      else if x.logType == AtpShutdown && |x.data| < 8 then Fail(ShutdownDataIncomplete(x.timestamp))
      else
        var rest := ValidateEvents(rs[1..]);
        assert forall i :: 1 <= i < |rs| ==> rs[i] == rs[1..][i - 1];
        rest
  }

  /** `validate_records`: the five checks in order; the failure reported is
      the first check's that fails. */
  function ValidateRecords(rs: seq<RURecord>): (r: Outcome<ValidationFailure>)
    ensures r.Pass? <==> Acceptable(rs)
    ensures ValidateBasic(rs).Fail? ==> r == ValidateBasic(rs)
    ensures ValidateBasic(rs).Pass? && ValidateTimestamps(rs).Fail? ==> r == ValidateTimestamps(rs)
    ensures ValidateBasic(rs).Pass? && ValidateTimestamps(rs).Pass? && ValidateSpeeds(rs).Fail? ==> r == ValidateSpeeds(rs)
    ensures ValidateBasic(rs).Pass? && ValidateTimestamps(rs).Pass? && ValidateSpeeds(rs).Pass? && ValidateLocations(rs).Fail?
      ==> r == ValidateLocations(rs)
    ensures ValidateBasic(rs).Pass? && ValidateTimestamps(rs).Pass? && ValidateSpeeds(rs).Pass? && ValidateLocations(rs).Pass?
      ==> r == ValidateEvents(rs)
  {
    var basic := ValidateBasic(rs);
    if basic.Fail? then basic
    else
      var times := ValidateTimestamps(rs);
      if times.Fail? then times
      else
        var speeds := ValidateSpeeds(rs);
        if speeds.Fail? then speeds
        else
          var locations := ValidateLocations(rs);
          if locations.Fail? then locations
          else ValidateEvents(rs)
  }

  // ---------------------------------------------------------------------------
  // The configuration checker.
  // ---------------------------------------------------------------------------

  /** A configuration value with its Python type. */
  datatype ConfigValue = IntVal(i: int) | FloatVal(f: real) | BoolVal(b: bool) | StrVal(s: string)

  /** The declared type of a required key. */
  datatype ConfigType = IntType | FloatType | BoolType | StrType

  /** `isinstance`: a bool is also an int, an int is not a float. */
  predicate IsInstance(v: ConfigValue, t: ConfigType)
  {
    match t
    case IntType => v.IntVal? || v.BoolVal?
    case FloatType => v.FloatVal?
    case BoolType => v.BoolVal?
    case StrType => v.StrVal?
  }

  /** The required keys, in the order they are checked. */
  const RequiredKeys: seq<(string, ConfigType)> := [
    ("chunk_size", IntType),
    ("speed_threshold", FloatType),
    ("cache_enabled", BoolType),
    ("parallel_enabled", BoolType),
    ("log_level", StrType)
  ]

  /** The first required key that is missing or of the wrong type. */
  function CheckKeys(config: map<string, ConfigValue>, keys: seq<(string, ConfigType)>): (r: Outcome<ConfigProblem>)
    ensures r.Pass? <==> forall i :: 0 <= i < |keys| ==>
      keys[i].0 in config && IsInstance(config[keys[i].0], keys[i].1)
    ensures r.Fail? ==> r.error.MissingKey? || r.error.WrongType?
  {
    if keys == [] then Pass
    else if keys[0].0 !in config then Fail(MissingKey(keys[0].0))
    else if !IsInstance(config[keys[0].0], keys[0].1) then Fail(WrongType(keys[0].0))
    else
      assert forall i :: 1 <= i < |keys| ==> keys[i] == keys[1..][i - 1];
      CheckKeys(config, keys[1..])
  }

  /** The integer value of an int (True is 1, False is 0). */
  function AsInt(v: ConfigValue): int
    requires v.IntVal? || v.BoolVal?
  {
    if v.IntVal? then v.i else if v.b then 1 else 0
  }

  /** The value checks that follow the type checks. */
  predicate RangesValid(config: map<string, ConfigValue>)
  {
    && "chunk_size" in config && (config["chunk_size"].IntVal? || config["chunk_size"].BoolVal?)
    && ChunkSizeInRange(AsInt(config["chunk_size"]))
    && "speed_threshold" in config && config["speed_threshold"].FloatVal?
    && SpeedThresholdInRange(config["speed_threshold"].f)
    && "log_level" in config && config["log_level"].StrVal?
    && config["log_level"].s in LogLevels
  }

  /** `validate_configuration`: key presence and types first, then the chunk
      size range, the speed threshold range and the log level. */
  function ValidateConfiguration(config: map<string, ConfigValue>): (r: Outcome<ConfigProblem>)
    ensures r.Pass? <==> CheckKeys(config, RequiredKeys).Pass? && RangesValid(config)
    ensures CheckKeys(config, RequiredKeys).Fail? ==> r == CheckKeys(config, RequiredKeys)
  {
    var keys := CheckKeys(config, RequiredKeys);
    if keys.Fail? then keys
    else
      assert RequiredKeys[0].0 == "chunk_size" && RequiredKeys[1].0 == "speed_threshold";
      assert RequiredKeys[4].0 == "log_level";
      var chunk := AsInt(config["chunk_size"]);
      if !ChunkSizeInRange(chunk) then Fail(InvalidChunkSize(chunk))
      else if !SpeedThresholdInRange(config["speed_threshold"].f) then
        Fail(InvalidSpeedThreshold(config["speed_threshold"].f))
      else if config["log_level"].s !in LogLevels then Fail(InvalidLogLevel(config["log_level"].s))
      else Pass
  }

  /** `AnalysisConfig.to_dict`. */
  function ConfigDict(c: AnalysisConfig): (d: map<string, ConfigValue>)
    ensures d.Keys == {"chunk_size", "speed_threshold", "cache_enabled", "parallel_enabled", "log_level"}
  {
    map["chunk_size" := IntVal(c.chunkSize), "speed_threshold" := FloatVal(c.speedThreshold),
        "cache_enabled" := BoolVal(c.cacheEnabled), "parallel_enabled" := BoolVal(c.parallelEnabled),
        "log_level" := StrVal(c.logLevel)]
  }

  /** The dictionary checker and the configuration's own `validate` agree on
      every configuration: same verdict, same reason, same order. */
  lemma ConfigCheckersAgree(c: AnalysisConfig)
    ensures ValidateConfiguration(ConfigDict(c)) == Validate(c)
  {
    var d := ConfigDict(c);
    assert CheckKeys(d, RequiredKeys).Pass? by {
      assert forall i :: 0 <= i < |RequiredKeys| ==>
        RequiredKeys[i].0 in d && IsInstance(d[RequiredKeys[i].0], RequiredKeys[i].1);
    }
  }

  /** A float given where the chunk size belongs is a type error, while a
      bool passes the type test and fails the range test instead. */
  lemma ChunkSizeTypes(config: map<string, ConfigValue>)
    requires "chunk_size" in config
    ensures config["chunk_size"].FloatVal? ==> ValidateConfiguration(config) == Fail(WrongType("chunk_size"))
    ensures config["chunk_size"].BoolVal? && CheckKeys(config, RequiredKeys).Pass? ==>
      ValidateConfiguration(config) == Fail(InvalidChunkSize(AsInt(config["chunk_size"])))
  {
    assert RequiredKeys[0].0 == "chunk_size";
  }
}
