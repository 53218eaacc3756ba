# ATP log analyzer, modelled in Dafny

This project models the offline analysis core of the ATP log analyzer, a
tool that reads the recording unit (RU) logs of a train protection system
and the logs of its driver interface unit (MMI) and computes statistics
over them. The model covers:

- the RU file parser: a fixed-width header, then records appended in the
  order the record decoder yields them (`ru_file.dfy`);
- the data model helpers: the dictionary and hex round trip of a record,
  the speed profile and station record statistics, the analysis
  configuration check, and the unit conversions (`models.dfy`);
- the record validator with its five fail-fast checks and the
  configuration checker (`validators.dfy`);
- the error-code table and error factory (`exceptions.dfy`);
- the speed, event and location processors (`processors.dfy`);
- the ATP analyzer (`atp_analyzer.dfy`);
- the event-description parser, the speed analyzer, the location analyzer
  and the station data analyzer of the utilities (`atp_utils.dfy`);
- the MMI analyzer (`mmi_analyzer.dfy`) and the combined ATP/MMI
  correlator (`combined_analyzer.dfy`);
- the event processor of the views (`vis_events.dfy`) and the theme
  registry (`themes.dfy`).

`common.dfy`, `stats.dfy`, `sorting.dfy`, `records.dfy` and
`mmi_records.dfy` hold the shared vocabulary: Option/Result, filtering
and counting, truncating division, ASCII decoding and stripping, sums,
extremes and means, numpy-style histograms, a stable sort by key, the RU
record with its log-type constants, and the MMI record types.

Conventions of the model:

- timestamps are integer seconds; raw speeds (cm/s) and locations (cm)
  are integers, and converted values, means and ratios are `real`;
- a Python exception is an `Err`/`Fail` value naming it (`ValueError`,
  `IndexError`, `ZeroDivisionError`, `TypeError`, `KeyError`, a decode
  error), and "returns {}" is `None` or an empty value;
- code that loops over records and updates counters, lists or maps is a
  method with a loop proved equal to a specification function; the
  properties are lemmas about that function;
- objects whose methods update fields (`RUParser`, `SpeedProfile`,
  `StationRecord`, the view `EventProcessor`, `ThemeManager`) are
  classes.

Notes on the code's behaviour:

- a record decode failure aborts `parse_file`, but the records appended
  before it stay in the parser; the model keeps them rather than
  returning no records;
- the event processor's `_parse_event` cannot fail on an empty payload,
  because the first byte is read behind a length test; an empty
  payload gives the unknown-code text, and the record is counted;
- `SpeedProcessor` stores accelerations in an integer array
  (`np.zeros_like` of the integer time differences), so every
  acceleration is truncated toward zero.

## Model

| member | source | states |
|---|---|---|
| RuFile.TrimPadding | tests/test_ru_parser.py:25-28 | the result is a prefix of the field, does not end in '-', and only '-' characters were removed |
| RuFile.ParseHeader | tests/test_ru_parser.py:11-28 | a header exists exactly when the file holds at least 36 bytes; its fields are the 8-, 8-, 8- and 6-byte slots with trailing '-' removed, followed by the 6 time bytes |
| RuFile.HeaderOfSlots | tests/test_ru_parser.py:11-28 | any four Latin-1 fields of widths 8, 8, 8, 6 followed by a 6-byte time parse back into those fields, each without its padding |
| RuFile.TestPadding | tests/test_ru_parser.py:25-28 | 'WSH001--', 'TR1234--', 'DRV001--' and 'V1234-' lose exactly their trailing dashes |
| RuFile.HeaderTestFile | tests/test_ru_parser.py:11-28 | the test header bytes parse into WSH001, TR1234, DRV001 and V1234 |
| RuFile.DecodeAllBounded | src/ru_parser/ru_file.py:36-41 | the decode loop yields at most one record per byte; it yields a record exactly when the first decode step does, and that record comes first |
| RuFile.RUParser.constructor | src/ru_parser/ru_file.py:26-28 | a new parser has no header and no records |
| RuFile.RUParser.ParseFile | src/ru_parser/ru_file.py:30-41 | without a header the call fails and changes nothing; otherwise the header is stored and the decoded records are appended, in decoder order, after the records already held |
| Models.Hex | src/analyzer/models.py:24 | the payload is written as two hex digits per byte |
| Models.FromHex | src/analyzer/models.py:35 | a successful hex decode yields at most one byte per two characters |
| Models.HexRoundTrip | src/analyzer/models.py:24-35 | decoding the hex text of any payload gives back that payload |
| Models.FromHexDigitsOnly | src/analyzer/models.py:35 | text made only of hex digits decodes exactly when its length is even |
| Models.FromHexSkipsSpace | src/analyzer/models.py:35 | whitespace between byte pairs is skipped |
| Models.ToDict | src/analyzer/models.py:17-25 | the dictionary keeps type, time, location and speed and holds the payload as hex text of twice its length |
| Models.FromDict | src/analyzer/models.py:27-36 | a dictionary is read back exactly when its payload text is valid hex, and then every field is kept |
| Models.DictRoundTrip | src/analyzer/models.py:17-36 | reading back the dictionary of any record gives that record |
| Models.SpeedProfile.constructor | src/analyzer/models.py:46-54 | a new profile holds the given series, with maximum, mean and over-speed count 0 |
| Models.SpeedProfile.CalculateStats | src/analyzer/models.py:56-63 | with no speeds nothing changes; otherwise the maximum, the mean and the count of speeds strictly above the threshold are stored, with min <= mean <= max and the count within [0, n] |
| Models.StationRecord.constructor | src/analyzer/models.py:109-117 | a new station record holds the given names and times, with no dwell time and no platform |
| Models.StationRecord.CalculateDwellTime | src/analyzer/models.py:119-122 | with both times present, arrival plus dwell equals departure; otherwise the dwell time is unchanged |
| Models.Validate | src/analyzer/models.py:214-223 | a configuration passes exactly when chunk size, speed threshold and log level are all in range, and the first failing check, in that order, names the error |
| Models.DefaultConfigValid | src/analyzer/models.py:193-223 | the default configuration passes validation |
| Models.ConvertSpeed | src/analyzer/models.py:226-228 | km/h times 100000 equals cm/s times 3600 |
| Models.ConvertLocation | src/analyzer/models.py:230-232 | km times 100000 equals cm |
| Models.SpeedConversionsDiffer | src/analyzer/models.py:226-228 | this conversion is 3.6 times the `speed/100.0` conversion used elsewhere, and the two agree only at 0 |
| Validators.ValidateBasic | src/analyzer/validators.py:59-77 | the basic check passes exactly when there are at least 10 records; an empty list and a short list fail with their own errors |
| Validators.SortedEnds | src/analyzer/validators.py:97-99 | for a non-decreasing series the earliest time is the first and the latest the last |
| Validators.CheckTimes | src/analyzer/validators.py:79-104 | times that go backwards fail first; every failure is one of the timestamp check's own |
| Validators.CheckTimesAccepts | src/analyzer/validators.py:79-104 | the timestamp check passes exactly when there are two or more times, none goes backwards, no gap exceeds 300 s and the span is at most one day |
| Validators.GapsBounded | src/analyzer/validators.py:88-91 | a largest gap of at most 300 s bounds every adjacent gap |
| Validators.ValidateTimestamps | src/analyzer/validators.py:79-104 | the check on a record list passes exactly when its time series is acceptable |
| Validators.CheckSpeeds | src/analyzer/validators.py:106-135 | no speed samples fail first, then a top speed above 200 km/h |
| Validators.CheckSpeedsAccepts | src/analyzer/validators.py:106-135 | the speed check passes exactly when there are two or more samples, none above 200 km/h, and no adjacent change of `speed/100` is above 5.0 or below -5.0 |
| Validators.ValidateSpeeds | src/analyzer/validators.py:106-135 | the check on a record list passes exactly when its type-211 speeds divided by 100 are acceptable |
| Validators.CheckLocations | src/analyzer/validators.py:137-157 | no samples fail first, then locations that go backwards |
| Validators.CheckLocationsAccepts | src/analyzer/validators.py:137-157 | the location check passes exactly when there are two or more samples, non-decreasing, with no step above 1 km |
| Validators.ValidateLocations | src/analyzer/validators.py:137-157 | the check on a record list passes exactly when its type-211 locations divided by 100000 are acceptable |
| Validators.ValidateEvents | src/analyzer/validators.py:159-196 | the event check passes exactly when every type 2, 3, 91 or 201 record has a payload and every type-201 payload holds at least 8 bytes |
| Validators.ValidateRecords | src/analyzer/validators.py:24-57 | a log passes exactly when all five checks accept it; the failure reported is that of the first failing check, in the order basic, timestamps, speeds, locations, events |
| Validators.CheckKeys | src/analyzer/validators.py:207-225 | the key check passes exactly when every required key is present with a value of its type |
| Validators.ValidateConfiguration | src/analyzer/validators.py:198-243 | a configuration passes exactly when the keys and types check passes and the three ranges hold; a key or type problem is reported first |
| Validators.ConfigDict | src/analyzer/models.py:199-207 | the dictionary of a configuration holds exactly the five keys |
| Validators.ConfigCheckersAgree | src/analyzer/validators.py:198-243 | on the dictionary of any configuration the dictionary checker and the configuration's own check give the same verdict |
| Validators.ChunkSizeTypes | src/analyzer/validators.py:220-231 | a float chunk size is a type error, while a boolean one passes the type test and is then out of range |
| Exceptions.DefaultMessage | src/analyzer/exceptions.py:3-95 | every error class has a non-empty default text |
| Exceptions.BaseError | src/analyzer/exceptions.py:6-9 | the base constructor keeps a non-empty message, or else falls back to the base default; missing details become empty |
| Exceptions.NewError | src/analyzer/exceptions.py:16-95 | each subclass keeps a non-empty message, or else falls back to its own default text, and keeps the details or none |
| Exceptions.GetErrorMessage | src/analyzer/exceptions.py:137-139 | a code in the table gives its text, and any other code gives "未知錯誤" |
| Exceptions.CreateError | src/analyzer/exceptions.py:141-168 | the error carries the code's message and the keyword details; its class is fixed by the code ranges 1000-1999, 2000-2999, 3000-3999, 4000-4999 and the codes 5001, 5002, 5003, in both directions |
| Exceptions.TableCodesClassified | src/analyzer/exceptions.py:98-168 | every table code lies in 1001..5005 and gets its table text; exactly 5004 and 5005 fall through to the base class |
| Exceptions.ErrorText | src/analyzer/exceptions.py:11-14 | without details the text is the message alone; with details it is the message followed by more |
| Exceptions.DictRepr | src/analyzer/exceptions.py:13 | the details are shown between braces |
| Processors.ProgressPercent | src/analyzer/processors.py:19-24 | no percentage exists for a zero total; for 0 <= current <= total it lies in 0..100 and is 100 at current == total |
| Processors.ProgressBounds | src/analyzer/processors.py:23 | the truncating integer percentage of current out of total lies in 0..100 and reaches 100 at the end |
| Processors.EventProgressReports | src/analyzer/processors.py:114-118 | the event pass reports 0, 1, 45 and 100 percent for log types 2, 3, 91 and 201 measured against 201 |
| Processors.Acceleration | src/analyzer/processors.py:73-76 | a non-positive time step or no speed change gives 0; otherwise the magnitude is the truncated quotient of speed change over time step and keeps the sign of the speed change |
| Processors.Accelerations | src/analyzer/processors.py:67-76 | one acceleration per adjacent pair of samples, each the quotient of that pair's speed and time differences |
| Processors.AnalyzeSpeed | src/analyzer/processors.py:44-89 | fails with 'no speed records' when no type-211 record exists and with numpy's empty-maximum error for a single sample; otherwise the maximum is a sample bounding all samples, min <= mean <= max, the over-speed count counts samples strictly above the threshold, the six bands count exactly the samples in [0, 120], the maximum acceleration bounds all accelerations, and the average acceleration and deceleration exist exactly when a positive or negative acceleration does |
| Processors.RealExtremes | src/analyzer/processors.py:53 | the extremes of the speeds as reals are the integer extremes |
| Processors.ConstantSpeedNoAcceleration | src/analyzer/processors.py:67-76 | a constant speed yields only zero accelerations |
| Processors.FirstByte | src/analyzer/processors.py:156 | a status code exists exactly when the payload is non-empty |
| Processors.Describe | src/analyzer/processors.py:200-235 | a listed code maps to its table entry, any other code to the unknown text with the code in parentheses |
| Processors.UnknownCodesDistinct | src/analyzer/processors.py:210 | two different unlisted codes yield different texts |
| Processors.ParseEvent | src/analyzer/processors.py:151-194 | a record yields an event exactly when its type is 2, 3, 91 or 201, with its timestamp; emergency exactly for ATP status code 2, ATP-down exactly for type 201, and abnormal exactly for ATP codes 2-4, MMI codes 1-3 and PRS codes 3-5 |
| Processors.EmergencyIsAbnormal | src/analyzer/processors.py:157-164 | an emergency brake event is abnormal and not an ATP-down event |
| Processors.Bump | src/analyzer/processors.py:126 | the count of the event's type rises by one, starting from 0, and every other count is unchanged |
| Processors.SummaryMeaning | src/analyzer/processors.py:120-145 | the emergency and ATP-down counts count those events, the important list holds one entry per such flag and only such events, the abnormal list is the abnormal events in order, and each type's count is its number of events |
| Processors.KindNamesDistinct | src/analyzer/processors.py:160-191 | the four event type names are pairwise different |
| Processors.ByTypesOrder | src/analyzer/processors.py:114-115 | the events are visited as all type-2, then type-3, type-91 and type-201 records |
| Processors.EventCountsPerType | src/analyzer/processors.py:114-136 | a type's name is counted exactly when records of that type exist, and its count is their number |
| Processors.AnalyzeEvents | src/analyzer/processors.py:105-145 | the loop over types and records yields the summary of the parsed events of the records in type order |
| Processors.CountEvent | src/analyzer/processors.py:123-136 | one event's update of the counters and lists is the summary step for that event |
| Processors.Stops | src/analyzer/processors.py:295-300 | each decoded, stripped, non-empty station name becomes one stop, with no surrounding whitespace |
| Processors.TransitKeys | src/analyzer/processors.py:301-304 | every adjacent pair of stops has its 'from->to' entry, and every entry comes from such a pair |
| Processors.TransitLastWins | src/analyzer/processors.py:304 | the entry of a pair not repeated later holds that pair's duration in minutes |
| Processors.CalculateStationTimes | src/analyzer/processors.py:286-313 | the station times are the transit times of the stops of the time-sorted type-91 records |
| Processors.WalkStations | src/analyzer/processors.py:295-311 | the walk over the events yields the transit times of their stops |
| Processors.AnalyzeLocation | src/analyzer/processors.py:251-284 | fails with 'no location records' exactly when no type-211 record exists; otherwise distance and time are max minus min and bound every pairwise difference, there is one 10-km bin per histogram step and the bins hold every non-negative location, and the station times are those of the PRS records |
| AtpAnalyzer.Collect | src/analyzer/atp_analyzer.py:39-45 | the speed, location and time lists have one entry per speed sample |
| AtpAnalyzer.CollectMeaning | src/analyzer/atp_analyzer.py:39-45 | the lists hold each speed sample's speed in km/h, location in km and timestamp in record order, and the event list is exactly the records of types 2, 3, 91 and 201 |
| AtpAnalyzer.EmergencyAgrees | src/analyzer/atp_analyzer.py:96-98 | the analyzer's emergency-brake test on an ATP status record agrees with the event processor's |
| AtpAnalyzer.SpeedDistribution | src/analyzer/atp_analyzer.py:100-111 | no speeds give an empty distribution; otherwise there are six bands that together hold exactly the speeds within [0, 120] |
| AtpAnalyzer.Rate | src/analyzer/atp_analyzer.py:124-127 | a non-positive time step gives 0; the rate is positive or negative exactly when the time step is positive and the speed change is |
| AtpAnalyzer.RateTimesStep | src/analyzer/atp_analyzer.py:125 | for a positive time step, rate times time step is the speed change |
| AtpAnalyzer.Accelerations | src/analyzer/atp_analyzer.py:120-127 | one rate per adjacent pair, each the pair's speed change over its time step |
| AtpAnalyzer.StalledPairIsZero | src/analyzer/atp_analyzer.py:125 | a pair whose time does not advance has acceleration 0 |
| AtpAnalyzer.AnalyzeAcceleration | src/analyzer/atp_analyzer.py:113-117 | no statistics exist exactly when fewer than two speeds are given |
| AtpAnalyzer.AccelerationExtremes | src/analyzer/atp_analyzer.py:130-131 | the maximum acceleration is one of the accelerations and bounds them all; the maximum deceleration is non-negative, bounds every deceleration and, when one exists, is attained |
| AtpAnalyzer.AccelerationMeans | src/analyzer/atp_analyzer.py:132-133 | the average acceleration exists exactly when some acceleration is positive and is then positive; likewise the average deceleration for negative ones |
| AtpAnalyzer.PositivesNonEmpty | src/analyzer/atp_analyzer.py:132 | the positive accelerations are non-empty exactly when one is positive |
| AtpAnalyzer.NegativesNonEmpty | src/analyzer/atp_analyzer.py:133 | the negative accelerations are non-empty exactly when one is negative |
| AtpAnalyzer.LocationDistribution | src/analyzer/atp_analyzer.py:153-165 | no locations give an empty distribution; otherwise there is one 10-km bin per step up to the maximum and the bins hold every non-negative location |
| AtpAnalyzer.ArrivalsFail | src/analyzer/atp_analyzer.py:142-149 | the walk over arrivals fails exactly when some PRS record's payload is not ASCII |
| AtpAnalyzer.ArrivalsMeaning | src/analyzer/atp_analyzer.py:142-149 | a successful walk yields one stop per PRS record, with its decoded payload as name and its timestamp |
| AtpAnalyzer.RawTransitKeys | src/analyzer/atp_analyzer.py:144-147 | every arrival after a named station has its 'from->to' entry, and every entry comes from such an arrival |
| AtpAnalyzer.RawTransitLastWins | src/analyzer/atp_analyzer.py:147 | the entry of a pair not repeated later holds that pair's duration in minutes |
| AtpAnalyzer.RawTransitsAgree | src/analyzer/atp_analyzer.py:136-151 | when no station name is empty, the analyzer's station times equal the location processor's |
| AtpAnalyzer.CalculateStationTimes | src/analyzer/atp_analyzer.py:136-151 | the loop over the records yields the station times of the arrivals, or the decode error |
| AtpAnalyzer.EventStatsFail | src/analyzer/atp_analyzer.py:182-200 | the event analysis fails exactly when some MMI record has no payload or some PRS payload is not ASCII |
| AtpAnalyzer.EventStatsFirstError | src/analyzer/atp_analyzer.py:182-200 | the error reported is that of the first failing event |
| AtpAnalyzer.EventCounters | src/analyzer/atp_analyzer.py:169-200 | each of the four counters is the number of events of its type |
| AtpAnalyzer.EmergencyTimes | src/analyzer/atp_analyzer.py:185-188 | the important ATP entries are the timestamps of the emergency-brake status events, in order |
| AtpAnalyzer.MmiLogMeaning | src/analyzer/atp_analyzer.py:189-193 | the MMI log holds each MMI event's timestamp and first payload byte, in order |
| AtpAnalyzer.PrsLogMeaning | src/analyzer/atp_analyzer.py:194-198 | the PRS log holds each PRS event's timestamp and decoded payload, in order |
| AtpAnalyzer.EventTotal | src/analyzer/atp_analyzer.py:169-200 | the four counters add up to the number of events |
| AtpAnalyzer.AnalyzeEvents | src/analyzer/atp_analyzer.py:167-205 | the loop over the events yields the event statistics, or the first error |
| AtpAnalyzer.EventsFailLater | src/analyzer/atp_analyzer.py:182-200 | once a prefix of the events fails, the whole analysis fails with that error |
| AtpAnalyzer.Analyze | src/analyzer/atp_analyzer.py:28-94 | the analysis method yields the analysis of the records |
| AtpAnalyzer.AnalysisFails | src/analyzer/atp_analyzer.py:30-31 | no records fail with 'No records to analyze'; a non-ASCII PRS payload fails with the decode error; otherwise the analysis fails exactly when an MMI record has no payload, and an index error arises only then |
| AtpAnalyzer.EventsOfBreaks | src/analyzer/atp_analyzer.py:44-45 | a failing record is always among the collected events |
| AtpAnalyzer.AnalysisSpeeds | src/analyzer/atp_analyzer.py:48-51 | with no samples maximum, mean, distance and time are zero; otherwise the maximum is an attained upper bound of the speeds, and distance and time are last minus first |
| AtpAnalyzer.AnalysisOverSpeed | src/analyzer/atp_analyzer.py:25-54 | the over-speed count is the number of samples strictly above 90 km/h |
| AtpAnalyzer.AnalysisEventCounts | src/analyzer/atp_analyzer.py:57-66 | the emergency count is the number of emergency-brake status records and the shutdown count the number of type-201 records, and both agree with the event statistics |
| AtpAnalyzer.ShutdownsCounted | src/analyzer/atp_analyzer.py:63-66 | the type-201 records are exactly those counted as shutdowns |
| AtpEventParser.ParseCodeCases | src/utils/atp_utils.py:45-67 | a status text is 'incomplete data' exactly when the payload is empty; a listed first byte gives its table entry, an unlisted one the unknown text with the code in parentheses |
| AtpEventParser.Int32 | src/utils/atp_utils.py:80-81 | four little-endian bytes read as a signed 32-bit integer lie in the int32 range |
| AtpEventParser.PackInt32 | src/utils/atp_utils.py:80-81 | an int32 is written as four bytes |
| AtpEventParser.UnpackPack | src/utils/atp_utils.py:80-81 | reading back the four bytes of any int32 gives that integer |
| AtpEventParser.PackUnpack | src/utils/atp_utils.py:80-81 | writing the integer read from any four bytes gives those bytes |
| AtpEventParser.LittleEndianDigits | src/utils/atp_utils.py:80-81 | each byte is recovered from the little-endian value by division and remainder |
| AtpEventParser.ShutdownRoundTrip | src/utils/atp_utils.py:78-82 | a shutdown payload carrying a location and a speed is described as that location in km and that speed in km/h |
| AtpEventParser.UnknownTypes | src/utils/atp_utils.py:70-83 | a position description appears exactly for a shutdown with at least eight bytes, and 'unknown event type' exactly for every other type except 2, 3 and 91 |
| AtpEventParser.NotUnknownType | src/utils/atp_utils.py:45-67 | no status or PRS text is the 'unknown event type' text |
| SpeedAnalyzer.Quotients | src/utils/atp_utils.py:115-117 | as many quotients as the longer list has steps, a single step being stretched over the other list as numpy broadcasting does |
| SpeedAnalyzer.QuotientsTimesSteps | src/utils/atp_utils.py:115-117 | each quotient times the time step it divides by is the speed change it divides: the k-th of each list, or the only step of a two-element list |
| SpeedAnalyzer.AnalyzeSpeedProfile | src/utils/atp_utils.py:91-136 | no speeds or no times give an empty profile; a ValueError exactly when numpy cannot divide the speed steps by the time steps or leaves no acceleration; otherwise a profile is computed |
| SpeedAnalyzer.ProfileFails | src/utils/atp_utils.py:94-119 | the profile fails exactly for a single speed, a single time, or lists of different lengths neither of which has two elements |
| SpeedAnalyzer.BroadcastProfile | src/utils/atp_utils.py:115-117 | two speeds against five distinct times give a profile, the one speed step divided by each of the four time steps |
| SpeedAnalyzer.ProfileOverSpeed | src/utils/atp_utils.py:103 | the over-speed count is the number of speeds strictly above the threshold |
| SpeedAnalyzer.ProfileRatio | src/utils/atp_utils.py:103-104 | the over-speed ratio is the percentage of the speeds strictly above the threshold, within 0..100 |
| SpeedAnalyzer.ProfileSpeeds | src/utils/atp_utils.py:98-124 | the maximum is an attained bound of the speeds, min <= mean <= max, there are six bands, and acceleration figures exist exactly when no time step is zero |
| SpeedAnalyzer.Percentage | src/utils/atp_utils.py:104 | the percentage lies in 0..100 and times n is 100 times the count |
| SpeedAnalyzer.DetectSpeedEvents | src/utils/atp_utils.py:138-192 | the loop over window positions yields the events of every position in order, or the first failure |
| SpeedAnalyzer.CheckPosition | src/utils/atp_utils.py:146-190 | the checks at one position yield that position's events, in the order they are appended |
| SpeedAnalyzer.CheckSuddenChanges | src/utils/atp_utils.py:150-172 | the acceleration and deceleration checks at one position yield its sudden changes |
| SpeedAnalyzer.FailLater | src/utils/atp_utils.py:145 | once the first positions fail, the whole detection fails with that error |
| SpeedAnalyzer.OverSpeedOf | src/utils/atp_utils.py:175-181 | at most one over-speed event per position |
| SpeedAnalyzer.OverSpeedsUpTo | src/utils/atp_utils.py:175-181 | at most one over-speed event per visited position |
| SpeedAnalyzer.SuddenChangesAtMostOne | src/utils/atp_utils.py:150-172 | a position yields at most one sudden change, none at the first position, and its value exceeds 2 km/h/s |
| SpeedAnalyzer.OverSpeedAt | src/utils/atp_utils.py:174-181 | the over-speed events of a position are its over-speed check's |
| SpeedAnalyzer.FilterOverSpeeds | src/utils/atp_utils.py:146-190 | the over-speed events among a position's events are exactly its over-speed part |
| SpeedAnalyzer.OverSpeedEvents | src/utils/atp_utils.py:145-192 | the over-speed events detected are exactly those of the visited positions, in order |
| SpeedAnalyzer.OverSpeedCount | src/utils/atp_utils.py:175 | their number is the number of visited speeds strictly above the threshold |
| LocationAnalyzer.Nearest | src/utils/atp_utils.py:213-216 | the nearest station is one of the stations |
| LocationAnalyzer.NearestIsFirstLeast | src/utils/atp_utils.py:213-216 | it is at least as near as every station, and no earlier station is as near |
| LocationAnalyzer.AnalyzeStationTimes | src/utils/atp_utils.py:204-228 | the loop over the locations yields the transit times between the stations passed, or the failure |
| LocationAnalyzer.VisitLocation | src/utils/atp_utils.py:211-226 | one location either fails as the whole walk does or extends the walk by one step |
| LocationAnalyzer.PassStep | src/utils/atp_utils.py:219-226 | a location within 50 m of its nearest station records the transit from the previous named station and becomes the current station |
| LocationAnalyzer.RawTransitsSnoc | src/utils/atp_utils.py:220-223 | a new pass adds the transit from the previous pass exactly when that one has a name |
| LocationAnalyzer.PassesFailLater | src/utils/atp_utils.py:211 | once a prefix of the walk fails, the whole walk fails with that error |
| LocationAnalyzer.PassesFail | src/utils/atp_utils.py:213-221 | the walk fails with ValueError exactly when there are no stations and some location, and with IndexError exactly when a location without a timestamp is near a station |
| LocationAnalyzer.PassesCount | src/utils/atp_utils.py:219 | there is one pass per location near a station |
| LocationAnalyzer.PassesFrom | src/utils/atp_utils.py:219-226 | every pass comes from a location near a station |
| LocationAnalyzer.InnerSections | src/utils/atp_utils.py:243-245 | at most one section per second station |
| LocationAnalyzer.Averages | src/utils/atp_utils.py:251-254 | each section's average lies between the least and greatest of its speeds, and the sections are those sampled |
| LocationAnalyzer.SamplesNonEmpty | src/utils/atp_utils.py:246-248 | every sampled section holds at least one speed |
| LocationAnalyzer.AddSamplesKeys | src/utils/atp_utils.py:246-248 | adding samples creates exactly the listed sections and keeps every section non-empty |
| LocationAnalyzer.InnerSectionsListed | src/utils/atp_utils.py:243-245 | every second station beyond the location gives its section |
| LocationAnalyzer.InnerSectionsFound | src/utils/atp_utils.py:243-245 | every section listed comes from such a station |
| LocationAnalyzer.SectionsListed | src/utils/atp_utils.py:242-245 | every station pair enclosing the location gives its section |
| LocationAnalyzer.SectionsFound | src/utils/atp_utils.py:242-245 | every section listed comes from such a pair |
| LocationAnalyzer.SectionsMembers | src/utils/atp_utils.py:242-245 | a section is listed exactly when its two stations enclose the location |
| LocationAnalyzer.SamplesFail | src/utils/atp_utils.py:235-237 | sampling fails exactly when a visited pair lacks a timestamp, and then with IndexError |
| LocationAnalyzer.SamplesKeys | src/utils/atp_utils.py:235-248 | a section is sampled exactly when some pair whose time advances starts inside it |
| LocationAnalyzer.SampleStepKeys | src/utils/atp_utils.py:238-248 | one pair adds exactly the sections enclosing its start, and only when its time advances |
| LocationAnalyzer.SampledStep | src/utils/atp_utils.py:235-248 | being sampled after k pairs means being sampled before or by pair k |
| LocationAnalyzer.SectionSpeedsKeys | src/utils/atp_utils.py:230-254 | the section speeds fail exactly when a pair lacks a timestamp, and otherwise hold exactly the sampled sections |
| LocationAnalyzer.CalculateSectionSpeeds | src/utils/atp_utils.py:230-254 | the loop over pairs yields the average speed of every sampled section, or the failure |
| LocationAnalyzer.SamplePair | src/utils/atp_utils.py:236-248 | one pair's step of the loop |
| LocationAnalyzer.AddSectionSamples | src/utils/atp_utils.py:242-248 | the two nested loops add the speed to every enclosing section, in station order |
| LocationAnalyzer.AddInnerSamples | src/utils/atp_utils.py:243-248 | the inner loop adds the speed to every section from the first station |
| LocationAnalyzer.AddSamplesSnoc | src/utils/atp_utils.py:246-248 | one more section appends the speed to that section's list, creating it when absent |
| LocationAnalyzer.AddSamplesAppend | src/utils/atp_utils.py:242-248 | adding for two lists of sections is adding for one, then the other |
| LocationAnalyzer.SamplesFailLater | src/utils/atp_utils.py:235 | once the first pairs fail, the whole sampling fails with that error |
| StationDataAnalyzer.DwellOf | src/utils/atp_utils.py:293-298 | dwell statistics exist exactly when dwell times were recorded, with min <= mean <= max |
| StationDataAnalyzer.AnalyzeStationEvents | src/utils/atp_utils.py:266-302 | the loop over the events yields the station summaries, or the failure |
| StationDataAnalyzer.VisitEvent | src/utils/atp_utils.py:270-290 | one event's step of the loop |
| StationDataAnalyzer.TallyMeaning | src/utils/atp_utils.py:270-290 | a station is tallied exactly when an event names it; its arrival and departure counts count those events, its dwell times are the departures after an arrival, and its last arrival is the latest arrival's time |
| StationDataAnalyzer.VisitNamed | src/utils/atp_utils.py:271-290 | an event changes its own station's tally by one arrival or departure, records the arrival time, and adds a dwell time only for a departure after an arrival |
| StationDataAnalyzer.VisitOther | src/utils/atp_utils.py:271-273 | an event leaves every other station's tally unchanged |
| StationDataAnalyzer.MentionedStep | src/utils/atp_utils.py:271-278 | a station is named by a longer prefix exactly when it was named before or by the new event |
| StationDataAnalyzer.TallyFails | src/utils/atp_utils.py:288-289 | the tally fails exactly when a departure follows an arrival without a time, and then with TypeError |
| StationDataAnalyzer.StationEventsMeaning | src/utils/atp_utils.py:266-302 | the analysis fails with TypeError exactly on such a departure and with KeyError exactly when some named station never arrived; otherwise it lists exactly the named stations, each with its counts and dwell statistics |
| StationDataAnalyzer.DwellsAtMostDepartures | src/utils/atp_utils.py:284-290 | there are at most as many dwell times as departures |
| StationDataAnalyzer.NotMentioned | src/utils/atp_utils.py:271-273 | a station no event names has no arrivals, departures or dwell times |
| StationDataAnalyzer.TallyFailLater | src/utils/atp_utils.py:270 | once a prefix of the events fails, the whole tally fails with that error |
| MmiAnalyzer.Accelerations | src/analyzer/mmi_analyzer.py:38-40 | one acceleration per adjacent pair of records |
| MmiAnalyzer.SpeedAnalysisMeaning | src/analyzer/mmi_analyzer.py:12-49 | no records give an empty result and a single record fails with ValueError; otherwise min <= mean <= max bound every speed, the over-speed count counts speeds strictly above 90, the total time is last minus first in hours, and acceleration figures exist exactly when no two adjacent timestamps are equal |
| MmiAnalyzer.AccelerationMeaning | src/analyzer/mmi_analyzer.py:42-47 | the most negative acceleration is at most the largest; the average acceleration exists exactly when one is positive and lies in (0, max]; the average deceleration exists exactly when one is negative and lies in [min, 0) |
| MmiAnalyzer.AnalyzeEvents | src/analyzer/mmi_analyzer.py:51-86 | the loop over the records yields the event statistics, or nothing for no records |
| MmiAnalyzer.EventCountsMeaning | src/analyzer/mmi_analyzer.py:61-64 | a type is counted exactly when records of it exist, its count is their number, and the counts add up to the number of records |
| MmiAnalyzer.EventCountsAre | src/analyzer/mmi_analyzer.py:61-64 | each type's count is its number of records, present exactly when positive |
| MmiAnalyzer.EventCountsTotal | src/analyzer/mmi_analyzer.py:61-64 | the counts add up to the number of records |
| MmiAnalyzer.EventListsMeaning | src/analyzer/mmi_analyzer.py:66-78 | the error list holds the error records, the critical list the shutdown and mode-change records, each in order, and no error is listed as critical |
| MmiAnalyzer.EventStatsMeaning | src/analyzer/mmi_analyzer.py:53-86 | nothing is computed exactly for no records; otherwise the total is the number of records, the error count that of error records, and the counts add up to the total |
| MmiAnalyzer.AnalyzeOperationModes | src/analyzer/mmi_analyzer.py:88-121 | the loop over the records yields the mode report, or the failure |
| MmiAnalyzer.ModesFailLater | src/analyzer/mmi_analyzer.py:94 | once a prefix of the records fails, the whole analysis fails with that error |
| MmiAnalyzer.ModesFail | src/analyzer/mmi_analyzer.py:95-96 | the analysis fails exactly when a mode change has no payload, and then with IndexError |
| MmiAnalyzer.ModesMeaning | src/analyzer/mmi_analyzer.py:94-115 | there is a current mode exactly when a mode change exists; one change is recorded per mode change after the first; the last change time is the last mode change's; the durations add up to last minus first mode-change time; and the changes chain, each starting in the mode the previous one left |
| MmiAnalyzer.TotalChanges | src/analyzer/mmi_analyzer.py:117-121 | the total is one less than the number of mode changes, or 0 without any |
| MmiAnalyzer.AnalyzeSystemStability | src/analyzer/mmi_analyzer.py:123-147 | the loop over the records yields the stability report |
| MmiAnalyzer.StabilityCounts | src/analyzer/mmi_analyzer.py:130-139 | the error and restart counts are the numbers of error and startup records |
| MmiAnalyzer.StabilityIntervals | src/analyzer/mmi_analyzer.py:131-136 | the intervals are the differences of successive error times, and the last error is the last error time |
| MmiAnalyzer.LastErrorIs | src/analyzer/mmi_analyzer.py:136 | the last error is the time of the last error record, absent exactly when no error occurred |
| MmiAnalyzer.IntervalsAre | src/analyzer/mmi_analyzer.py:133-135 | the intervals are the differences of successive error times |
| MmiAnalyzer.StabilityMeaning | src/analyzer/mmi_analyzer.py:123-147 | the counts are those of error and startup records; there is one interval fewer than errors; without intervals average and minimum are 0; otherwise the minimum is an attained lower bound, at most the average, and the intervals add up to last minus first error time |
| MmiAnalyzer.MeanAtLeastMin | src/analyzer/mmi_analyzer.py:144-145 | the mean interval is at least the least one |
| CombinedAnalyzer.Closest | src/analyzer/combined_analyzer.py:24-28 | the closest MMI sample is one of the samples |
| CombinedAnalyzer.ClosestIsFirstLeast | src/analyzer/combined_analyzer.py:24-28 | it is at least as close as every sample, and no earlier sample is as close |
| CombinedAnalyzer.AnalyzeSpeedCorrelation | src/analyzer/combined_analyzer.py:14-51 | the loop over the RU samples yields the speed correlation, or the failure |
| CombinedAnalyzer.MatchOfMeaning | src/analyzer/combined_analyzer.py:22-40 | an RU sample is matched exactly when some MMI sample lies within 1 s; the match keeps its time and speed, takes the speed of the first closest MMI sample, and records MMI minus RU speed |
| CombinedAnalyzer.MatchesMeaning | src/analyzer/combined_analyzer.py:22-46 | there is one match per matched RU sample, the matches are exactly those of the RU samples, and none exist exactly when no sample is matched |
| CombinedAnalyzer.MatchesCount | src/analyzer/combined_analyzer.py:46 | the match count is the number of matched RU samples |
| CombinedAnalyzer.MatchesMembers | src/analyzer/combined_analyzer.py:35-40 | a point is among the matches exactly when some RU sample yields it |
| CombinedAnalyzer.MatchesListed | src/analyzer/combined_analyzer.py:35-40 | every match comes from an RU sample |
| CombinedAnalyzer.MatchesFound | src/analyzer/combined_analyzer.py:35-40 | every RU sample's match is listed |
| CombinedAnalyzer.SpeedCorrelationMeaning | src/analyzer/combined_analyzer.py:42-51 | the analysis fails with ValueError exactly when no RU sample has an MMI sample within 1 s; otherwise the match count is the number of matched samples, the abnormal points are exactly the matches differing by more than 2 km/h, and the mean difference lies within the largest absolute one |
| CombinedAnalyzer.AreEventsRelated | src/analyzer/combined_analyzer.py:139-150 | events are related exactly for RU type 2 with an MMI error, type 3 with a mode change and type 91 with a user action |
| CombinedAnalyzer.FirstPartner | src/analyzer/combined_analyzer.py:67-81 | a partner found is one of the MMI events |
| CombinedAnalyzer.FirstPartnerMeaning | src/analyzer/combined_analyzer.py:67-81 | no partner exists exactly when no MMI event is related and within 1 s; otherwise the partner is the first such event |
| CombinedAnalyzer.AnalyzeEventCorrelation | src/analyzer/combined_analyzer.py:53-99 | the loops over the events yield the event correlation |
| CombinedAnalyzer.PairEvent | src/analyzer/combined_analyzer.py:64-81 | the inner loop yields the RU event's correlation with its first partner, if any |
| CombinedAnalyzer.EventPartition | src/analyzer/combined_analyzer.py:62-84 | every RU event is either correlated or unpaired |
| CombinedAnalyzer.CorrelatedMeaning | src/analyzer/combined_analyzer.py:62-84 | the correlations are exactly those of RU events with their first partners, and the unpaired RU events are exactly those without a partner |
| CombinedAnalyzer.CorrelatedMembers | src/analyzer/combined_analyzer.py:73-81 | a correlation is listed exactly when some RU event yields it |
| CombinedAnalyzer.CorrelatedListed | src/analyzer/combined_analyzer.py:73-81 | every correlation comes from an RU event |
| CombinedAnalyzer.CorrelatedFound | src/analyzer/combined_analyzer.py:73-81 | every RU event's correlation is listed |
| CombinedAnalyzer.UnpairedMmiMeaning | src/analyzer/combined_analyzer.py:87-91 | an MMI event is unpaired exactly when no correlation's MMI event has its time |
| CombinedAnalyzer.RateMeaning | src/analyzer/combined_analyzer.py:97-98 | the correlation rate lies in 0..1, is 0 without RU events, and is 1 exactly when RU events exist and none is unpaired |
| CombinedAnalyzer.FractionBounds | src/analyzer/combined_analyzer.py:97 | a fraction of at most the whole lies in 0..1 and is 1 exactly at the whole |
| CombinedAnalyzer.SharedPartner | src/analyzer/combined_analyzer.py:67-91 | one MMI event can be the partner of two RU events, and is then not unpaired |
| CombinedAnalyzer.Intervals | src/analyzer/combined_analyzer.py:156-157 | one interval per adjacent pair of timestamps |
| CombinedAnalyzer.FindTimeGaps | src/analyzer/combined_analyzer.py:152-164 | the loop over adjacent timestamps yields the gaps |
| CombinedAnalyzer.GapsMeaning | src/analyzer/combined_analyzer.py:156-163 | a gap is listed exactly when some adjacent pair is more than 5 s apart, with that pair's start, end and duration; there is at most one gap per pair |
| CombinedAnalyzer.GapsFound | src/analyzer/combined_analyzer.py:158-163 | every pair more than 5 s apart is listed |
| CombinedAnalyzer.GapsListed | src/analyzer/combined_analyzer.py:158-163 | every gap listed comes from such a pair |
| CombinedAnalyzer.GapsWithinSpan | src/analyzer/combined_analyzer.py:156-163 | for ordered timestamps, the gaps add up to at most the whole span |
| CombinedAnalyzer.AnalyzeSystemConsistency | src/analyzer/combined_analyzer.py:101-137 | the method yields the consistency report, or the failure |
| CombinedAnalyzer.CoverageMeaning | src/analyzer/combined_analyzer.py:106-136 | the report fails exactly when either side has no records; otherwise each side's start and end are attained bounds of its times, the overlap lies within both spans and is non-empty exactly when the spans meet, and no state inconsistency is listed |
| VisualProcessors.CountBySnoc | src/visualization/core/processors.py:170-181 | counting one more event raises its key's count by one, starting from 0 |
| VisualProcessors.CountByMeaning | src/visualization/core/processors.py:171-181 | a key is present exactly when some event has it, its value is the number of such events, and the values add up to the number of events |
| VisualProcessors.CountByEntries | src/visualization/core/processors.py:171-181 | each key's count is its number of events, present exactly when positive |
| VisualProcessors.CountByTotal | src/visualization/core/processors.py:171-181 | the counts add up to the number of events |
| VisualProcessors.TimeGapsSnoc | src/visualization/core/processors.py:183-186 | one more event adds its distance from the previous one, except for the first |
| VisualProcessors.StatisticsMeaning | src/visualization/core/processors.py:159-188 | the total is the number of events; by type, severity and hour the counts add up to it and each is the number of events with that key; every hour lies in 0..23 |
| VisualProcessors.HoursInDay | src/visualization/core/processors.py:180 | every hour counted lies in 0..23 |
| VisualProcessors.IntervalsMeaning | src/visualization/core/processors.py:183-186 | there is one interval per adjacent pair, each the later time minus the earlier, and none is negative for time-sorted events |
| VisualProcessors.TimeGapsAre | src/visualization/core/processors.py:183-186 | one gap per adjacent pair, each the later time minus the earlier |
| VisualProcessors.StatisticsStep | src/visualization/core/processors.py:170-186 | one event's step bumps its type, severity and hour and appends its interval |
| VisualProcessors.MissingSeverityIsInfo | src/visualization/core/processors.py:176 | an event without a severity is counted under INFO |
| VisualProcessors.CountPositive | src/visualization/core/processors.py:171-181 | a key some event has is counted at least once |
| VisualProcessors.Window | src/visualization/core/processors.py:197 | each window holds five events |
| VisualProcessors.RepetitiveMeaning | src/visualization/core/processors.py:219-222 | a window is repetitive exactly when all its events have the first one's type |
| VisualProcessors.SubsetCard | src/visualization/core/processors.py:222 | a subset is no larger than its superset |
| VisualProcessors.EscalatingMonotone | src/visualization/core/processors.py:224-230 | in an escalating window no later event has a lower severity rank |
| VisualProcessors.PatternsMeaning | src/visualization/core/processors.py:190-217 | fewer than five events give no patterns; every pattern comes from a window of five consecutive events; and every repetitive or escalating window yields its pattern |
| VisualProcessors.PatternsStep | src/visualization/core/processors.py:196-215 | one more window appends its own patterns |
| VisualProcessors.WindowPatternsFrom | src/visualization/core/processors.py:199-215 | a window's patterns start and end at its first and last events and list its types |
| VisualProcessors.PatternsListed | src/visualization/core/processors.py:196-215 | every pattern found comes from one of the windows visited |
| VisualProcessors.PatternsFound | src/visualization/core/processors.py:196-215 | every repetitive or escalating window visited yields its pattern |
| VisualProcessors.TimelineSnoc | src/visualization/core/processors.py:237-255 | one more event adds a severity change when its severity differs from the current one, then its own entry |
| VisualProcessors.TimelineStep | src/visualization/core/processors.py:237-255 | the timeline step for one event, after which the current severity is that event's |
| VisualProcessors.TimelineMeaning | src/visualization/core/processors.py:232-257 | the timeline has one entry per event plus one per severity change, its event entries are the events in order, and no change is from a severity to itself |
| VisualProcessors.TimelineLength | src/visualization/core/processors.py:237-255 | one entry per event plus one per severity change |
| VisualProcessors.TimelineEvents | src/visualization/core/processors.py:250-255 | the event entries are the events in order |
| VisualProcessors.EventEntriesStep | src/visualization/core/processors.py:240-255 | a severity change adds no event entry |
| VisualProcessors.TimelineChanges | src/visualization/core/processors.py:240-247 | every severity change goes to a different severity |
| VisualProcessors.EventProcessor.constructor | src/visualization/core/processors.py:129-137 | a new processor has seen no event types |
| VisualProcessors.EventProcessor.ProcessEvents | src/visualization/core/processors.py:139-157 | the seen types grow by the types of the events, and the result is the statistics, patterns and timeline of the time-sorted events |
| VisualProcessors.EventProcessor.CalculateStatistics | src/visualization/core/processors.py:159-188 | the loop yields the statistics of the events |
| VisualProcessors.EventProcessor.DetectPatterns | src/visualization/core/processors.py:190-217 | the loop yields the patterns of the events |
| VisualProcessors.EventProcessor.GenerateTimeline | src/visualization/core/processors.py:232-257 | the loop yields the timeline of the events |
| VisualProcessors.ProcessedIntervals | src/visualization/core/processors.py:145-148 | after sorting by time the total is the number of events and no interval is negative |
| Themes.BuiltinRegistry | src/visualization/core/themes.py:59-98 | the built-in themes are default, dark and contrast, each stored under its own name, with the dark and contrast backgrounds |
| Themes.ThemeManager.constructor | src/visualization/core/themes.py:54-57 | a new manager holds the built-in themes with default current |
| Themes.ThemeManager.LoadTheme | src/visualization/core/themes.py:100-105 | an unknown name fails and changes nothing; a stored one becomes current and is returned |
| Themes.ThemeManager.SaveTheme | src/visualization/core/themes.py:107-109 | the theme is stored under its name, replacing any theme of that name, a new name is listed last, and nothing else changes |
| Themes.ThemeManager.GetThemeNames | src/visualization/core/themes.py:160-162 | the names of the stored themes, each once, in insertion order |
| Themes.ThemeManager.GetCurrentTheme | src/visualization/core/themes.py:164-166 | the current theme, which is always stored under its own name |
| Themes.ThemeManager.CreateTheme | src/visualization/core/themes.py:168-175 | an existing name fails and changes nothing; otherwise a theme with the given parts and defaults for the rest is stored under the new name and returned |
| Sorting.SortByKey | src/visualization/core/processors.py:145 | sorting keeps the length and is a permutation of its input |
| Sorting.SortSorted | src/visualization/core/processors.py:145 | the result is ordered by the key |
| Sorting.SortStable | src/visualization/core/processors.py:145 | events with equal keys keep their input order |
| Sorting.InsertSorted | src/visualization/core/processors.py:145 | inserting into a sorted sequence keeps it sorted |
| Sorting.InsertStable | src/visualization/core/processors.py:145 | insertion places an element after those with an equal key |
| Stats.Max | src/analyzer/atp_analyzer.py:48 | the maximum is one of the values and bounds all of them |
| Stats.Min | src/analyzer/mmi_analyzer.py:23 | the minimum is one of the values and is bounded by all of them |
| Stats.MeanOrNaN | src/analyzer/processors.py:81-82 | the mean of positive or negative accelerations exists exactly when there is one, and lies between their least and greatest |
| Stats.MeanBounds | src/analyzer/atp_analyzer.py:49 | the mean lies between the least and greatest value |
| Stats.ConstantMean | src/analyzer/atp_analyzer.py:49 | the mean of equal values is that value |
| Stats.CountAboveExtremes | src/analyzer/atp_analyzer.py:54 | no value above the threshold counts 0, all above count them all |
| Stats.CountAboveIsFilter | src/analyzer/atp_analyzer.py:54 | the over-speed count is the count of values strictly above the threshold |
| Stats.Diffs | src/analyzer/processors.py:70-71 | one difference per adjacent pair, each the later value minus the earlier |
| Stats.DiffsTelescope | src/analyzer/mmi_analyzer.py:133-135 | the differences add up to last minus first |
| Stats.BinOf | src/analyzer/processors.py:59-60 | a value falls in a bin exactly when it lies within the edges; bins are half open except the last, which includes its upper edge |
| Stats.Histogram | src/analyzer/processors.py:59-64 | one count per bin, each the number of values in that bin |
| Stats.HistogramTotal | src/analyzer/processors.py:59-64 | the bins add up to the number of values within the edges |
| Stats.SpeedBands | src/analyzer/processors.py:59-64 | six bands that together hold exactly the speeds within [0, 120] |
| Stats.EdgeCount | src/analyzer/processors.py:265 | the number of 10-km bins is the least that reaches the maximum location |
| Stats.LocationBinCount | src/analyzer/processors.py:265 | the bins reach the maximum location |
| Stats.LocationBins | src/analyzer/processors.py:265-270 | one count per 10-km bin, together holding every non-negative location |
| Common.TruncDiv | src/analyzer/processors.py:23 | integer division truncating toward zero: the magnitude is the quotient of magnitudes and the sign is the product of signs |
| Common.TruncDivBounds | src/analyzer/processors.py:23 | the truncated quotient times the divisor is within one divisor of the dividend |
| Common.AsciiDecode | src/analyzer/processors.py:297 | ASCII decoding succeeds exactly when every byte is below 128, and then maps each byte to its character |
| Common.StripLeft | src/analyzer/processors.py:297 | only leading whitespace is removed, and all of it |
| Common.StripRight | src/analyzer/processors.py:297 | only trailing whitespace is removed, and all of it |
| Common.StripSlice | src/analyzer/processors.py:297 | the stripped text is a contiguous part of the original |
| Common.StripTrims | src/analyzer/processors.py:297-299 | a non-empty stripped name has no surrounding whitespace |
| Common.NatToDecimal | src/analyzer/processors.py:210 | the decimal text of a number is made of digits, without a leading zero |
| Common.NatToDecimalInjective | src/analyzer/processors.py:210 | different codes have different decimal texts |
| Records.OfType | src/analyzer/processors.py:115 | the records of one type, each taken from the log |
| Records.Samples | src/analyzer/processors.py:46 | the speed samples are type-211 records |
| Processors.SummarizeStep | src/analyzer/processors.py:120-136 | one more record adds its parsed event to the summary, and a record that parses to nothing changes nothing |
| Processors.VisitStation | src/analyzer/processors.py:296-311 | one PRS record's step of the station walk |
| Validators.SpeedsPassAcceptable | src/analyzer/validators.py:106-135 | a speed check that passes means the speeds are acceptable |
| Validators.SpeedsFailUnacceptable | src/analyzer/validators.py:106-135 | a speed check that fails means they are not |

## Left out

- File and stream I/O: `parse_file` receives the file contents as bytes; `load_from_file` and `save_to_file` of the theme registry are not modelled.
- The bodies of `_parse_header` and `_parse_record` are not part of this model. The record decoder is a parameter that yields a record and the bytes it used, the end of the records, or an exception. The header is read as the four fixed slots of 8, 8, 8 and 6 bytes plus six raw time bytes. A file shorter than 36 bytes is taken to have no header.
- Date and time handling: timestamps are integer seconds, `total_seconds()` is the difference of two of them, and `.hour` is the hour of the day of a second count. ISO timestamp parsing is not modelled.
- Floating point: means, ratios and quotients are exact reals. NaN, infinities and rounding are not modelled. A numpy mean of an empty list is `None`. A numpy division by a zero time step, which gives inf or NaN, is modelled as "no acceleration figures".
- `np.std`: the standard deviations (`std_speed`, `std_difference`) are not modelled. The fluctuation test of `detect_speed_events` compares the variance with 25 in place of the deviation with 5.
- The 10-bin histogram of `MMIAnalyzer.analyze_speed` is not modelled.
- Formatting: the f-string texts of durations, accelerations and descriptions are kept only as numbers or as keys. The minutes strings of station times are the real number of minutes.
- `generate_summary`, `generate_analysis_report` and the `AnalysisResult` dictionary conversion are not modelled: they only assemble strings.
- Progress callbacks and logging: only the percentage arithmetic of `_update_progress` is modelled.
- `sort_values('timestamp')` of the location processor and Python's `sorted` are both modelled as the same stable sort by key. pandas' default sort is not guaranteed stable, so the order of PRS records with equal timestamps may differ.
- The MMI parser's event-type constants are not part of this model. They are distinct constructors of `MmiEventType`.
- `state_inconsistencies` of the consistency check is always empty, and is modelled as an empty list.
- The station-code table of `StationDataAnalyzer` (`load_station_codes`) is not modelled: it is never read by the analysis.
- The station map of `LocationAnalyzer` is a sequence of (name, km) marks in dictionary order.
- The event dictionaries of `StationDataAnalyzer` are reduced to the fields the analysis reads. An arrival event without a key 'time' gives a `None` arrival time.
- The final `del` of 'last_arrival' in `analyze_station_events` fails with KeyError for a station that never arrived. The model reports that KeyError as the result of the whole analysis, as the code does.
- Python truthiness: empty strings and `None` are false, and a zero timestamp value is taken as present.
- Processors.AnalyzeSpeed: states the average acceleration and deceleration only by whether they exist and their sign, not their exact value.
- AtpAnalyzer.AccelerationMeans: states the averages by existence and sign only, not as exact means.
- AtpEventParser.Int32: `struct.unpack('i')` reads in the host's native byte order; the model assumes a little-endian host.
- The GUI, the plots, the exporters, the signal processor and the views' base `DataProcessor` are outside this model.
