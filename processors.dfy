/** The three record processors of the analyzer: speed statistics with the
    fixed speed bands and the acceleration summary, event classification
    with its counters and event lists, and location statistics with the
    station-to-station travel times. The record table they receive is a
    sequence of records in table order. */
module Processors {
  import opened Common
  import opened Records
  import opened Stats
  import opened Sorting

  // ---------------------------------------------------------------------------
  // Progress reporting.
  // ---------------------------------------------------------------------------

  /** `int(current * 100 / total)`; a zero total divides by zero (None). */
  function ProgressPercent(current: int, total: int): (p: Option<int>)
    ensures p.None? <==> total == 0
    ensures total > 0 && 0 <= current <= total ==> 0 <= p.value <= 100
    ensures total > 0 && current == total ==> p.value == 100
  {
    if total == 0 then None
    else
      var q := TruncDiv(current * 100, total);
      ProgressBounds(current, total, q);
      Some(q)
  }

  lemma ProgressBounds(current: int, total: int, q: int)
    requires total != 0 && q == TruncDiv(current * 100, total)
    ensures total > 0 && 0 <= current <= total ==> 0 <= q <= 100
    ensures total > 0 && current == total ==> q == 100
  {
    TruncDivBounds(current * 100, total);
    MulMono(101, Abs(q), Abs(total));
    MulMono(Abs(q) + 1, 100, Abs(total));
  }

  /** The event processor reports progress with the record type as current
      and 201 as total, so its four reports are 0, 1, 45 and 100. */
  lemma EventProgressReports()
    ensures ProgressPercent(AtpStatus, AtpShutdown) == Some(0)
    ensures ProgressPercent(MmiStatus, AtpShutdown) == Some(1)
    ensures ProgressPercent(PrsEvent, AtpShutdown) == Some(45)
    ensures ProgressPercent(AtpShutdown, AtpShutdown) == Some(100)
  {
  }

  // ---------------------------------------------------------------------------
  // The speed processor.
  // ---------------------------------------------------------------------------

  const SpeedErrorPrefix := "速度分析失敗: "
  const NoSpeedRecordsMessage := "找不到速度記錄"
  /** numpy's message for the maximum of an empty array. */
  const EmptyMaximumMessage := "zero-size array to reduction operation maximum which has no identity"

  datatype SpeedStats = SpeedStats(
    maxSpeed: int,
    avgSpeed: real,
    overSpeedCount: nat,
    bands: seq<nat>,
    maxAcceleration: int,
    maxDeceleration: nat,
    avgAcceleration: Option<real>,
    avgDeceleration: Option<real>)

  function SpeedsOf(rows: seq<RURecord>): (v: seq<int>)
    ensures |v| == |rows| && forall i :: 0 <= i < |rows| ==> v[i] == rows[i].speed
  {
    MapSeq(rows, (r: RURecord) => r.speed)
  }

  function TimesOf(rows: seq<RURecord>): (t: seq<int>)
    ensures |t| == |rows| && forall i :: 0 <= i < |rows| ==> t[i] == rows[i].timestamp
  {
    MapSeq(rows, (r: RURecord) => r.timestamp)
  }

  function AsReals(s: seq<int>): (r: seq<real>)
    ensures |r| == |s| && forall i :: 0 <= i < |s| ==> r[i] == s[i] as real
  {
    MapSeq(s, (x: int) => x as real)
  }

  /** The accelerations of consecutive samples: the speed step divided by
      the time step and stored in an integer array (so truncated toward
      zero), or 0 where the time step is not positive. */
  function Accelerations(times: seq<int>, speeds: seq<int>): (a: seq<int>)
    requires |times| == |speeds|
    ensures |a| == |Diffs(times)|
    ensures forall i :: 0 <= i < |a| ==> a[i] == Acceleration(times[i + 1] - times[i], speeds[i + 1] - speeds[i])
  {
    var dt := Diffs(times);
    var dv := Diffs(speeds);
    seq(|dt|, i requires 0 <= i < |dt| => Acceleration(dt[i], dv[i]))
  }

  /** The acceleration of one pair of samples: zero unless time advanced,
      otherwise the speed step over the time step truncated toward zero, so
      it has the sign of the speed step and never exceeds it in size. */
  function Acceleration(dt: int, dv: int): (a: int)
    ensures dt <= 0 || dv == 0 ==> a == 0
    ensures dt > 0 ==> Abs(a) * dt <= Abs(dv) < (Abs(a) + 1) * dt
    ensures (a > 0 ==> dv > 0) && (a < 0 ==> dv < 0)
  {
    if dt > 0 then
      TruncDivBounds(dv, dt);
      TruncDiv(dv, dt)
    else 0
  }

  /** The elements above zero and below zero, as reals. */
  function Positives(s: seq<int>): (r: seq<real>)
    ensures forall i :: 0 <= i < |r| ==> r[i] > 0.0
  {
    if s == [] then []
    else Positives(s[..|s| - 1]) + (if s[|s| - 1] > 0 then [s[|s| - 1] as real] else [])
  }

  function Negatives(s: seq<int>): (r: seq<real>)
    ensures forall i :: 0 <= i < |r| ==> r[i] < 0.0
  {
    if s == [] then []
    else Negatives(s[..|s| - 1]) + (if s[|s| - 1] < 0 then [s[|s| - 1] as real] else [])
  }

  /** `SpeedProcessor.analyze`. Fails without speed samples, and with a
      single sample, whose acceleration array is empty. */
  function AnalyzeSpeed(rows: seq<RURecord>, threshold: real): (r: Result<SpeedStats, string>)
    ensures r.Err? <==> |Samples(rows)| < 2
    ensures Samples(rows) == [] ==> r == Err(SpeedErrorPrefix + NoSpeedRecordsMessage)
    ensures |Samples(rows)| == 1 ==> r == Err(SpeedErrorPrefix + EmptyMaximumMessage)
    ensures r.Ok? ==>
      var v := SpeedsOf(Samples(rows));
      var a := Accelerations(TimesOf(Samples(rows)), v);
      && r.value.maxSpeed in v && (forall i :: 0 <= i < |v| ==> v[i] <= r.value.maxSpeed)
      && MinInt(v) as real <= r.value.avgSpeed <= r.value.maxSpeed as real
      && r.value.overSpeedCount == Count(AsReals(v), x => x > threshold)
      && |r.value.bands| == 6
      && SumNat(r.value.bands) == Count(AsReals(v), x => 0.0 <= x <= 120.0)
      && r.value.maxAcceleration in a && (forall i :: 0 <= i < |a| ==> a[i] <= r.value.maxAcceleration)
      && r.value.maxDeceleration == Abs(MinInt(a))
      && (r.value.avgAcceleration.Some? <==> Positives(a) != [])
      && (r.value.avgAcceleration.Some? ==> r.value.avgAcceleration.value > 0.0)
      && (r.value.avgDeceleration.Some? <==> Negatives(a) != [])
      && (r.value.avgDeceleration.Some? ==> r.value.avgDeceleration.value > 0.0)
  {
    var samples := Samples(rows);
    if samples == [] then Err(SpeedErrorPrefix + NoSpeedRecordsMessage)
    else
      var v := SpeedsOf(samples);
      var a := Accelerations(TimesOf(samples), v);
      if a == [] then Err(SpeedErrorPrefix + EmptyMaximumMessage)
      else
        var vr := AsReals(v);
        MeanBounds(vr);
        assert Min(vr) == MinInt(v) as real && Max(vr) == MaxInt(v) as real by { RealExtremes(v); }
        CountAboveIsFilter(vr, threshold);
        var pos := MeanOrNaN(Positives(a));
        var neg := MeanOrNaN(Negatives(a));
        Ok(SpeedStats(
          MaxInt(v), Mean(vr), CountAbove(vr, threshold), SpeedBands(vr),
          MaxInt(a), Abs(MinInt(a)), pos,
          if neg.Some? then Some(-neg.value) else None))
  }

  /** The extremes of a list of integers are those of the same list read as
      reals. */
  lemma RealExtremes(v: seq<int>)
    requires v != []
    ensures Min(AsReals(v)) == MinInt(v) as real && Max(AsReals(v)) == MaxInt(v) as real
  {
    RealMin(v);
    RealMax(v);
  }

  lemma {:induction false} RealMin(v: seq<int>)
    requires v != []
    ensures Min(AsReals(v)) == MinInt(v) as real
  {
    if |v| > 1 {
      var p := v[..|v| - 1];
      RealMin(p);
      assert AsReals(v)[..|v| - 1] == AsReals(p);
    }
  }

  lemma {:induction false} RealMax(v: seq<int>)
    requires v != []
    ensures Max(AsReals(v)) == MaxInt(v) as real
  {
    if |v| > 1 {
      var p := v[..|v| - 1];
      RealMax(p);
      assert AsReals(v)[..|v| - 1] == AsReals(p);
    }
  }

  /** A time step that is not positive contributes a zero acceleration, and
      a pair of samples with equal speeds contributes zero, so a constant
      speed yields no acceleration at all. */
  lemma ConstantSpeedNoAcceleration(times: seq<int>, speeds: seq<int>)
    requires |times| == |speeds| && |speeds| >= 2
    requires forall i :: 0 <= i < |speeds| ==> speeds[i] == speeds[0]
    ensures forall i :: 0 <= i < |Accelerations(times, speeds)| ==> Accelerations(times, speeds)[i] == 0
  {
    var a := Accelerations(times, speeds);
    forall i | 0 <= i < |a|
      ensures a[i] == 0
    {
      assert speeds[i + 1] - speeds[i] == 0;
    }
  }

  // ---------------------------------------------------------------------------
  // The event processor.
  // ---------------------------------------------------------------------------

  datatype EventKind = AtpStatusChange | MmiStatusChange | PrsEventKind | AtpDown

  function KindName(k: EventKind): string
  {
    match k
    case AtpStatusChange => "ATP狀態變更"
    case MmiStatusChange => "MMI狀態變更"
    case PrsEventKind => "PRS事件"
    case AtpDown => "ATP關機"
  }

  /** The classified event: its kind, time, the status or event text (none
      for a shutdown) and its flags. */
  datatype EventInfo = EventInfo(
    kind: EventKind,
    time: int,
    description: Option<string>,
    isEmergency: bool,
    isAtpDown: bool,
    isAbnormal: bool)

  /** `data[0] if len(data) > 0 else None`. */
  function FirstByte(data: seq<Byte>): (c: Option<Byte>)
    ensures c.Some? <==> data != []
  {
    if data == [] then None else Some(data[0])
  }

  /** Python's `str` of an optional code. */
  function CodeText(code: Option<Byte>): string
  {
    if code.None? then "None" else NatToDecimal(code.value)
  }

  const AtpStatusTable: map<int, string> :=
    map[0 := "正常", 1 := "常用緊軔", 2 := "緊急緊軔", 3 := "系統故障", 4 := "通訊異常", 5 := "感應子異常"]
  const MmiStatusTable: map<int, string> :=
    map[0 := "正常", 1 := "顯示異常", 2 := "按鍵故障", 3 := "記憶體不足", 4 := "通訊中斷", 5 := "系統重啟"]
  const PrsEventTable: map<int, string> :=
    map[0 := "通訊正常", 1 := "列車編號設定", 2 := "CRC錯誤", 3 := "通訊逾時", 4 := "編號不符", 5 := "連線中斷", 6 := "連線恢復"]

  /** `table.get(code, f"<unknown>({code})")`. */
  function Describe(table: map<int, string>, code: Option<Byte>, unknown: string): (s: string)
    ensures code.Some? && code.value in table ==> s == table[code.value]
    ensures code.None? || code.value !in table ==> s == unknown + "(" + CodeText(code) + ")"
  {
    if code.Some? && code.value in table then table[code.value] else unknown + "(" + CodeText(code) + ")"
  }

  function AtpStatusText(code: Option<Byte>): string { Describe(AtpStatusTable, code, "未知狀態") }
  function MmiStatusText(code: Option<Byte>): string { Describe(MmiStatusTable, code, "未知狀態") }
  function PrsEventText(code: Option<Byte>): string { Describe(PrsEventTable, code, "未知事件") }

  /** Unknown codes are described, not dropped, and two different unknown
      codes get different descriptions. */
  lemma UnknownCodesDistinct(table: map<int, string>, unknown: string, m: Byte, n: Byte)
    requires m !in table && n !in table && m != n
    ensures Describe(table, Some(m), unknown) != Describe(table, Some(n), unknown)
  {
    var sm, sn := NatToDecimal(m), NatToDecimal(n);
    if Describe(table, Some(m), unknown) == Describe(table, Some(n), unknown) {
      assert unknown + "(" + sm + ")" == unknown + "(" + sn + ")";
      var p := |unknown| + 1;
      assert |sm| == |sn|;
      assert sm == (unknown + "(" + sm + ")")[p..p + |sm|];
      assert sn == (unknown + "(" + sn + ")")[p..p + |sn|];
      NatToDecimalInjective(m, n);
    }
  }

  function InList(code: Option<Byte>, xs: set<int>): bool
  {
    code.Some? && code.value in xs
  }

  /** `_parse_event`: classifies an event record by its first payload byte;
      other record types give nothing. */
  function ParseEvent(r: RURecord): (e: Option<EventInfo>)
    ensures e.Some? <==> IsEventType(r.logType)
    ensures e.Some? ==> e.value.time == r.timestamp
    ensures e.Some? ==> (e.value.isEmergency <==> r.logType == AtpStatus && FirstByte(r.data) == Some(2))
    ensures e.Some? ==> (e.value.isAtpDown <==> r.logType == AtpShutdown)
    ensures e.Some? ==> (e.value.description.None? <==> r.logType == AtpShutdown)
    ensures e.Some? ==> (e.value.isAbnormal <==>
      || (r.logType == AtpStatus && InList(FirstByte(r.data), {2, 3, 4}))
      || (r.logType == MmiStatus && InList(FirstByte(r.data), {1, 2, 3}))
      || (r.logType == PrsEvent && InList(FirstByte(r.data), {3, 4, 5})))
  {
    var code := FirstByte(r.data);
    if r.logType == AtpStatus then
      Some(EventInfo(AtpStatusChange, r.timestamp, Some(AtpStatusText(code)), code == Some(2), false, InList(code, {2, 3, 4})))
    else if r.logType == MmiStatus then
      Some(EventInfo(MmiStatusChange, r.timestamp, Some(MmiStatusText(code)), false, false, InList(code, {1, 2, 3})))
    else if r.logType == PrsEvent then
      Some(EventInfo(PrsEventKind, r.timestamp, Some(PrsEventText(code)), false, false, InList(code, {3, 4, 5})))
    else if r.logType == AtpShutdown then
      Some(EventInfo(AtpDown, r.timestamp, None, false, true, false))
    else None
  }

  /** The kind each event type is classified as. */
  function KindOf(t: int): EventKind
    requires IsEventType(t)
  {
    if t == AtpStatus then AtpStatusChange
    else if t == MmiStatus then MmiStatusChange
    else if t == PrsEvent then PrsEventKind
    else AtpDown
  }

  /** An emergency is always abnormal and is never a shutdown. */
  lemma EmergencyIsAbnormal(r: RURecord)
    requires ParseEvent(r).Some? && ParseEvent(r).value.isEmergency
    ensures ParseEvent(r).value.isAbnormal && !ParseEvent(r).value.isAtpDown
    ensures ParseEvent(r).value.kind == KindOf(r.logType)
  {
  }

  /** The counters and lists of `EventProcessor.analyze`. */
  datatype EventSummary = EventSummary(
    counts: map<string, nat>,
    emergencyCount: nat,
    atpDownCount: nat,
    important: seq<EventInfo>,
    abnormal: seq<EventInfo>)

  const NoEvents := EventSummary(map[], 0, 0, [], [])

  /** `counts[name] = counts.get(name, 0) + 1`. */
  function Bump(counts: map<string, nat>, name: string): (r: map<string, nat>)
    ensures r.Keys == counts.Keys + {name}
    ensures r[name] == (if name in counts then counts[name] else 0) + 1
    ensures forall k :: k in counts && k != name ==> r[k] == counts[k]
  {
    counts[name := (if name in counts then counts[name] else 0) + 1]
  }

  /** Counting one successfully parsed event. */
  function Tally(s: EventSummary, e: EventInfo): EventSummary
  {
    var counts := Bump(s.counts, KindName(e.kind));
    var s1 := if e.isEmergency then EventSummary(counts, s.emergencyCount + 1, s.atpDownCount, s.important + [e], s.abnormal)
              else EventSummary(counts, s.emergencyCount, s.atpDownCount, s.important, s.abnormal);
    var s2 := if e.isAtpDown then s1.(atpDownCount := s1.atpDownCount + 1, important := s1.important + [e]) else s1;
    if e.isAbnormal then s2.(abnormal := s2.abnormal + [e]) else s2
  }

  function Summarize(events: seq<EventInfo>): EventSummary
  {
    if events == [] then NoEvents else Tally(Summarize(events[..|events| - 1]), events[|events| - 1])
  }

  /** The parsed events of a list of records, in order, dropping the
      records that parse to nothing. */
  function Infos(records: seq<RURecord>): (e: seq<EventInfo>)
    ensures |e| <= |records|
  {
    if records == [] then []
    else
      var last := ParseEvent(records[|records| - 1]);
      Infos(records[..|records| - 1]) + (if last.Some? then [last.value] else [])
  }

  /** The order in which the event processor visits the record types. */
  const EventTypeOrder: seq<int> := [AtpStatus, MmiStatus, PrsEvent, AtpShutdown]

  /** The records of each type in `types`, type by type, each type's records
      in table order. */
  function ByTypes(rows: seq<RURecord>, types: seq<int>): seq<RURecord>
  {
    if types == [] then [] else ByTypes(rows, types[..|types| - 1]) + OfType(rows, types[|types| - 1])
  }

  function CountKind(events: seq<EventInfo>, k: EventKind): nat
  {
    if events == [] then 0
    else CountKind(events[..|events| - 1], k) + (if events[|events| - 1].kind == k then 1 else 0)
  }

  function CountEmergency(events: seq<EventInfo>): nat
  {
    if events == [] then 0
    else CountEmergency(events[..|events| - 1]) + (if events[|events| - 1].isEmergency then 1 else 0)
  }

  function CountAtpDown(events: seq<EventInfo>): nat
  {
    if events == [] then 0
    else CountAtpDown(events[..|events| - 1]) + (if events[|events| - 1].isAtpDown then 1 else 0)
  }

  function Abnormal(events: seq<EventInfo>): seq<EventInfo>
  {
    if events == [] then []
    else Abnormal(events[..|events| - 1]) + (if events[|events| - 1].isAbnormal then [events[|events| - 1]] else [])
  }

  /** What the counters and lists mean: the important list holds every
      emergency and every shutdown, so its length is the sum of their
      counts; the abnormal list holds exactly the abnormal events; and each
      kind's count is the number of its events, present as a key only when
      that number is not zero. */
  lemma SummaryMeaning(events: seq<EventInfo>)
    ensures Summarize(events).emergencyCount == CountEmergency(events)
    ensures Summarize(events).atpDownCount == CountAtpDown(events)
    ensures |Summarize(events).important| == Summarize(events).emergencyCount + Summarize(events).atpDownCount
    ensures Summarize(events).abnormal == Abnormal(events)
    ensures forall k :: (KindName(k) in Summarize(events).counts <==> CountKind(events, k) > 0)
    ensures forall k :: KindName(k) in Summarize(events).counts ==> Summarize(events).counts[KindName(k)] == CountKind(events, k)
    ensures forall x :: x in Summarize(events).important ==> x in events && (x.isEmergency || x.isAtpDown)
  {
    SummaryLists(events);
    SummaryKinds(events);
  }

  /** The counters and lists of the summary, by induction on the events. */
  lemma {:induction false} SummaryLists(events: seq<EventInfo>)
    ensures Summarize(events).emergencyCount == CountEmergency(events)
    ensures Summarize(events).atpDownCount == CountAtpDown(events)
    ensures |Summarize(events).important| == Summarize(events).emergencyCount + Summarize(events).atpDownCount
    ensures Summarize(events).abnormal == Abnormal(events)
    ensures forall x :: x in Summarize(events).important ==> x in events && (x.isEmergency || x.isAtpDown)
  {
    if events != [] {
      SummaryLists(events[..|events| - 1]);
    }
  }

  /** The per-kind counts of the summary, by induction on the events. */
  lemma {:induction false} SummaryKinds(events: seq<EventInfo>)
    ensures forall k :: (KindName(k) in Summarize(events).counts <==> CountKind(events, k) > 0)
    ensures forall k :: KindName(k) in Summarize(events).counts ==> Summarize(events).counts[KindName(k)] == CountKind(events, k)
  {
    if events != [] {
      var p := events[..|events| - 1];
      SummaryKinds(p);
      forall k ensures KindName(k) == KindName(events[|events| - 1].kind) <==> k == events[|events| - 1].kind {
        KindNamesDistinct(k, events[|events| - 1].kind);
      }
    }
  }

  lemma KindNamesDistinct(a: EventKind, b: EventKind)
    ensures KindName(a) == KindName(b) <==> a == b
  {
    if a != b {
      assert KindName(a)[0] != KindName(b)[0] || KindName(a)[1] != KindName(b)[1] || |KindName(a)| != |KindName(b)|;
    }
  }

  lemma {:induction false} InfosAppend(a: seq<RURecord>, b: seq<RURecord>)
    ensures Infos(a + b) == Infos(a) + Infos(b)
  {
    if b != [] {
      assert (a + b)[..|a + b| - 1] == a + b[..|b| - 1];
      InfosAppend(a, b[..|b| - 1]);
    } else {
      assert a + b == a;
    }
  }

  lemma {:induction false} CountKindAppend(a: seq<EventInfo>, b: seq<EventInfo>, k: EventKind)
    ensures CountKind(a + b, k) == CountKind(a, k) + CountKind(b, k)
  {
    if b != [] {
      assert (a + b)[..|a + b| - 1] == a + b[..|b| - 1];
      CountKindAppend(a, b[..|b| - 1], k);
    } else {
      assert a + b == a;
    }
  }

  /** The parsed events of one event type are all of that type's kind, one
      per record. */
  lemma {:induction false} InfosOfType(rows: seq<RURecord>, t: int, k: EventKind)
    requires IsEventType(t)
    ensures CountKind(Infos(OfType(rows, t)), k) == if KindOf(t) == k then |OfType(rows, t)| else 0
  {
    if rows != [] {
      InfosOfType(rows[..|rows| - 1], t, k);
      InfosOfTypeStep(rows, t, k);
    }
  }

  /** One more record keeps the count of `InfosOfType`. */
  lemma InfosOfTypeStep(rows: seq<RURecord>, t: int, k: EventKind)
    requires IsEventType(t) && rows != []
    requires var before := OfType(rows[..|rows| - 1], t);
      CountKind(Infos(before), k) == if KindOf(t) == k then |before| else 0
    ensures CountKind(Infos(OfType(rows, t)), k) == if KindOf(t) == k then |OfType(rows, t)| else 0
  {
    var p := rows[..|rows| - 1];
    var last := rows[|rows| - 1];
    var tail := if last.logType == t then [last] else [];
    assert OfType(rows, t) == OfType(p, t) + tail;
    CountInfosAppend(OfType(p, t), tail, k);
    if last.logType == t {
      OneInfoKind(last, k);
    } else {
      assert Infos(tail) == [];
    }
  }

  /** Counting a kind among the parsed events of two tables one after the
      other adds the counts of each. */
  lemma CountInfosAppend(a: seq<RURecord>, b: seq<RURecord>, k: EventKind)
    ensures CountKind(Infos(a + b), k) == CountKind(Infos(a), k) + CountKind(Infos(b), k)
  {
    InfosAppend(a, b);
    CountKindAppend(Infos(a), Infos(b), k);
  }

  lemma OneInfoKind(r: RURecord, k: EventKind)
    requires IsEventType(r.logType)
    ensures CountKind(Infos([r]), k) == if KindOf(r.logType) == k then 1 else 0
  {
    assert [r][..0] == [];
    var e := ParseEvent(r).value;
    assert Infos([r]) == [e];
    assert [e][..0] == [];
  }

  lemma ByTypesOrder(rows: seq<RURecord>)
    ensures ByTypes(rows, EventTypeOrder) == OfType(rows, 2) + OfType(rows, 3) + OfType(rows, 91) + OfType(rows, 201)
  {
    var ts := EventTypeOrder;
    assert ts[..3] == [2, 3, 91];
    assert [2, 3, 91][..2] == [2, 3];
    assert [2, 3][..1] == [2];
    assert [2][..0] == [];
    assert ByTypes(rows, [2]) == OfType(rows, 2);
    assert ByTypes(rows, [2, 3]) == OfType(rows, 2) + OfType(rows, 3);
    assert ByTypes(rows, [2, 3, 91]) == OfType(rows, 2) + OfType(rows, 3) + OfType(rows, 91);
  }

  /** `event_counts[name]` is the number of records of the named type. */
  lemma EventCountsPerType(rows: seq<RURecord>, i: nat)
    requires i < |EventTypeOrder|
    ensures var t := EventTypeOrder[i];
      var s := Summarize(Infos(ByTypes(rows, EventTypeOrder)));
      (KindName(KindOf(t)) in s.counts <==> OfType(rows, t) != [])
      && (OfType(rows, t) != [] ==> s.counts[KindName(KindOf(t))] == |OfType(rows, t)|)
  {
    var events := Infos(ByTypes(rows, EventTypeOrder));
    SummaryMeaning(events);
    var k := KindOf(EventTypeOrder[i]);
    KindCountByType(rows, k);
    InfosOfType(rows, 2, k);
    InfosOfType(rows, 3, k);
    InfosOfType(rows, 91, k);
    InfosOfType(rows, 201, k);
  }

  /** The events of a kind among all visited records are those among the
      records of each type in turn. */
  lemma KindCountByType(rows: seq<RURecord>, k: EventKind)
    ensures CountKind(Infos(ByTypes(rows, EventTypeOrder)), k)
         == CountKind(Infos(OfType(rows, 2)), k) + CountKind(Infos(OfType(rows, 3)), k)
          + CountKind(Infos(OfType(rows, 91)), k) + CountKind(Infos(OfType(rows, 201)), k)
  {
    ByTypesOrder(rows);
    InfosAppend(OfType(rows, 2) + OfType(rows, 3) + OfType(rows, 91), OfType(rows, 201));
    InfosAppend(OfType(rows, 2) + OfType(rows, 3), OfType(rows, 91));
    InfosAppend(OfType(rows, 2), OfType(rows, 3));
    CountKindAppend(Infos(OfType(rows, 2)) + Infos(OfType(rows, 3)) + Infos(OfType(rows, 91)), Infos(OfType(rows, 201)), k);
    CountKindAppend(Infos(OfType(rows, 2)) + Infos(OfType(rows, 3)), Infos(OfType(rows, 91)), k);
    CountKindAppend(Infos(OfType(rows, 2)), Infos(OfType(rows, 3)), k);
  }

  /** `EventProcessor.analyze`: visits the types 2, 3, 91 and 201 in that
      order and, within each, the records in table order, counting each
      parsed event and appending it to the important and abnormal lists as
      its flags say. */
  method AnalyzeEvents(rows: seq<RURecord>) returns (s: EventSummary)
    ensures s == Summarize(Infos(ByTypes(rows, EventTypeOrder)))
  {
    var types := EventTypeOrder;
    var counts: map<string, nat> := map[];
    var emergencyBrakeCount: nat := 0;
    var atpDownCount: nat := 0;
    var important: seq<EventInfo> := [];
    var abnormal: seq<EventInfo> := [];
    for k := 0 to |types|
      invariant EventSummary(counts, emergencyBrakeCount, atpDownCount, important, abnormal)
             == Summarize(Infos(ByTypes(rows, types[..k])))
    {
      ghost var visited := ByTypes(rows, types[..k]);
      var events := OfType(rows, types[k]);
      ByTypesStep(rows, types, k);
      for j := 0 to |events|
        invariant EventSummary(counts, emergencyBrakeCount, atpDownCount, important, abnormal)
               == Summarize(Infos(visited + events[..j]))
      {
        ghost var before := visited + events[..j];
        SnocPrefix(visited, events, j);
        SummarizeStep(before, events[j]);
        var eventInfo := ParseEvent(events[j]);
        if eventInfo.Some? {
          counts, emergencyBrakeCount, atpDownCount, important, abnormal :=
            CountEvent(counts, emergencyBrakeCount, atpDownCount, important, abnormal, eventInfo.value);
        }
      }
      assert events[..|events|] == events;
    }
    assert types[..|types|] == types;
    s := EventSummary(counts, emergencyBrakeCount, atpDownCount, important, abnormal);
  }

  /** The counter and list updates of one parsed event. */
  method CountEvent(counts: map<string, nat>, emergencyBrakeCount: nat, atpDownCount: nat,
                    important: seq<EventInfo>, abnormal: seq<EventInfo>, info: EventInfo)
    returns (counts': map<string, nat>, emergencyBrakeCount': nat, atpDownCount': nat,
             important': seq<EventInfo>, abnormal': seq<EventInfo>)
    ensures EventSummary(counts', emergencyBrakeCount', atpDownCount', important', abnormal')
         == Tally(EventSummary(counts, emergencyBrakeCount, atpDownCount, important, abnormal), info)
  {
    counts', emergencyBrakeCount', atpDownCount', important', abnormal' :=
      counts, emergencyBrakeCount, atpDownCount, important, abnormal;
    counts' := Bump(counts', KindName(info.kind));
    if info.isEmergency {
      emergencyBrakeCount' := emergencyBrakeCount' + 1;
      important' := important' + [info];
    }
    if info.isAtpDown {
      atpDownCount' := atpDownCount' + 1;
      important' := important' + [info];
    }
    if info.isAbnormal {
      abnormal' := abnormal' + [info];
    }
    TallyFields(EventSummary(counts, emergencyBrakeCount, atpDownCount, important, abnormal), info);
  }

  lemma ByTypesStep(rows: seq<RURecord>, types: seq<int>, k: nat)
    requires k < |types|
    ensures ByTypes(rows, types[..k + 1]) == ByTypes(rows, types[..k]) + OfType(rows, types[k])
    ensures ByTypes(rows, types[..k]) + OfType(rows, types[k])[..0] == ByTypes(rows, types[..k])
  {
    assert types[..k + 1][..k] == types[..k];
  }

  lemma SnocPrefix<T>(a: seq<T>, b: seq<T>, j: nat)
    requires j < |b|
    ensures a + b[..j + 1] == (a + b[..j]) + [b[j]]
  {
  }

  /** `Tally` field by field, in the order the event processor updates them. */
  lemma TallyFields(s: EventSummary, e: EventInfo)
    ensures var name := KindName(e.kind);
      var t := Tally(s, e);
      && t.counts == Bump(s.counts, name)
      && t.emergencyCount == (if e.isEmergency then s.emergencyCount + 1 else s.emergencyCount)
      && t.atpDownCount == (if e.isAtpDown then s.atpDownCount + 1 else s.atpDownCount)
      && t.important == (var i1 := if e.isEmergency then s.important + [e] else s.important;
                         if e.isAtpDown then i1 + [e] else i1)
      && t.abnormal == (if e.isAbnormal then s.abnormal + [e] else s.abnormal)
  {
  }

  lemma InfosSnoc(records: seq<RURecord>, r: RURecord)
    ensures Infos(records + [r]) == Infos(records) + (if ParseEvent(r).Some? then [ParseEvent(r).value] else [])
  {
    assert (records + [r])[..|records|] == records;
  }

  /** One more record tallies its event, if it parses to one. */
  lemma SummarizeStep(records: seq<RURecord>, r: RURecord)
    ensures Summarize(Infos(records + [r]))
         == if ParseEvent(r).Some? then Tally(Summarize(Infos(records)), ParseEvent(r).value)
            else Summarize(Infos(records))
  {
    InfosSnoc(records, r);
    var e := Infos(records);
    if ParseEvent(r).Some? {
      assert (e + [ParseEvent(r).value])[..|e|] == e;
    } else {
      assert e + [] == e;
    }
  }

  // ---------------------------------------------------------------------------
  // The location processor.
  // ---------------------------------------------------------------------------

  const LocationErrorPrefix := "位置分析失敗: "
  const NoLocationRecordsMessage := "找不到位置記錄"

  datatype LocationStats = LocationStats(
    totalDistance: int,
    totalTime: int,
    bins: seq<nat>,
    stationTimes: map<string, real>)

  function LocationsOf(rows: seq<RURecord>): (l: seq<int>)
    ensures |l| == |rows| && forall i :: 0 <= i < |rows| ==> l[i] == rows[i].location
  {
    MapSeq(rows, (r: RURecord) => r.location)
  }

  /** A station stop: the station name and the time of its PRS event. */
  datatype Stop = Stop(name: string, time: int)

  /** The stops of a list of PRS events: each payload decoded as ASCII and
      stripped, events whose payload does not decode or strips to nothing
      skipped. */
  function Stops(events: seq<RURecord>): (s: seq<Stop>)
    ensures |s| <= |events|
    ensures forall i :: 0 <= i < |s| ==> Trimmed(s[i].name)
  {
    if events == [] then []
    else Stops(events[..|events| - 1]) + StopOf(events[|events| - 1])
  }

  function StopOf(e: RURecord): (s: seq<Stop>)
    ensures |s| <= 1
    ensures forall i :: 0 <= i < |s| ==> Trimmed(s[i].name)
  {
    match AsciiDecode(e.data)
    case None => []
    case Some(text) =>
      StripTrims(text);
      if Strip(text) == [] then [] else [Stop(Strip(text), e.timestamp)]
  }

  function TransitKey(from: string, to: string): string
  {
    from + "->" + to
  }

  /** The key and the minutes of the transit that ends at stop i. */
  function PairKey(stops: seq<Stop>, i: nat): string
    requires 0 < i < |stops|
  {
    TransitKey(stops[i - 1].name, stops[i].name)
  }

  function PairMinutes(stops: seq<Stop>, i: nat): real
    requires 0 < i < |stops|
  {
    (stops[i].time - stops[i - 1].time) as real / 60.0
  }

  /** One entry per consecutive pair of stops; a later pair overwrites an
      earlier one with the same key. */
  function TransitTimes(stops: seq<Stop>): map<string, real>
  {
    if |stops| < 2 then map[]
    else AddTransit(TransitTimes(stops[..|stops| - 1]), stops[|stops| - 2], stops[|stops| - 1])
  }

  /** `station_times[from->to] = minutes from one stop to the next`. */
  function AddTransit(times: map<string, real>, from: Stop, to: Stop): map<string, real>
  {
    times[TransitKey(from.name, to.name) := (to.time - from.time) as real / 60.0]
  }

  /** Every consecutive pair has a key, and every key belongs to one. */
  lemma {:induction false} TransitKeys(stops: seq<Stop>)
    ensures forall i :: 0 < i < |stops| ==> PairKey(stops, i) in TransitTimes(stops)
    ensures forall k :: k in TransitTimes(stops) ==> exists i :: 0 < i < |stops| && PairKey(stops, i) == k
  {
    if |stops| >= 2 {
      var n := |stops| - 1;
      var p := stops[..n];
      TransitKeys(p);
      assert forall i :: 0 < i < |p| ==> PairKey(p, i) == PairKey(stops, i);
      assert TransitTimes(stops) == TransitTimes(p)[PairKey(stops, n) := PairMinutes(stops, n)];
    }
  }

  /** The travel time stored under a key is that of the last pair with the
      key. */
  lemma {:induction false} TransitLastWins(stops: seq<Stop>, i: nat)
    requires 0 < i < |stops|
    requires forall j :: i < j < |stops| ==> PairKey(stops, j) != PairKey(stops, i)
    ensures PairKey(stops, i) in TransitTimes(stops)
    ensures TransitTimes(stops)[PairKey(stops, i)] == PairMinutes(stops, i)
  {
    var n := |stops| - 1;
    var p := stops[..n];
    assert TransitTimes(stops) == TransitTimes(p)[PairKey(stops, n) := PairMinutes(stops, n)];
    if i < n {
      assert forall j :: 0 < j < |p| ==> PairKey(p, j) == PairKey(stops, j) && PairMinutes(p, j) == PairMinutes(stops, j);
      TransitLastWins(p, i);
    }
  }

  /** The PRS events in time order (a stable sort). */
  function PrsByTime(rows: seq<RURecord>): seq<RURecord>
  {
    SortByKey(OfType(rows, PrsEvent), (r: RURecord) => r.timestamp)
  }

  /** `_calculate_station_times`: walks the PRS events in time order, keeping
      the last valid station and its time, and records the travel time to
      each next valid station under "previous->next". */
  method CalculateStationTimes(rows: seq<RURecord>) returns (stationTimes: map<string, real>)
    ensures stationTimes == TransitTimes(Stops(PrsByTime(rows)))
  {
    var events := PrsByTime(rows);
    stationTimes := WalkStations(events);
  }

  /** The loop of `_calculate_station_times` over the sorted PRS events. */
  method WalkStations(events: seq<RURecord>) returns (stationTimes: map<string, real>)
    ensures stationTimes == TransitTimes(Stops(events))
  {
    stationTimes := map[];
    var currentStation: Option<Stop> := None;
    for i := 0 to |events|
      invariant Walked(events, i, stationTimes, currentStation)
    {
      stationTimes, currentStation := VisitStation(events, i, stationTimes, currentStation);
    }
    assert events[..|events|] == events;
  }

  /** One iteration of the walk: an event that names a station records the
      transit from the current station, if any, and becomes the current one. */
  method VisitStation(events: seq<RURecord>, i: nat, stationTimes: map<string, real>, currentStation: Option<Stop>)
    returns (times': map<string, real>, current': Option<Stop>)
    requires i < |events| && Walked(events, i, stationTimes, currentStation)
    ensures Walked(events, i + 1, times', current')
  {
    times', current' := stationTimes, currentStation;
    var decoded := AsciiDecode(events[i].data);
    if decoded.None? {
      SkipStep(events, i, stationTimes, currentStation);
      return;
    }
    var stationName := Strip(decoded.value);
    if stationName == [] {
      SkipStep(events, i, stationTimes, currentStation);
      return;
    }
    var stop := Stop(stationName, events[i].timestamp);
    StopStep(events, i, stationTimes, currentStation, stop);
    if currentStation.Some? {
      times' := AddTransit(stationTimes, currentStation.value, stop);
    }
    current' := Some(stop);
  }

  /** The state after walking the first i events: the transits so far and
      the last stop seen. */
  ghost predicate Walked(events: seq<RURecord>, i: nat, times: map<string, real>, current: Option<Stop>)
    requires i <= |events|
  {
    var stops := Stops(events[..i]);
    && times == TransitTimes(stops)
    && (current.None? <==> stops == [])
    && (current.Some? ==> current.value == stops[|stops| - 1])
  }

  /** An event whose payload is not ASCII or strips to nothing changes nothing. */
  lemma SkipStep(events: seq<RURecord>, i: nat, times: map<string, real>, current: Option<Stop>)
    requires i < |events| && Walked(events, i, times, current)
    requires AsciiDecode(events[i].data).None? || Strip(AsciiDecode(events[i].data).value) == []
    ensures Walked(events, i + 1, times, current)
  {
    StopsStep(events, i);
  }

  /** An event naming a station is the next stop. */
  lemma StopStep(events: seq<RURecord>, i: nat, times: map<string, real>, current: Option<Stop>, stop: Stop)
    requires i < |events| && Walked(events, i, times, current)
    requires AsciiDecode(events[i].data).Some?
    requires stop == Stop(Strip(AsciiDecode(events[i].data).value), events[i].timestamp) && stop.name != []
    ensures Walked(events, i + 1, if current.Some? then AddTransit(times, current.value, stop) else times, Some(stop))
  {
    assert StopOf(events[i]) == [stop];
    StopsStep(events, i);
    if current.Some? {
      TransitStep(Stops(events[..i]), current.value, stop);
    } else {
      assert [] + [stop] == [stop];
    }
  }

  lemma StopsStep(events: seq<RURecord>, i: nat)
    requires i < |events|
    ensures Stops(events[..i + 1]) == Stops(events[..i]) + StopOf(events[i])
    ensures StopOf(events[i]) == [] ==> Stops(events[..i + 1]) == Stops(events[..i])
  {
    assert events[..i + 1][..i] == events[..i];
    assert Stops(events[..i]) + [] == Stops(events[..i]);
  }

  /** A stop after a previous one adds the transit between them. */
  lemma TransitStep(stops: seq<Stop>, previous: Stop, stop: Stop)
    requires stops != [] && stops[|stops| - 1] == previous
    ensures TransitTimes(stops + [stop]) == AddTransit(TransitTimes(stops), previous, stop)
  {
    var s := stops + [stop];
    assert s[..|s| - 1] == stops;
    assert s[|s| - 2] == previous && s[|s| - 1] == stop;
  }

  /** `LocationProcessor.analyze`: fails without speed samples; otherwise
      the spread of locations and of times, the 10-wide location bins and the
      station travel times. */
  function AnalyzeLocation(rows: seq<RURecord>): (r: Result<LocationStats, string>)
    ensures r.Err? <==> Samples(rows) == []
    ensures r.Err? ==> r.error == LocationErrorPrefix + NoLocationRecordsMessage
    ensures r.Ok? ==>
      var l := LocationsOf(Samples(rows));
      var t := TimesOf(Samples(rows));
      && r.value.totalDistance == MaxInt(l) - MinInt(l) >= 0
      && r.value.totalTime == MaxInt(t) - MinInt(t) >= 0
      && (forall i, j :: 0 <= i < |l| && 0 <= j < |l| ==> l[i] - l[j] <= r.value.totalDistance)
      && (forall i, j :: 0 <= i < |t| && 0 <= j < |t| ==> t[i] - t[j] <= r.value.totalTime)
      && |r.value.bins| == LocationBinCount(AsReals(l))
      && (|r.value.bins| > 0 ==> SumNat(r.value.bins) == Count(AsReals(l), x => 0.0 <= x))
      && r.value.stationTimes == TransitTimes(Stops(PrsByTime(rows)))
  {
    var samples := Samples(rows);
    if samples == [] then Err(LocationErrorPrefix + NoLocationRecordsMessage)
    else
      var l := LocationsOf(samples);
      var t := TimesOf(samples);
      Ok(LocationStats(MaxInt(l) - MinInt(l), MaxInt(t) - MinInt(t), LocationBins(AsReals(l)),
                       TransitTimes(Stops(PrsByTime(rows)))))
  }
}
