/** The event processor behind the event views: it sorts events by time,
    counts them by type, severity and hour, collects the intervals between
    them, finds repetitive and escalating runs of five events, and builds a
    timeline that marks every change of severity. */
module VisualProcessors {
  import opened Common
  import opened Stats
  import opened Sorting

  /** An event as the views hand it over: its time in whole seconds, its
      type, and its optional severity and description. */
  datatype VisEvent = VisEvent(time: int, eventType: string, severity: Option<string>, description: Option<string>)

  /** The severity ranks; an unknown severity ranks 0. */
  const SeverityRanks: map<string, int> :=
    map["CRITICAL" := 4, "HIGH" := 3, "MEDIUM" := 2, "LOW" := 1, "INFO" := 0]

  const WindowSize := 5

  function TimeOfEvent(e: VisEvent): int
  {
    e.time
  }

  /** A missing severity reads as 'INFO'. */
  function SeverityOf(e: VisEvent): string
  {
    if e.severity.Some? then e.severity.value else "INFO"
  }

  function Rank(e: VisEvent): int
  {
    var s := SeverityOf(e);
    if s in SeverityRanks then SeverityRanks[s] else 0
  }

  /** The hour of the day of a time counted in seconds from a midnight. */
  function HourOf(e: VisEvent): int
  {
    e.time % 86400 / 3600
  }

  function TypeOf(e: VisEvent): string
  {
    e.eventType
  }

  // ---------------------------------------------------------------------------
  // Statistics.
  // ---------------------------------------------------------------------------

  /** For each key, the number of events with that key: every event adds
      one to its key's count, starting from 0. */
  function CountBy<K(==)>(events: seq<VisEvent>, key: VisEvent -> K): map<K, int>
  {
    if events == [] then map[]
    else
      Bump(CountBy(events[..|events| - 1], key), key(events[|events| - 1]))
  }

  /** Adds one to the count of k, which starts from 0. */
  function Bump<K>(m: map<K, int>, k: K): map<K, int>
  {
    m[k := (if k in m then m[k] else 0) + 1]
  }

  /** One more event adds one to the count of its key. */
  lemma CountBySnoc<K>(events: seq<VisEvent>, i: nat, key: VisEvent -> K)
    requires i < |events|
    ensures CountBy(events[..i + 1], key) == Bump(CountBy(events[..i], key), key(events[i]))
  {
    assert events[..i + 1][..i] == events[..i];
  }

  function HasKey<K(==)>(key: VisEvent -> K, k: K): VisEvent -> bool
  {
    (e: VisEvent) => key(e) == k
  }

  /** Each key of some event has an entry counting its events, no other key
      has one, and the entries add up to the number of events. */
  lemma CountByMeaning<K>(events: seq<VisEvent>, key: VisEvent -> K)
    ensures var m := CountBy(events, key);
      && (forall k :: k in m <==> Count(events, HasKey(key, k)) > 0)
      && (forall k :: k in m ==> m[k] == Count(events, HasKey(key, k)))
      && MapTotal(m) == |events|
  {
    CountByEntries(events, key);
    CountByTotal(events, key);
  }

  lemma {:induction false} CountByEntries<K>(events: seq<VisEvent>, key: VisEvent -> K)
    ensures var m := CountBy(events, key);
      && (forall k :: k in m <==> Count(events, HasKey(key, k)) > 0)
      && (forall k :: k in m ==> m[k] == Count(events, HasKey(key, k)))
  {
    if events != [] {
      var before := events[..|events| - 1];
      var last := events[|events| - 1];
      CountByEntries(before, key);
      forall k
        ensures Count(events, HasKey(key, k)) == Count(before, HasKey(key, k)) + if key(last) == k then 1 else 0
      {
        assert HasKey(key, k)(last) == (key(last) == k);
      }
      var m := CountBy(events, key);
      var m0 := CountBy(before, key);
      assert m == m0[key(last) := (if key(last) in m0 then m0[key(last)] else 0) + 1];
      forall k | k in m
        ensures m[k] == Count(events, HasKey(key, k))
      {
        var before_k := Count(before, HasKey(key, k));
        assert Count(events, HasKey(key, k)) == before_k + if key(last) == k then 1 else 0;
        assert k in m0 <==> before_k > 0;
        assert k in m0 ==> m0[k] == before_k;
        if k != key(last) {
          assert m[k] == m0[k];
        }
      }
    }
  }

  lemma {:induction false} CountByTotal<K>(events: seq<VisEvent>, key: VisEvent -> K)
    ensures MapTotal(CountBy(events, key)) == |events|
  {
    if events != [] {
      var m := CountBy(events[..|events| - 1], key);
      var k := key(events[|events| - 1]);
      CountByTotal(events[..|events| - 1], key);
      MapTotalUpdate(m, k, (if k in m then m[k] else 0) + 1);
    }
  }

  /** The time from each event to the next one. */
  function TimeGaps(events: seq<VisEvent>): seq<int>
  {
    if |events| <= 1 then []
    else TimeGaps(events[..|events| - 1]) + [events[|events| - 1].time - events[|events| - 2].time]
  }

  /** One more event adds its interval from the one before it. */
  lemma TimeGapsSnoc(events: seq<VisEvent>, i: nat)
    requires i < |events|
    ensures TimeGaps(events[..i + 1]) == TimeGaps(events[..i]) + if i > 0 then [events[i].time - events[i - 1].time] else []
  {
    assert events[..i + 1][..i] == events[..i];
  }

  datatype EventStatistics = EventStatistics(
    total: nat,
    byType: map<string, int>,
    bySeverity: map<string, int>,
    byHour: map<int, int>,
    intervals: seq<int>)

  function StatisticsOf(events: seq<VisEvent>): EventStatistics
  {
    EventStatistics(|events|, CountBy(events, TypeOf), CountBy(events, SeverityOf), CountBy(events, HourOf),
                    TimeGaps(events))
  }

  /** The statistics: the total is the number of events; the counts by
      type, by severity (a missing one counting as 'INFO') and by hour each
      count every event once. */
  lemma StatisticsMeaning(events: seq<VisEvent>)
    ensures var s := StatisticsOf(events);
      && s.total == |events|
      && MapTotal(s.byType) == |events|
      && MapTotal(s.bySeverity) == |events|
      && MapTotal(s.byHour) == |events|
      && (forall t :: t in s.byType ==> s.byType[t] == Count(events, HasKey(TypeOf, t)))
      && (forall v :: v in s.bySeverity ==> s.bySeverity[v] == Count(events, HasKey(SeverityOf, v)))
      && (forall h :: h in s.byHour ==> 0 <= h < 24)
  {
    CountByMeaning(events, TypeOf);
    CountByMeaning(events, SeverityOf);
    CountByMeaning(events, HourOf);
    HoursInDay(events);
  }

  lemma {:induction false} HoursInDay(events: seq<VisEvent>)
    ensures forall h :: h in CountBy(events, HourOf) ==> 0 <= h < 24
  {
    if events != [] {
      HoursInDay(events[..|events| - 1]);
    }
  }

  /** There is one interval per pair of consecutive events, the second one's
      time minus the first one's; in time order none is negative. */
  lemma IntervalsMeaning(events: seq<VisEvent>)
    ensures var d := StatisticsOf(events).intervals;
      && |d| == (if events == [] then 0 else |events| - 1)
      && (forall i :: 0 < i < |events| ==> d[i - 1] == events[i].time - events[i - 1].time)
      && (SortedBy(events, TimeOfEvent) ==> forall i :: 0 <= i < |d| ==> d[i] >= 0)
  {
    TimeGapsAre(events);
    var d := TimeGaps(events);
    if SortedBy(events, TimeOfEvent) {
      forall i | 0 <= i < |d|
        ensures d[i] >= 0
      {
        assert d[i] == events[i + 1].time - events[i].time;
        assert TimeOfEvent(events[i]) <= TimeOfEvent(events[i + 1]);
      }
    }
  }

  lemma {:induction false} TimeGapsAre(events: seq<VisEvent>)
    ensures |TimeGaps(events)| == if events == [] then 0 else |events| - 1
    ensures forall i :: 0 < i < |events| ==> TimeGaps(events)[i - 1] == events[i].time - events[i - 1].time
  {
    if |events| > 1 {
      var before := events[..|events| - 1];
      TimeGapsAre(before);
      forall i | 0 < i < |events|
        ensures TimeGaps(events)[i - 1] == events[i].time - events[i - 1].time
      {
        if i < |events| - 1 {
          assert TimeGaps(events)[i - 1] == TimeGaps(before)[i - 1];
          assert before[i] == events[i] && before[i - 1] == events[i - 1];
        }
      }
    }
  }

  /** The statistics after one more event. */
  lemma StatisticsStep(events: seq<VisEvent>, i: nat)
    requires i < |events|
    ensures var s := StatisticsOf(events[..i]);
      var e := events[i];
      StatisticsOf(events[..i + 1])
      == EventStatistics(i + 1, Bump(s.byType, TypeOf(e)), Bump(s.bySeverity, SeverityOf(e)), Bump(s.byHour, HourOf(e)),
                         s.intervals + if i > 0 then [e.time - events[i - 1].time] else [])
  {
    CountBySnoc(events, i, TypeOf);
    CountBySnoc(events, i, SeverityOf);
    CountBySnoc(events, i, HourOf);
    TimeGapsSnoc(events, i);
  }

  /** An event without a severity is counted under 'INFO'. */
  lemma MissingSeverityIsInfo(events: seq<VisEvent>, i: nat)
    requires i < |events| && events[i].severity.None?
    ensures "INFO" in StatisticsOf(events).bySeverity
  {
    CountByMeaning(events, SeverityOf);
    assert HasKey(SeverityOf, "INFO")(events[i]);
    CountPositive(events, HasKey(SeverityOf, "INFO"), i);
  }

  lemma {:induction false} CountPositive<T>(s: seq<T>, p: T -> bool, i: nat)
    requires i < |s| && p(s[i])
    ensures Count(s, p) > 0
  {
    if i < |s| - 1 {
      CountPositive(s[..|s| - 1], p, i);
    }
  }

  // ---------------------------------------------------------------------------
  // Patterns.
  // ---------------------------------------------------------------------------

  datatype PatternKind = Repetitive | Escalating

  datatype Pattern = Pattern(kind: PatternKind, start: int, end: int, events: seq<string>)

  /** The number of windows of five consecutive events. */
  function WindowCount(events: seq<VisEvent>): nat
  {
    if |events| < WindowSize then 0 else |events| - WindowSize + 1
  }

  /** The five events starting at event i. */
  function Window(events: seq<VisEvent>, i: nat): (w: seq<VisEvent>)
    requires i + WindowSize <= |events|
    ensures |w| == WindowSize
  {
    events[i..i + WindowSize]
  }

  /** The window holds a single event type. */
  predicate IsRepetitive(window: seq<VisEvent>)
  {
    |set i | 0 <= i < |window| :: window[i].eventType| == 1
  }

  /** The severity ranks never fall along the window. */
  predicate IsEscalating(window: seq<VisEvent>)
  {
    forall i :: 0 < i < |window| ==> Rank(window[i - 1]) <= Rank(window[i])
  }

  function Types(window: seq<VisEvent>): seq<string>
  {
    MapSeq(window, TypeOf)
  }

  function PatternOf(kind: PatternKind, window: seq<VisEvent>): Pattern
    requires window != []
  {
    Pattern(kind, window[0].time, window[|window| - 1].time, Types(window))
  }

  function WindowPatterns(window: seq<VisEvent>): seq<Pattern>
    requires window != []
  {
    (if IsRepetitive(window) then [PatternOf(Repetitive, window)] else [])
    + (if IsEscalating(window) then [PatternOf(Escalating, window)] else [])
  }

  /** The patterns of the first k windows. */
  function PatternsUpTo(events: seq<VisEvent>, k: nat): seq<Pattern>
    requires k <= WindowCount(events)
  {
    if k == 0 then [] else PatternsUpTo(events, k - 1) + WindowPatterns(Window(events, k - 1))
  }

  function PatternsOf(events: seq<VisEvent>): seq<Pattern>
  {
    PatternsUpTo(events, WindowCount(events))
  }

  /** A window holds a single event type exactly when every type equals the
      first. */
  lemma RepetitiveMeaning(window: seq<VisEvent>)
    requires window != []
    ensures IsRepetitive(window) <==> forall i :: 0 <= i < |window| ==> window[i].eventType == window[0].eventType
  {
    var types := set i | 0 <= i < |window| :: window[i].eventType;
    assert window[0].eventType in types;
    if forall i :: 0 <= i < |window| ==> window[i].eventType == window[0].eventType {
      assert types == {window[0].eventType};
    } else {
      var j :| 0 <= j < |window| && window[j].eventType != window[0].eventType;
      var pair := {window[0].eventType, window[j].eventType};
      assert pair <= types;
      assert |pair| == 2;
      SubsetCard(pair, types);
    }
  }

  lemma SubsetCard<T>(a: set<T>, b: set<T>)
    requires a <= b
    ensures |a| <= |b|
  {
    assert b == a + (b - a);
  }

  /** Along an escalating window every later rank is at least every earlier
      one. */
  lemma {:induction false} EscalatingMonotone(window: seq<VisEvent>, i: nat, j: nat)
    requires IsEscalating(window) && i <= j < |window|
    ensures Rank(window[i]) <= Rank(window[j])
    decreases j - i
  {
    if i < j {
      EscalatingMonotone(window, i, j - 1);
    }
  }

  /** Fewer than five events give no pattern. Every pattern comes from one
      window of five consecutive events, starting at its first event's time,
      ending at its last and listing its types; a repetitive pattern's events
      share one type and an escalating pattern's ranks never fall. Every
      window that is repetitive or escalating gives its pattern. */
  lemma PatternsMeaning(events: seq<VisEvent>)
    ensures |events| < WindowSize ==> PatternsOf(events) == []
    ensures forall p :: p in PatternsOf(events) ==>
      exists i :: 0 <= i < WindowCount(events) && PatternFrom(events, i, p)
    ensures forall i :: 0 <= i < WindowCount(events) ==>
      (IsRepetitive(Window(events, i)) ==> PatternOf(Repetitive, Window(events, i)) in PatternsOf(events))
      && (IsEscalating(Window(events, i)) ==> PatternOf(Escalating, Window(events, i)) in PatternsOf(events))
  {
    PatternsListed(events, WindowCount(events));
    PatternsFound(events, WindowCount(events));
    var ps := PatternsUpTo(events, WindowCount(events));
    assert PatternsOf(events) == ps;
    forall i | 0 <= i < WindowCount(events)
      ensures (IsRepetitive(Window(events, i)) ==> PatternOf(Repetitive, Window(events, i)) in ps)
        && (IsEscalating(Window(events, i)) ==> PatternOf(Escalating, Window(events, i)) in ps)
    {
      assert Listed(events, i, ps);
    }
  }

  /** p is the pattern of the window starting at event i. */
  predicate PatternFrom(events: seq<VisEvent>, i: nat, p: Pattern)
    requires i + WindowSize <= |events|
  {
    var w := Window(events, i);
    && p == PatternOf(p.kind, w)
    && p.start == events[i].time && p.end == events[i + WindowSize - 1].time
    && (p.kind == Repetitive ==> IsRepetitive(w))
    && (p.kind == Escalating ==> IsEscalating(w))
  }

  lemma PatternsStep(events: seq<VisEvent>, i: nat)
    requires i < WindowCount(events)
    ensures PatternsUpTo(events, i + 1) == PatternsUpTo(events, i) + WindowPatterns(Window(events, i))
  {
  }

  /** The patterns of one window all come from it. */
  lemma WindowPatternsFrom(events: seq<VisEvent>, i: nat)
    requires i + WindowSize <= |events|
    ensures forall p :: p in WindowPatterns(Window(events, i)) ==> PatternFrom(events, i, p)
  {
    var w := Window(events, i);
    assert w[0] == events[i] && w[WindowSize - 1] == events[i + WindowSize - 1];
  }

  lemma {:induction false} PatternsListed(events: seq<VisEvent>, k: nat)
    requires k <= WindowCount(events)
    ensures forall p :: p in PatternsUpTo(events, k) ==> exists i :: 0 <= i < k && PatternFrom(events, i, p)
  {
    if k > 0 {
      PatternsListed(events, k - 1);
      var w := Window(events, k - 1);
      forall p | p in PatternsUpTo(events, k)
        ensures exists i :: 0 <= i < k && PatternFrom(events, i, p)
      {
        if p in PatternsUpTo(events, k - 1) {
          var i :| 0 <= i < k - 1 && PatternFrom(events, i, p);
        } else {
          WindowPatternsFrom(events, k - 1);
        }
      }
    }
  }

  lemma {:induction false} PatternsFound(events: seq<VisEvent>, k: nat)
    requires k <= WindowCount(events)
    ensures forall i :: 0 <= i < k ==> Listed(events, i, PatternsUpTo(events, k))
  {
    if k > 0 {
      PatternsFound(events, k - 1);
      var before := PatternsUpTo(events, k - 1);
      var w := Window(events, k - 1);
      assert PatternsUpTo(events, k) == before + WindowPatterns(w);
      forall i | 0 <= i < k
        ensures Listed(events, i, before + WindowPatterns(w))
      {
        if i < k - 1 {
          ListedGrows(events, i, before, WindowPatterns(w));
        } else {
          WindowFound(w);
        }
      }
    }
  }

  /** The pattern of window i, when it has one, is among ps. */
  predicate Listed(events: seq<VisEvent>, i: nat, ps: seq<Pattern>)
    requires i + WindowSize <= |events|
  {
    && (IsRepetitive(Window(events, i)) ==> PatternOf(Repetitive, Window(events, i)) in ps)
    && (IsEscalating(Window(events, i)) ==> PatternOf(Escalating, Window(events, i)) in ps)
  }

  lemma ListedGrows(events: seq<VisEvent>, i: nat, ps: seq<Pattern>, qs: seq<Pattern>)
    requires i + WindowSize <= |events| && Listed(events, i, ps)
    ensures Listed(events, i, ps + qs)
  {
  }

  /** A window's own patterns name it when it is repetitive or escalating. */
  lemma WindowFound(w: seq<VisEvent>)
    requires w != []
    ensures IsRepetitive(w) ==> PatternOf(Repetitive, w) in WindowPatterns(w)
    ensures IsEscalating(w) ==> PatternOf(Escalating, w) in WindowPatterns(w)
  {
    if IsRepetitive(w) {
      assert WindowPatterns(w)[0] == PatternOf(Repetitive, w);
    }
  }

  // ---------------------------------------------------------------------------
  // Timeline.
  // ---------------------------------------------------------------------------

  datatype TimelineEntry =
    | SeverityChange(time: int, fromSeverity: string, toSeverity: string)
    | EventEntry(time: int, eventType: string, severity: string, description: string)

  function EntryOf(e: VisEvent): TimelineEntry
  {
    EventEntry(e.time, e.eventType, SeverityOf(e), if e.description.Some? then e.description.value else "")
  }

  /** The severity in force after the events: that of the last one, or
      'INFO' before any. */
  function CurrentSeverity(events: seq<VisEvent>): string
  {
    if events == [] then "INFO" else SeverityOf(events[|events| - 1])
  }

  /** The change entry, if any, that an event adds after the events before
      it. */
  function ChangeOf(before: seq<VisEvent>, e: VisEvent): seq<TimelineEntry>
  {
    var current := CurrentSeverity(before);
    if SeverityOf(e) != current then [SeverityChange(e.time, current, SeverityOf(e))] else []
  }

  function TimelineOf(events: seq<VisEvent>): seq<TimelineEntry>
  {
    if events == [] then []
    else
      var before := events[..|events| - 1];
      var e := events[|events| - 1];
      TimelineOf(before) + ChangeOf(before, e) + [EntryOf(e)]
  }

  /** The number of events whose severity differs from the one in force
      before them. */
  function SeverityChanges(events: seq<VisEvent>): nat
  {
    if events == [] then 0
    else
      var before := events[..|events| - 1];
      SeverityChanges(before) + if SeverityOf(events[|events| - 1]) != CurrentSeverity(before) then 1 else 0
  }

  predicate IsEventEntry(t: TimelineEntry)
  {
    t.EventEntry?
  }

  lemma TimelineSnoc(events: seq<VisEvent>)
    requires events != []
    ensures TimelineOf(events)
         == TimelineOf(events[..|events| - 1]) + ChangeOf(events[..|events| - 1], events[|events| - 1]) + [EntryOf(events[|events| - 1])]
  {
  }

  /** The timeline after one more event. */
  lemma TimelineStep(events: seq<VisEvent>, i: nat)
    requires i < |events|
    ensures TimelineOf(events[..i + 1]) == TimelineOf(events[..i]) + ChangeOf(events[..i], events[i]) + [EntryOf(events[i])]
    ensures CurrentSeverity(events[..i + 1]) == SeverityOf(events[i])
  {
    assert events[..i + 1][..i] == events[..i];
  }

  /** The timeline holds every event in order, with one severity-change entry
      per change of severity and nothing else; each change entry goes from
      the severity in force to a different one. */
  lemma TimelineMeaning(events: seq<VisEvent>)
    ensures |TimelineOf(events)| == |events| + SeverityChanges(events)
    ensures Filter(TimelineOf(events), IsEventEntry) == MapSeq(events, EntryOf)
    ensures forall t :: t in TimelineOf(events) && t.SeverityChange? ==> t.fromSeverity != t.toSeverity
  {
    TimelineLength(events);
    TimelineEvents(events);
    TimelineChanges(events);
  }

  lemma {:induction false} TimelineLength(events: seq<VisEvent>)
    ensures |TimelineOf(events)| == |events| + SeverityChanges(events)
  {
    if events != [] {
      TimelineLength(events[..|events| - 1]);
      TimelineSnoc(events);
    }
  }

  lemma {:induction false} TimelineEvents(events: seq<VisEvent>)
    ensures Filter(TimelineOf(events), IsEventEntry) == MapSeq(events, EntryOf)
  {
    if events != [] {
      var before := events[..|events| - 1];
      var e := events[|events| - 1];
      var change := ChangeOf(before, e);
      TimelineEvents(before);
      TimelineSnoc(events);
      EventEntriesStep(TimelineOf(before), change, EntryOf(e));
      assert MapSeq(events, EntryOf) == MapSeq(before, EntryOf) + [EntryOf(e)];
    }
  }

  /** Change entries add nothing to the event entries. */
  lemma EventEntriesStep(prefix: seq<TimelineEntry>, change: seq<TimelineEntry>, entry: TimelineEntry)
    requires |change| <= 1 && (change != [] ==> change[0].SeverityChange?) && entry.EventEntry?
    ensures Filter(prefix + change + [entry], IsEventEntry) == Filter(prefix, IsEventEntry) + [entry]
  {
    FilterAppend(prefix + change, [entry], IsEventEntry);
    FilterAppend(prefix, change, IsEventEntry);
    FilterAtMostOne(change, IsEventEntry);
    FilterAtMostOne([entry], IsEventEntry);
    assert Filter(prefix, IsEventEntry) + [] == Filter(prefix, IsEventEntry);
  }

  lemma {:induction false} TimelineChanges(events: seq<VisEvent>)
    ensures forall t :: t in TimelineOf(events) && t.SeverityChange? ==> t.fromSeverity != t.toSeverity
  {
    if events != [] {
      TimelineChanges(events[..|events| - 1]);
      TimelineSnoc(events);
    }
  }

  // ---------------------------------------------------------------------------
  // The processor.
  // ---------------------------------------------------------------------------

  datatype ProcessResult = ProcessResult(statistics: EventStatistics, patterns: seq<Pattern>, timeline: seq<TimelineEntry>)

  function TypesOf(events: seq<VisEvent>): set<string>
  {
    set e | e in events :: e.eventType
  }

  /** The result of processing a list of events: everything is computed on
      the events stably sorted by time. */
  function ProcessOf(events: seq<VisEvent>): ProcessResult
  {
    var sorted := SortByKey(events, TimeOfEvent);
    ProcessResult(StatisticsOf(sorted), PatternsOf(sorted), TimelineOf(sorted))
  }

  class EventProcessor {
    /** Every event type seen by any call. */
    var eventTypes: set<string>

    constructor()
      ensures eventTypes == {}
    {
      eventTypes := {};
    }

    method ProcessEvents(events: seq<VisEvent>) returns (r: ProcessResult)
      modifies this
      ensures eventTypes == old(eventTypes) + TypesOf(events)
      ensures r == ProcessOf(events)
    {
      eventTypes := eventTypes + TypesOf(events);
      var sortedEvents := SortByKey(events, TimeOfEvent);
      var stats := CalculateStatistics(sortedEvents);
      var patterns := DetectPatterns(sortedEvents);
      var timeline := GenerateTimeline(sortedEvents);
      r := ProcessResult(stats, patterns, timeline);
    }

    method CalculateStatistics(events: seq<VisEvent>) returns (stats: EventStatistics)
      ensures stats == StatisticsOf(events)
    {
      var byType: map<string, int> := map[];
      var bySeverity: map<string, int> := map[];
      var byHour: map<int, int> := map[];
      var intervals: seq<int> := [];
      for i := 0 to |events|
        invariant StatisticsOf(events[..i]) == EventStatistics(i, byType, bySeverity, byHour, intervals)
      {
        var event := events[i];
        StatisticsStep(events, i);
        var eventType := event.eventType;
        byType := Bump(byType, eventType);
        var severity := if event.severity.Some? then event.severity.value else "INFO";
        bySeverity := Bump(bySeverity, severity);
        var hour := HourOf(event);
        byHour := Bump(byHour, hour);
        if i > 0 {
          intervals := intervals + [event.time - events[i - 1].time];
        }
      }
      assert events[..|events|] == events;
      stats := EventStatistics(|events|, byType, bySeverity, byHour, intervals);
    }

    method DetectPatterns(events: seq<VisEvent>) returns (patterns: seq<Pattern>)
      ensures patterns == PatternsOf(events)
    {
      patterns := [];
      for i := 0 to WindowCount(events)
        invariant patterns == PatternsUpTo(events, i)
      {
        var window := Window(events, i);
        PatternsStep(events, i);
        if IsRepetitive(window) {
          patterns := patterns + [PatternOf(Repetitive, window)];
        }
        if IsEscalating(window) {
          patterns := patterns + [PatternOf(Escalating, window)];
        }
      }
    }

    method GenerateTimeline(events: seq<VisEvent>) returns (timeline: seq<TimelineEntry>)
      ensures timeline == TimelineOf(events)
    {
      timeline := [];
      var currentSeverity := "INFO";
      for i := 0 to |events|
        invariant timeline == TimelineOf(events[..i])
        invariant currentSeverity == CurrentSeverity(events[..i])
      {
        var event := events[i];
        TimelineStep(events, i);
        var severity := SeverityOf(event);
        ghost var change := ChangeOf(events[..i], event);
        if severity != currentSeverity {
          timeline := timeline + [SeverityChange(event.time, currentSeverity, severity)];
          currentSeverity := severity;
        }
        assert timeline == TimelineOf(events[..i]) + change;
        timeline := timeline + [EntryOf(event)];
      }
      assert events[..|events|] == events;
    }
  }

  /** Processing sorts first: the statistics count every event, and every
      interval is at least 0. */
  lemma ProcessedIntervals(events: seq<VisEvent>)
    ensures var s := ProcessOf(events).statistics;
      && s.total == |events|
      && (forall i :: 0 <= i < |s.intervals| ==> s.intervals[i] >= 0)
  {
    var sorted := SortByKey(events, TimeOfEvent);
    SortSorted(events, TimeOfEvent);
    IntervalsMeaning(sorted);
  }
}
