/** The cross-system correlator: it lines up the RU (ATP recorder) log with
    the MMI log. Speed samples are matched to the nearest MMI sample in time,
    events are paired with the first related MMI event close in time, and the
    two logs' time coverage and recording gaps are compared. */
module CombinedAnalyzer {
  import opened Common
  import opened Stats
  import opened MmiRecords

  /** Samples and events further apart than this, in seconds, do not match. */
  const TimeTolerance: real := 1.0
  /** A matched speed difference beyond this, in km/h, is abnormal. */
  const SpeedTolerance: real := 2.0
  /** A recording interval longer than this, in seconds, is a gap. */
  const MaxInterval: real := 5.0

  /** `np.max` of an empty array and `min`/`max` of an empty list raise. */
  datatype Failure = ValueError

  // ---------------------------------------------------------------------------
  // Speed correlation.
  // ---------------------------------------------------------------------------

  /** A (time, speed) pair of either log. */
  datatype SpeedSample = SpeedSample(time: int, speed: real)

  datatype MatchedPoint = MatchedPoint(time: int, ruSpeed: real, mmiSpeed: real, difference: real)

  datatype SpeedCorrelation = SpeedCorrelation(
    avgDifference: real,
    maxDifference: real,
    matchCount: nat,
    abnormalPoints: seq<MatchedPoint>)

  /** How far, in seconds, a sample lies from a time. */
  function Offset(s: SpeedSample, t: int): nat
  {
    Abs(s.time - t)
  }

  predicate Near(s: SpeedSample, t: int)
  {
    Offset(s, t) as real <= TimeTolerance
  }

  /** `min(mmi, key=offset)`: the index of the first sample at the least
      offset. */
  function Closest(mmi: seq<SpeedSample>, t: int): (r: nat)
    requires mmi != []
    ensures r < |mmi|
  {
    if |mmi| == 1 then 0
    else
      var n := |mmi| - 1;
      var best := Closest(mmi[..n], t);
      if Offset(mmi[n], t) < Offset(mmi[best], t) then n else best
  }

  /** The closest sample is at the least offset, and every sample before it
      is strictly further away: ties go to the earliest. */
  lemma {:induction false} ClosestIsFirstLeast(mmi: seq<SpeedSample>, t: int)
    requires mmi != []
    ensures var r := Closest(mmi, t);
      && (forall j :: 0 <= j < |mmi| ==> Offset(mmi[r], t) <= Offset(mmi[j], t))
      && (forall j :: 0 <= j < r ==> Offset(mmi[j], t) > Offset(mmi[r], t))
  {
    if |mmi| > 1 {
      var n := |mmi| - 1;
      var p := mmi[..n];
      ClosestIsFirstLeast(p, t);
      assert forall j :: 0 <= j < n ==> p[j] == mmi[j];
    }
  }

  /** The matched point for one RU sample: its closest MMI sample, when that
      is within the time tolerance. */
  function MatchOf(mmi: seq<SpeedSample>, s: SpeedSample): Option<MatchedPoint>
  {
    if mmi == [] then None
    else
      var c := mmi[Closest(mmi, s.time)];
      if Near(c, s.time) then Some(MatchedPoint(s.time, s.speed, c.speed, c.speed - s.speed)) else None
  }

  function HasMatch(mmi: seq<SpeedSample>): SpeedSample -> bool
  {
    (s: SpeedSample) => MatchOf(mmi, s).Some?
  }

  /** The matched points of the RU samples, in RU order. */
  function Matches(ru: seq<SpeedSample>, mmi: seq<SpeedSample>): seq<MatchedPoint>
  {
    if ru == [] then []
    else
      var m := MatchOf(mmi, ru[|ru| - 1]);
      Matches(ru[..|ru| - 1], mmi) + if m.Some? then [m.value] else []
  }

  function DifferenceOf(p: MatchedPoint): real
  {
    p.difference
  }

  predicate IsAbnormal(p: MatchedPoint)
  {
    AbsReal(p.difference) > SpeedTolerance
  }

  /** The speed correlation: no matched point makes `np.max` of the empty
      list of differences raise. */
  function SpeedCorrelationOf(ru: seq<SpeedSample>, mmi: seq<SpeedSample>): Result<SpeedCorrelation, Failure>
  {
    var points := Matches(ru, mmi);
    if points == [] then Err(ValueError)
    else
      var d := MapSeq(points, DifferenceOf);
      Ok(SpeedCorrelation(Mean(d), Max(MapSeq(d, AbsReal)), |points|, Filter(points, IsAbnormal)))
  }

  method AnalyzeSpeedCorrelation(ruSpeeds: seq<SpeedSample>, mmiSpeeds: seq<SpeedSample>)
    returns (r: Result<SpeedCorrelation, Failure>)
    ensures r == SpeedCorrelationOf(ruSpeeds, mmiSpeeds)
  {
    var differences: seq<real> := [];
    var matchedPoints: seq<MatchedPoint> := [];
    for i := 0 to |ruSpeeds|
      invariant matchedPoints == Matches(ruSpeeds[..i], mmiSpeeds)
      invariant differences == MapSeq(matchedPoints, DifferenceOf)
    {
      var sample := ruSpeeds[i];
      assert ruSpeeds[..i + 1][..i] == ruSpeeds[..i];
      if mmiSpeeds != [] {
        var closest := mmiSpeeds[Closest(mmiSpeeds, sample.time)];
        var timeDiff := closest.time - sample.time;
        if Abs(timeDiff) as real <= TimeTolerance {
          var speedDiff := closest.speed - sample.speed;
          var point := MatchedPoint(sample.time, sample.speed, closest.speed, speedDiff);
          assert (matchedPoints + [point])[..|matchedPoints|] == matchedPoints;
          differences := differences + [speedDiff];
          matchedPoints := matchedPoints + [point];
        }
      }
    }
    assert ruSpeeds[..|ruSpeeds|] == ruSpeeds;
    if differences == [] {
      return Err(ValueError);
    }
    r := Ok(SpeedCorrelation(Mean(differences), Max(MapSeq(differences, AbsReal)), |matchedPoints|,
                             Filter(matchedPoints, IsAbnormal)));
  }

  /** An RU sample is matched exactly when some MMI sample lies within the
      tolerance; the match is then the first MMI sample at the least offset,
      and its difference is the MMI speed less the RU speed. */
  lemma MatchOfMeaning(mmi: seq<SpeedSample>, s: SpeedSample)
    ensures MatchOf(mmi, s).Some? <==> exists j :: 0 <= j < |mmi| && Near(mmi[j], s.time)
    ensures MatchOf(mmi, s).Some? ==>
      var p := MatchOf(mmi, s).value;
      && p.time == s.time && p.ruSpeed == s.speed && p.difference == p.mmiSpeed - p.ruSpeed
      && (exists j :: 0 <= j < |mmi| && Near(mmi[j], s.time) && p.mmiSpeed == mmi[j].speed
            && (forall k :: 0 <= k < |mmi| ==> Offset(mmi[j], s.time) <= Offset(mmi[k], s.time))
            && (forall k :: 0 <= k < j ==> Offset(mmi[k], s.time) > Offset(mmi[j], s.time)))
  {
    if mmi != [] {
      ClosestIsFirstLeast(mmi, s.time);
      var c := Closest(mmi, s.time);
      if exists j :: 0 <= j < |mmi| && Near(mmi[j], s.time) {
        var j :| 0 <= j < |mmi| && Near(mmi[j], s.time);
        assert Offset(mmi[c], s.time) <= Offset(mmi[j], s.time);
      }
    }
  }

  /** There is one matched point per matched RU sample, in RU order, so at
      most one per RU sample. */
  lemma MatchesMeaning(ru: seq<SpeedSample>, mmi: seq<SpeedSample>)
    ensures |Matches(ru, mmi)| == Count(ru, HasMatch(mmi)) <= |ru|
    ensures forall p :: p in Matches(ru, mmi) <==> exists i :: 0 <= i < |ru| && MatchOf(mmi, ru[i]) == Some(p)
    ensures Matches(ru, mmi) == [] <==> forall i :: 0 <= i < |ru| ==> MatchOf(mmi, ru[i]).None?
  {
    MatchesCount(ru, mmi);
    MatchesMembers(ru, mmi);
  }

  lemma {:induction false} MatchesCount(ru: seq<SpeedSample>, mmi: seq<SpeedSample>)
    ensures |Matches(ru, mmi)| == Count(ru, HasMatch(mmi))
  {
    if ru != [] {
      MatchesCount(ru[..|ru| - 1], mmi);
    }
  }

  lemma MatchesMembers(ru: seq<SpeedSample>, mmi: seq<SpeedSample>)
    ensures forall x :: x in Matches(ru, mmi) <==> exists i :: 0 <= i < |ru| && MatchOf(mmi, ru[i]) == Some(x)
  {
    MatchesListed(ru, mmi);
    MatchesFound(ru, mmi);
  }

  lemma {:induction false} MatchesListed(ru: seq<SpeedSample>, mmi: seq<SpeedSample>)
    ensures forall x :: x in Matches(ru, mmi) ==> exists i :: 0 <= i < |ru| && MatchOf(mmi, ru[i]) == Some(x)
  {
    if ru != [] {
      var n := |ru| - 1;
      var q := ru[..n];
      var m := MatchOf(mmi, ru[n]);
      MatchesListed(q, mmi);
      assert Matches(ru, mmi) == Matches(q, mmi) + if m.Some? then [m.value] else [];
      forall x | x in Matches(ru, mmi)
        ensures exists i :: 0 <= i < |ru| && MatchOf(mmi, ru[i]) == Some(x)
      {
        if x in Matches(q, mmi) {
          var i :| 0 <= i < |q| && MatchOf(mmi, q[i]) == Some(x);
          assert q[i] == ru[i];
        } else {
          assert MatchOf(mmi, ru[n]) == Some(x);
        }
      }
    }
  }

  lemma {:induction false} MatchesFound(ru: seq<SpeedSample>, mmi: seq<SpeedSample>)
    ensures forall i :: 0 <= i < |ru| && MatchOf(mmi, ru[i]).Some? ==> MatchOf(mmi, ru[i]).value in Matches(ru, mmi)
  {
    if ru != [] {
      var n := |ru| - 1;
      var q := ru[..n];
      var m := MatchOf(mmi, ru[n]);
      MatchesFound(q, mmi);
      assert Matches(ru, mmi) == Matches(q, mmi) + if m.Some? then [m.value] else [];
      forall i | 0 <= i < n && MatchOf(mmi, ru[i]).Some?
        ensures MatchOf(mmi, ru[i]).value in Matches(ru, mmi)
      {
        assert q[i] == ru[i];
      }
    }
  }


  /** The correlation fails exactly when no RU sample has an MMI sample
      within the tolerance. Otherwise it counts the matched samples, keeps
      exactly the matched points whose difference exceeds the speed
      tolerance, and its mean difference lies within the largest absolute
      difference of either sign. */
  lemma SpeedCorrelationMeaning(ru: seq<SpeedSample>, mmi: seq<SpeedSample>)
    ensures SpeedCorrelationOf(ru, mmi).Err? <==>
      forall i :: 0 <= i < |ru| ==> forall j :: 0 <= j < |mmi| ==> !Near(mmi[j], ru[i].time)
    ensures SpeedCorrelationOf(ru, mmi).Err? ==> SpeedCorrelationOf(ru, mmi).error == ValueError
    ensures SpeedCorrelationOf(ru, mmi).Ok? ==>
      var c := SpeedCorrelationOf(ru, mmi).value;
      && c.matchCount == Count(ru, HasMatch(mmi)) && 0 < c.matchCount <= |ru|
      && (forall p :: p in c.abnormalPoints <==> p in Matches(ru, mmi) && AbsReal(p.difference) > SpeedTolerance)
      && -c.maxDifference <= c.avgDifference <= c.maxDifference
  {
    MatchesMeaning(ru, mmi);
    forall i | 0 <= i < |ru| {
      MatchOfMeaning(mmi, ru[i]);
    }
    var points := Matches(ru, mmi);
    if points != [] {
      var d := MapSeq(points, DifferenceOf);
      var a := MapSeq(d, AbsReal);
      var top := Max(a);
      forall p | p in points && IsAbnormal(p) {
        FilterKeeps(points, IsAbnormal, p);
      }
      forall i | 0 <= i < |d|
        ensures -top <= d[i] <= top
      {
        assert a[i] == AbsReal(d[i]) <= top;
      }
      MeanBounds(d);
      var lo := Min(d);
      var hi := Max(d);
      assert -top <= lo && hi <= top by {
        var j :| 0 <= j < |d| && d[j] == lo;
        var k :| 0 <= k < |d| && d[k] == hi;
      }
    }
  }

  // ---------------------------------------------------------------------------
  // Event correlation.
  // ---------------------------------------------------------------------------

  /** An RU event as the correlator reads it: its time and its `type`, which
      may be missing. */
  datatype RuEvent = RuEvent(time: int, eventType: Option<int>)

  /** An MMI event: its time and its `event_type`, which may be missing. */
  datatype MmiEvent = MmiEvent(time: int, eventType: Option<MmiEventType>)

  datatype Correlation = Correlation(time: int, ruEvent: RuEvent, mmiEvent: MmiEvent, timeDiff: int)

  datatype EventCorrelation = EventCorrelation(
    correlatedEvents: seq<Correlation>,
    unpairedRuEvents: seq<RuEvent>,
    unpairedMmiEvents: seq<MmiEvent>,
    correlationRate: real)

  /** RU event types and the MMI event types they correspond to. */
  const RelatedEvents: map<int, seq<MmiEventType>> :=
    map[2 := [EventError], 3 := [EventModeChange], 91 := [EventUserAction]]

  /** The correspondence of event types: an ATP status change goes with an
      MMI error, an MMI status change with a mode change, and a PRS event
      with a user action; nothing else is related. */
  function AreEventsRelated(ru: RuEvent, mmi: MmiEvent): (b: bool)
    ensures b <==>
      || (ru.eventType == Some(2) && mmi.eventType == Some(EventError))
      || (ru.eventType == Some(3) && mmi.eventType == Some(EventModeChange))
      || (ru.eventType == Some(91) && mmi.eventType == Some(EventUserAction))
  {
    ru.eventType.Some? && ru.eventType.value in RelatedEvents
    && mmi.eventType.Some? && mmi.eventType.value in RelatedEvents[ru.eventType.value]
  }

  /** An MMI event that can pair with an RU event. */
  predicate Compatible(mmi: MmiEvent, ru: RuEvent)
  {
    Abs(mmi.time - ru.time) as real <= TimeTolerance && AreEventsRelated(ru, mmi)
  }

  /** The index of the first MMI event that can pair with `e`. */
  function FirstPartner(e: RuEvent, mmi: seq<MmiEvent>): (r: Option<nat>)
    ensures r.Some? ==> r.value < |mmi|
  {
    if mmi == [] then None
    else
      var n := |mmi| - 1;
      var before := FirstPartner(e, mmi[..n]);
      if before.Some? then before
      else if Compatible(mmi[n], e) then Some(n)
      else None
  }

  lemma {:induction false} FirstPartnerMeaning(e: RuEvent, mmi: seq<MmiEvent>)
    ensures FirstPartner(e, mmi).None? <==> forall j :: 0 <= j < |mmi| ==> !Compatible(mmi[j], e)
    ensures FirstPartner(e, mmi).Some? ==>
      var j := FirstPartner(e, mmi).value;
      Compatible(mmi[j], e) && forall k :: 0 <= k < j ==> !Compatible(mmi[k], e)
  {
    if mmi != [] {
      var n := |mmi| - 1;
      var p := mmi[..n];
      FirstPartnerMeaning(e, p);
      assert forall j :: 0 <= j < n ==> p[j] == mmi[j];
    }
  }

  function CorrelationOf(e: RuEvent, m: MmiEvent): Correlation
  {
    Correlation(e.time, e, m, m.time - e.time)
  }

  function Unpaired(mmi: seq<MmiEvent>): RuEvent -> bool
  {
    (e: RuEvent) => FirstPartner(e, mmi).None?
  }

  /** The correlations of the RU events that have a partner, in RU order. */
  function Correlated(ru: seq<RuEvent>, mmi: seq<MmiEvent>): seq<Correlation>
  {
    if ru == [] then []
    else
      var c := PartnerCorrelation(ru[|ru| - 1], mmi);
      Correlated(ru[..|ru| - 1], mmi) + if c.Some? then [c.value] else []
  }

  /** The correlation of an RU event with its first partner, if it has one. */
  function PartnerCorrelation(e: RuEvent, mmi: seq<MmiEvent>): Option<Correlation>
  {
    var j := FirstPartner(e, mmi);
    if j.Some? then Some(CorrelationOf(e, mmi[j.value])) else None
  }

  function PairedTimes(c: seq<Correlation>): set<int>
  {
    set x | x in c :: x.mmiEvent.time
  }

  function Outside(times: set<int>): MmiEvent -> bool
  {
    (e: MmiEvent) => e.time !in times
  }

  /** `correlated / total`, or 0 with no RU events. */
  function Rate(correlated: nat, total: nat): real
  {
    if total == 0 then 0.0 else correlated as real / total as real
  }

  function EventCorrelationOf(ru: seq<RuEvent>, mmi: seq<MmiEvent>): EventCorrelation
  {
    var c := Correlated(ru, mmi);
    EventCorrelation(c, Filter(ru, Unpaired(mmi)), Filter(mmi, Outside(PairedTimes(c))), Rate(|c|, |ru|))
  }

  method AnalyzeEventCorrelation(ruEvents: seq<RuEvent>, mmiEvents: seq<MmiEvent>) returns (r: EventCorrelation)
    ensures r == EventCorrelationOf(ruEvents, mmiEvents)
  {
    var correlatedEvents: seq<Correlation> := [];
    var unpairedRuEvents: seq<RuEvent> := [];
    for i := 0 to |ruEvents|
      invariant correlatedEvents == Correlated(ruEvents[..i], mmiEvents)
      invariant unpairedRuEvents == Filter(ruEvents[..i], Unpaired(mmiEvents))
    {
      var ruEvent := ruEvents[i];
      assert ruEvents[..i + 1][..i] == ruEvents[..i];
      var correlation := PairEvent(ruEvent, mmiEvents);
      if correlation.Some? {
        correlatedEvents := correlatedEvents + [correlation.value];
      } else {
        unpairedRuEvents := unpairedRuEvents + [ruEvent];
      }
    }
    assert ruEvents[..|ruEvents|] == ruEvents;
    var pairedTimes := set e | e in correlatedEvents :: e.mmiEvent.time;
    var unpairedMmiEvents := Filter(mmiEvents, Outside(pairedTimes));
    var rate := if |ruEvents| > 0 then |correlatedEvents| as real / |ruEvents| as real else 0.0;
    r := EventCorrelation(correlatedEvents, unpairedRuEvents, unpairedMmiEvents, rate);
  }

  /** The inner loop for one RU event: the scan of the MMI events that stops
      at the first compatible one. */
  method PairEvent(ruEvent: RuEvent, mmiEvents: seq<MmiEvent>) returns (r: Option<Correlation>)
    ensures r == PartnerCorrelation(ruEvent, mmiEvents)
  {
    FirstPartnerMeaning(ruEvent, mmiEvents);
    for j := 0 to |mmiEvents|
      invariant forall k :: 0 <= k < j ==> !Compatible(mmiEvents[k], ruEvent)
    {
      var mmiEvent := mmiEvents[j];
      var timeDiff := mmiEvent.time - ruEvent.time;
      if Abs(timeDiff) as real <= TimeTolerance {
        if AreEventsRelated(ruEvent, mmiEvent) {
          assert FirstPartner(ruEvent, mmiEvents) == Some(j);
          return Some(Correlation(ruEvent.time, ruEvent, mmiEvent, timeDiff));
        }
      }
    }
    return None;
  }

  /** Every RU event is either correlated or unpaired, never both. */
  lemma {:induction false} EventPartition(ru: seq<RuEvent>, mmi: seq<MmiEvent>)
    ensures |Correlated(ru, mmi)| + |Filter(ru, Unpaired(mmi))| == |ru|
  {
    if ru != [] {
      EventPartition(ru[..|ru| - 1], mmi);
    }
  }

  /** A correlation is made for each RU event with a partner, and it holds
      that event, its first compatible MMI event and the MMI time less the
      RU time; an RU event is unpaired exactly when no MMI event is
      compatible with it. */
  lemma CorrelatedMeaning(ru: seq<RuEvent>, mmi: seq<MmiEvent>)
    ensures forall c :: c in Correlated(ru, mmi) <==>
      exists i, j :: 0 <= i < |ru| && 0 <= j < |mmi| && c == CorrelationOf(ru[i], mmi[j])
        && Compatible(mmi[j], ru[i]) && forall k :: 0 <= k < j ==> !Compatible(mmi[k], ru[i])
    ensures forall e :: e in Filter(ru, Unpaired(mmi)) <==>
      e in ru && forall j :: 0 <= j < |mmi| ==> !Compatible(mmi[j], e)
  {
    CorrelatedMembers(ru, mmi);
    forall i | 0 <= i < |ru| {
      FirstPartnerMeaning(ru[i], mmi);
    }
    forall c | (exists i, j :: 0 <= i < |ru| && 0 <= j < |mmi| && c == CorrelationOf(ru[i], mmi[j])
                  && Compatible(mmi[j], ru[i]) && forall k :: 0 <= k < j ==> !Compatible(mmi[k], ru[i]))
      ensures c in Correlated(ru, mmi)
    {
      var i, j :| 0 <= i < |ru| && 0 <= j < |mmi| && c == CorrelationOf(ru[i], mmi[j])
        && Compatible(mmi[j], ru[i]) && forall k :: 0 <= k < j ==> !Compatible(mmi[k], ru[i]);
      var f := FirstPartner(ru[i], mmi).value;
      assert f == j by {
        assert !(f < j) && !(j < f);
      }
      assert PartnerCorrelation(ru[i], mmi) == Some(c);
    }
    forall e | e in ru && (forall j :: 0 <= j < |mmi| ==> !Compatible(mmi[j], e))
      ensures e in Filter(ru, Unpaired(mmi))
    {
      FirstPartnerMeaning(e, mmi);
      FilterKeeps(ru, Unpaired(mmi), e);
    }
    forall e | e in Filter(ru, Unpaired(mmi))
      ensures forall j :: 0 <= j < |mmi| ==> !Compatible(mmi[j], e)
    {
      FirstPartnerMeaning(e, mmi);
    }
  }

  lemma CorrelatedMembers(ru: seq<RuEvent>, mmi: seq<MmiEvent>)
    ensures forall x :: x in Correlated(ru, mmi) <==> exists i :: 0 <= i < |ru| && PartnerCorrelation(ru[i], mmi) == Some(x)
  {
    CorrelatedListed(ru, mmi);
    CorrelatedFound(ru, mmi);
  }

  lemma {:induction false} CorrelatedListed(ru: seq<RuEvent>, mmi: seq<MmiEvent>)
    ensures forall x :: x in Correlated(ru, mmi) ==> exists i :: 0 <= i < |ru| && PartnerCorrelation(ru[i], mmi) == Some(x)
  {
    if ru != [] {
      var n := |ru| - 1;
      var q := ru[..n];
      var m := PartnerCorrelation(ru[n], mmi);
      CorrelatedListed(q, mmi);
      assert Correlated(ru, mmi) == Correlated(q, mmi) + if m.Some? then [m.value] else [];
      forall x | x in Correlated(ru, mmi)
        ensures exists i :: 0 <= i < |ru| && PartnerCorrelation(ru[i], mmi) == Some(x)
      {
        if x in Correlated(q, mmi) {
          var i :| 0 <= i < |q| && PartnerCorrelation(q[i], mmi) == Some(x);
          assert q[i] == ru[i];
        } else {
          assert PartnerCorrelation(ru[n], mmi) == Some(x);
        }
      }
    }
  }

  lemma {:induction false} CorrelatedFound(ru: seq<RuEvent>, mmi: seq<MmiEvent>)
    ensures forall i :: 0 <= i < |ru| && PartnerCorrelation(ru[i], mmi).Some? ==> PartnerCorrelation(ru[i], mmi).value in Correlated(ru, mmi)
  {
    if ru != [] {
      var n := |ru| - 1;
      var q := ru[..n];
      var m := PartnerCorrelation(ru[n], mmi);
      CorrelatedFound(q, mmi);
      assert Correlated(ru, mmi) == Correlated(q, mmi) + if m.Some? then [m.value] else [];
      forall i | 0 <= i < n && PartnerCorrelation(ru[i], mmi).Some?
        ensures PartnerCorrelation(ru[i], mmi).value in Correlated(ru, mmi)
      {
        assert q[i] == ru[i];
      }
    }
  }


  /** An MMI event is unpaired exactly when no correlation's MMI event has
      its time, so the partner of any correlation is never unpaired. */
  lemma UnpairedMmiMeaning(ru: seq<RuEvent>, mmi: seq<MmiEvent>)
    ensures var r := EventCorrelationOf(ru, mmi);
      forall e :: e in r.unpairedMmiEvents <==>
        e in mmi && forall c :: c in r.correlatedEvents ==> c.mmiEvent.time != e.time
  {
    var c := Correlated(ru, mmi);
    var times := PairedTimes(c);
    forall e | e in mmi && forall x :: x in c ==> x.mmiEvent.time != e.time
      ensures e in Filter(mmi, Outside(times))
    {
      FilterKeeps(mmi, Outside(times), e);
    }
  }

  /** The correlation rate is a fraction: 0 with no RU events, and 1 exactly
      when every RU event is correlated. */
  lemma RateMeaning(ru: seq<RuEvent>, mmi: seq<MmiEvent>)
    ensures var r := EventCorrelationOf(ru, mmi);
      && 0.0 <= r.correlationRate <= 1.0
      && (ru == [] ==> r.correlationRate == 0.0)
      && (r.correlationRate == 1.0 <==> ru != [] && r.unpairedRuEvents == [])
  {
    EventPartition(ru, mmi);
    if ru != [] {
      FractionBounds(|Correlated(ru, mmi)|, |ru|);
    }
  }

  lemma FractionBounds(c: nat, t: nat)
    requires 0 < t && c <= t
    ensures 0.0 <= Rate(c, t) <= 1.0
    ensures Rate(c, t) == 1.0 <==> c == t
  {
    var q := c as real / t as real;
    assert q * t as real == c as real;
  }

  /** One MMI error can pair with two ATP status changes a second apart. */
  lemma SharedPartner()
    ensures var r := EventCorrelationOf([RuEvent(10, Some(2)), RuEvent(11, Some(2))], [MmiEvent(10, Some(EventError))]);
      && |r.correlatedEvents| == 2
      && r.correlatedEvents[0].mmiEvent == r.correlatedEvents[1].mmiEvent
      && r.unpairedMmiEvents == [] && r.correlationRate == 1.0
  {
    var ru := [RuEvent(10, Some(2)), RuEvent(11, Some(2))];
    var mmi := [MmiEvent(10, Some(EventError))];
    assert mmi[..0] == [];
    assert FirstPartner(ru[0], mmi) == Some(0);
    assert FirstPartner(ru[1], mmi) == Some(0);
    var first := ru[..1];
    assert first == [ru[0]] && first[..0] == [];
    assert Correlated(first, mmi) == [CorrelationOf(ru[0], mmi[0])];
    var c := Correlated(ru, mmi);
    assert c == Correlated(first, mmi) + [CorrelationOf(ru[1], mmi[0])];
    assert PairedTimes(c) == {10};
    FilterAtMostOne(mmi, Outside({10}));
  }

  // ---------------------------------------------------------------------------
  // Recording gaps and coverage.
  // ---------------------------------------------------------------------------

  datatype Gap = Gap(start: int, end: int, duration: int)

  /** Each adjacent pair of timestamps with the interval between them. */
  function Intervals(ts: seq<int>): (r: seq<Gap>)
    ensures |r| == if |ts| < 2 then 0 else |ts| - 1
  {
    if |ts| < 2 then [] else seq(|ts| - 1, i requires 0 <= i < |ts| - 1 => Gap(ts[i], ts[i + 1], ts[i + 1] - ts[i]))
  }

  predicate IsGap(g: Gap)
  {
    g.duration as real > MaxInterval
  }

  function Gaps(ts: seq<int>): seq<Gap>
  {
    Filter(Intervals(ts), IsGap)
  }

  method FindTimeGaps(timestamps: seq<int>) returns (gaps: seq<Gap>)
    ensures gaps == Gaps(timestamps)
  {
    gaps := [];
    var pairs := if |timestamps| < 2 then 0 else |timestamps| - 1;
    ghost var all := Intervals(timestamps);
    for i := 0 to pairs
      invariant gaps == Filter(all[..i], IsGap)
    {
      var t1, t2 := timestamps[i], timestamps[i + 1];
      var interval := t2 - t1;
      assert all[i] == Gap(t1, t2, interval);
      FilterPrefixStep(all, i + 1, IsGap);
      if interval as real > MaxInterval {
        gaps := gaps + [Gap(t1, t2, interval)];
      }
    }
    assert all[..pairs] == all;
  }

  /** A gap is an adjacent pair of timestamps more than five seconds apart,
      with the later time less the earlier as its duration, and every such
      pair is a gap. */
  lemma GapsMeaning(ts: seq<int>)
    ensures forall g :: g in Gaps(ts) <==>
      exists i :: 0 < i < |ts| && g == Gap(ts[i - 1], ts[i], ts[i] - ts[i - 1]) && ts[i] - ts[i - 1] > 5
    ensures |Gaps(ts)| <= if |ts| < 2 then 0 else |ts| - 1
  {
    GapsFound(ts);
    GapsListed(ts);
  }

  lemma GapsFound(ts: seq<int>)
    ensures forall i :: 0 < i < |ts| && ts[i] - ts[i - 1] > 5 ==> Gap(ts[i - 1], ts[i], ts[i] - ts[i - 1]) in Gaps(ts)
  {
    var all := Intervals(ts);
    forall i | 0 < i < |ts| && ts[i] - ts[i - 1] > 5
      ensures Gap(ts[i - 1], ts[i], ts[i] - ts[i - 1]) in Gaps(ts)
    {
      assert all[i - 1] == Gap(ts[i - 1], ts[i], ts[i] - ts[i - 1]);
      FilterKeeps(all, IsGap, all[i - 1]);
    }
  }

  lemma GapsListed(ts: seq<int>)
    ensures forall g :: g in Gaps(ts) ==>
      exists i :: 0 < i < |ts| && g == Gap(ts[i - 1], ts[i], ts[i] - ts[i - 1]) && ts[i] - ts[i - 1] > 5
  {
    var all := Intervals(ts);
    forall g | g in Gaps(ts)
      ensures exists i :: 0 < i < |ts| && g == Gap(ts[i - 1], ts[i], ts[i] - ts[i - 1]) && ts[i] - ts[i - 1] > 5
    {
      assert g in all && IsGap(g);
      var k :| 0 <= k < |all| && all[k] == g;
      var i := k + 1;
      assert 0 < i < |ts| && g == Gap(ts[i - 1], ts[i], ts[i] - ts[i - 1]);
    }
  }

  /** The seconds the gaps of a log last together. */
  function GapTime(ts: seq<int>): int
  {
    SumInt(MapSeq(Gaps(ts), DurationOf))
  }

  /** In time order, the gaps together last no longer than the whole log. */
  lemma {:induction false} GapsWithinSpan(ts: seq<int>)
    requires |ts| >= 2 && NonDecreasing(ts)
    ensures GapTime(ts) <= ts[|ts| - 1] - ts[0]
  {
    var n := |ts| - 1;
    var p := ts[..n];
    GapTimeSnoc(ts);
    NonDecreasingPrefix(ts);
    assert p[|p| - 1] == ts[n - 1] && p[0] == ts[0] && ts[n - 1] <= ts[n];
    if |p| >= 2 {
      GapsWithinSpan(p);
    } else {
      assert Gaps(p) == [];
    }
  }

  lemma NonDecreasingPrefix(ts: seq<int>)
    requires ts != [] && NonDecreasing(ts)
    ensures NonDecreasing(ts[..|ts| - 1])
  {
    var p := ts[..|ts| - 1];
    forall i | 0 < i < |p|
      ensures p[i - 1] <= p[i]
    {
      assert p[i - 1] == ts[i - 1] && p[i] == ts[i];
    }
  }

  /** One more timestamp adds the interval before it when that is a gap. */
  lemma GapTimeSnoc(ts: seq<int>)
    requires |ts| >= 2
    ensures var n := |ts| - 1;
      GapTime(ts) == GapTime(ts[..n]) + if ts[n] - ts[n - 1] > 5 then ts[n] - ts[n - 1] else 0
  {
    var n := |ts| - 1;
    var p := ts[..n];
    var g := Gap(ts[n - 1], ts[n], ts[n] - ts[n - 1]);
    var last := Filter([g], IsGap);
    IntervalsSnoc(ts);
    FilterAppend(Intervals(p), [g], IsGap);
    FilterAtMostOne([g], IsGap);
    DurationsSnoc(Gaps(p), last);
  }

  lemma IntervalsSnoc(ts: seq<int>)
    requires |ts| >= 2
    ensures var n := |ts| - 1;
      Intervals(ts) == Intervals(ts[..n]) + [Gap(ts[n - 1], ts[n], ts[n] - ts[n - 1])]
  {
    var n := |ts| - 1;
    var p := ts[..n];
    var a, b := Intervals(ts), Intervals(p) + [Gap(ts[n - 1], ts[n], ts[n] - ts[n - 1])];
    assert |a| == |b|;
    forall i | 0 <= i < |a|
      ensures a[i] == b[i]
    {
      if i < n - 1 {
        assert p[i] == ts[i] && p[i + 1] == ts[i + 1];
      }
    }
  }

  function DurationOf(g: Gap): int
  {
    g.duration
  }

  lemma DurationsSnoc(a: seq<Gap>, b: seq<Gap>)
    requires |b| <= 1
    ensures SumInt(MapSeq(a + b, DurationOf)) == SumInt(MapSeq(a, DurationOf)) + if b == [] then 0 else b[0].duration
  {
    if b == [] {
      assert a + b == a;
    } else {
      var m := MapSeq(a + b, DurationOf);
      assert m[..|m| - 1] == MapSeq(a, DurationOf);
    }
  }

  datatype TimeCoverage = TimeCoverage(
    ruStart: int, ruEnd: int,
    mmiStart: int, mmiEnd: int,
    overlapStart: int, overlapEnd: int)

  /** The consistency report. The source never builds a state
      inconsistency, so their shape is unknown and the list is always
      empty. */
  datatype Consistency = Consistency(
    timeCoverage: TimeCoverage,
    ruGaps: seq<Gap>,
    mmiGaps: seq<Gap>,
    stateInconsistencies: seq<()>)

  function CoverageOf(ruTimes: seq<int>, mmiTimes: seq<int>): TimeCoverage
    requires ruTimes != [] && mmiTimes != []
  {
    var rs, re := MinInt(ruTimes), MaxInt(ruTimes);
    var ms, me := MinInt(mmiTimes), MaxInt(mmiTimes);
    TimeCoverage(rs, re, ms, me, if rs > ms then rs else ms, if re < me then re else me)
  }

  function ConsistencyOf(ruTimes: seq<int>, mmiTimes: seq<int>): Result<Consistency, Failure>
  {
    if ruTimes == [] || mmiTimes == [] then Err(ValueError)
    else Ok(Consistency(CoverageOf(ruTimes, mmiTimes), Gaps(ruTimes), Gaps(mmiTimes), []))
  }

  method AnalyzeSystemConsistency(ruTimes: seq<int>, mmiTimes: seq<int>) returns (r: Result<Consistency, Failure>)
    ensures r == ConsistencyOf(ruTimes, mmiTimes)
  {
    if ruTimes == [] || mmiTimes == [] {
      return Err(ValueError);
    }
    var coverage := CoverageOf(ruTimes, mmiTimes);
    var ruGaps := FindTimeGaps(ruTimes);
    var mmiGaps := FindTimeGaps(mmiTimes);
    r := Ok(Consistency(coverage, ruGaps, mmiGaps, []));
  }

  /** The report fails exactly when a log is empty. Each log's range runs
      from its earliest to its latest time, and the overlap window starts at
      the later start and ends at the earlier end; it is non-empty exactly
      when each log starts no later than the other ends, and then every
      time inside it lies inside both ranges. */
  lemma CoverageMeaning(ruTimes: seq<int>, mmiTimes: seq<int>)
    ensures ConsistencyOf(ruTimes, mmiTimes).Err? <==> ruTimes == [] || mmiTimes == []
    ensures ConsistencyOf(ruTimes, mmiTimes).Ok? ==>
      var c := ConsistencyOf(ruTimes, mmiTimes).value;
      var v := c.timeCoverage;
      && v.ruStart in ruTimes && v.ruEnd in ruTimes && v.mmiStart in mmiTimes && v.mmiEnd in mmiTimes
      && (forall i :: 0 <= i < |ruTimes| ==> v.ruStart <= ruTimes[i] <= v.ruEnd)
      && (forall i :: 0 <= i < |mmiTimes| ==> v.mmiStart <= mmiTimes[i] <= v.mmiEnd)
      && v.ruStart <= v.overlapStart && v.mmiStart <= v.overlapStart
      && v.overlapEnd <= v.ruEnd && v.overlapEnd <= v.mmiEnd
      && (v.overlapStart <= v.overlapEnd <==> v.ruStart <= v.mmiEnd && v.mmiStart <= v.ruEnd)
      && c.stateInconsistencies == []
  {
  }
}
