/** The log record the RU file parser produces and every analyzer consumes,
    and the record types the analyzers tell apart. */
module Records {
  import opened Common

  /** One RU log record: its type code, the time in whole seconds, the
      position in centimetres, the speed in centimetres per second and the
      raw payload bytes. */
  datatype RURecord = RURecord(logType: int, timestamp: int, location: int, speed: int, data: seq<Byte>)

  /** ATP status change. */
  const AtpStatus := 2
  /** MMI (driver display) status change. */
  const MmiStatus := 3
  /** PRS (station announcement) event; its payload carries a station name. */
  const PrsEvent := 91
  /** The speed and distance at the moment the ATP shut down. */
  const AtpShutdown := 201
  /** The periodic speed and distance sample. */
  const SpeedSample := 211

  /** The record types treated as events. */
  predicate IsEventType(t: int)
  {
    t == AtpStatus || t == MmiStatus || t == PrsEvent || t == AtpShutdown
  }

  /** The record has the given type. */
  predicate HasType(r: RURecord, t: int)
  {
    r.logType == t
  }

  /** The records of one type, in their original order. */
  function OfType(records: seq<RURecord>, t: int): (r: seq<RURecord>)
    ensures |r| <= |records|
    ensures forall x :: x in r ==> x in records && x.logType == t
  {
    Filter(records, x => HasType(x, t))
  }

  /** The speed samples, in their original order. */
  function Samples(records: seq<RURecord>): (r: seq<RURecord>)
    ensures forall i :: 0 <= i < |r| ==> r[i].logType == SpeedSample
  {
    var r := OfType(records, SpeedSample);
    assert forall i :: 0 <= i < |r| ==> r[i] in r;
    r
  }
}
