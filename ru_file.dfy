/** The RU log file parser: a fixed-width header followed by records, which
    the parser appends to its record list in the order the record decoder
    yields them. */
module RuFile {
  import opened Common
  import opened Records

  /** The header fields: work shift, train number, driver and vehicle
      identifiers, and the six raw bytes of the recording time. */
  datatype RUHeader = RUHeader(workShift: string, trainNo: string, driverId: string, vehicleId: string, time: seq<Byte>)

  /** The fixed slots of the header: 8, 8, 8 and 6 bytes of text, then 6
      bytes of time. */
  const WorkShiftEnd := 8
  const TrainNoEnd := 16
  const DriverIdEnd := 24
  const VehicleIdEnd := 30
  const HeaderSize := 36

  /** The text of header bytes, one character per byte. */
  function Text(b: seq<Byte>): (s: string)
    ensures |s| == |b| && forall i :: 0 <= i < |b| ==> s[i] as int == b[i]
  {
    seq(|b|, i requires 0 <= i < |b| => b[i] as char)
  }

  /** A field with its trailing '-' padding removed. */
  function TrimPadding(s: string): (r: string)
    ensures |r| <= |s| && r == s[..|r|]
    ensures r == [] || r[|r| - 1] != '-'
    ensures forall i :: |r| <= i < |s| ==> s[i] == '-'
  {
    if s != [] && s[|s| - 1] == '-' then TrimPadding(s[..|s| - 1]) else s
  }

  function Field(file: seq<Byte>, from: nat, to: nat): string
    requires from <= to <= |file|
  {
    TrimPadding(Text(file[from..to]))
  }

  /** The header read from the start of the file; a file shorter than the
      header has none. */
  function ParseHeader(file: seq<Byte>): (h: Option<RUHeader>)
    ensures h.Some? <==> |file| >= HeaderSize
    ensures h.Some? ==> h.value.time == file[VehicleIdEnd..HeaderSize]
    ensures h.Some? ==>
      |h.value.workShift| <= 8 && |h.value.trainNo| <= 8 && |h.value.driverId| <= 8 && |h.value.vehicleId| <= 6
  {
    if |file| < HeaderSize then None
    else Some(RUHeader(Field(file, 0, WorkShiftEnd), Field(file, WorkShiftEnd, TrainNoEnd),
                       Field(file, TrainNoEnd, DriverIdEnd), Field(file, DriverIdEnd, VehicleIdEnd),
                       file[VehicleIdEnd..HeaderSize]))
  }

  function AsciiBytes(s: string): (b: seq<Byte>)
    requires Latin1(s)
    ensures |b| == |s| && forall i :: 0 <= i < |s| ==> b[i] == s[i] as int
  {
    seq(|s|, i requires 0 <= i < |s| => s[i] as int)
  }

  predicate Latin1(s: string)
  {
    forall i :: 0 <= i < |s| ==> s[i] as int < 256
  }

  lemma LatinAppend(x: string, y: string)
    requires Latin1(x) && Latin1(y)
    ensures Latin1(x + y)
  {
    assert forall i :: 0 <= i < |x + y| ==> (x + y)[i] == if i < |x| then x[i] else y[i - |x|];
  }

  lemma SliceText(t: string, from: nat, to: nat)
    requires from <= to <= |t| && Latin1(t)
    ensures Text(AsciiBytes(t)[from..to]) == t[from..to]
  {
  }

  /** A field read from a slot of a Latin-1 text is that slot, less its padding. */
  lemma FieldOfText(t: string, from: nat, to: nat, x: string)
    requires from <= to <= |t| && Latin1(t) && t[from..to] == x
    ensures Field(AsciiBytes(t), from, to) == TrimPadding(x)
  {
    SliceText(t, from, to);
  }

  lemma Slot(a: string, b: string, c: string, d: string, e: string)
    requires |a| == 8 && |b| == 8 && |c| == 8 && |d| == 6 && |e| == 6
    ensures (a + b + c + d + e)[0..8] == a
    ensures (a + b + c + d + e)[8..16] == b
    ensures (a + b + c + d + e)[16..24] == c
    ensures (a + b + c + d + e)[24..30] == d
    ensures (a + b + c + d + e)[30..36] == e
  {
    var t := a + b + c + d + e;
    assert t[..30] == a + b + c + d;
    assert t[..24] == a + b + c;
    assert t[..16] == a + b;
    assert t[0..8] == t[..16][..8];
    assert t[8..16] == t[..16][8..];
    assert t[16..24] == t[..24][16..];
    assert t[24..30] == t[..30][24..];
  }

  /** A file made of five slots of 8, 8, 8, 6 and 6 characters has the
      slots, less their padding, as its header fields. */
  lemma HeaderOfSlots(a: string, b: string, c: string, d: string, e: string)
    requires |a| == 8 && |b| == 8 && |c| == 8 && |d| == 6 && |e| == 6
    requires Latin1(a) && Latin1(b) && Latin1(c) && Latin1(d) && Latin1(e)
    ensures Latin1(a + b + c + d + e)
    ensures ParseHeader(AsciiBytes(a + b + c + d + e))
         == Some(RUHeader(TrimPadding(a), TrimPadding(b), TrimPadding(c), TrimPadding(d),
                          AsciiBytes(a + b + c + d + e)[30..36]))
  {
    LatinAppend(a, b);
    LatinAppend(a + b, c);
    LatinAppend(a + b + c, d);
    LatinAppend(a + b + c + d, e);
    var t := a + b + c + d + e;
    Slot(a, b, c, d, e);
    FieldOfText(t, 0, 8, a);
    FieldOfText(t, 8, 16, b);
    FieldOfText(t, 16, 24, c);
    FieldOfText(t, 24, 30, d);
  }

  lemma TestPadding()
    ensures TrimPadding("WSH001--") == "WSH001" && TrimPadding("TR1234--") == "TR1234"
    ensures TrimPadding("DRV001--") == "DRV001" && TrimPadding("V1234-") == "V1234"
  {
    TrimDashes("WSH001", "--");
    assert "WSH001" + "--" == "WSH001--";
    TrimDashes("TR1234", "--");
    assert "TR1234" + "--" == "TR1234--";
    TrimDashes("DRV001", "--");
    assert "DRV001" + "--" == "DRV001--";
    TrimDashes("V1234", "-");
    assert "V1234" + "-" == "V1234-";
  }

  /** Padding after a field that does not end in '-' is removed exactly. */
  lemma {:induction false} TrimDashes(x: string, d: string)
    requires x == [] || x[|x| - 1] != '-'
    requires forall i :: 0 <= i < |d| ==> d[i] == '-'
    ensures TrimPadding(x + d) == x
  {
    if d == [] {
      assert x + d == x;
    } else {
      assert (x + d)[..|x + d| - 1] == x + d[..|d| - 1];
      TrimDashes(x, d[..|d| - 1]);
    }
  }

  /** The header of the parser's unit test: padded fields lose their
      trailing dashes. */
  lemma HeaderTestFile()
    ensures ParseHeader(AsciiBytes("WSH001--" + "TR1234--" + "DRV001--" + "V1234-" + "123456"))
         == Some(RUHeader("WSH001", "TR1234", "DRV001", "V1234", AsciiBytes("123456")))
  {
    var a, b, c, d, e := "WSH001--", "TR1234--", "DRV001--", "V1234-", "123456";
    HeaderOfSlots(a, b, c, d, e);
    TestPadding();
    var t := a + b + c + d + e;
    Slot(a, b, c, d, e);
    SliceBytes(t, 30, 36);
  }

  /** A slice of a text's bytes holds the bytes of that slice of the text. */
  lemma SliceBytes(t: string, from: nat, to: nat)
    requires from <= to <= |t| && Latin1(t)
    ensures Latin1(t[from..to]) && AsciiBytes(t)[from..to] == AsciiBytes(t[from..to])
  {
    assert forall i :: 0 <= i < to - from ==> t[from..to][i] == t[from + i];
  }

  // ---------------------------------------------------------------------------
  // The record decoder.
  // ---------------------------------------------------------------------------

  /** One call of the record decoder on the unread rest of the file: a record
      and the number of bytes it used, the end of the records (a falsy
      result), or an exception. */
  datatype Step = Decoded(record: RURecord, consumed: nat) | EndOfRecords | DecodeFailure

  type Decoder = seq<Byte> -> Step

  /** The decoder always reads at least one byte, and no more than remain. */
  ghost predicate Progresses(decode: Decoder)
  {
    forall rest :: decode(rest).Decoded? ==> 0 < decode(rest).consumed <= |rest|
  }

  /** The records a decoder yields from `rest` until it stops, and whether it
      stopped normally rather than by an exception. */
  datatype Decoding = Decoding(records: seq<RURecord>, complete: bool)

  function DecodeAll(decode: Decoder, rest: seq<Byte>): (d: Decoding)
    requires Progresses(decode)
    decreases |rest|
  {
    match decode(rest)
    case EndOfRecords => Decoding([], true)
    case DecodeFailure => Decoding([], false)
    case Decoded(record, n) =>
      var tail := DecodeAll(decode, rest[n..]);
      Decoding([record] + tail.records, tail.complete)
  }

  /** Each record uses at least one byte, so there are no more records than
      bytes, and the first record is the decoder's first result. */
  lemma {:induction false} DecodeAllBounded(decode: Decoder, rest: seq<Byte>)
    requires Progresses(decode)
    ensures |DecodeAll(decode, rest).records| <= |rest|
    ensures decode(rest).Decoded? <==> DecodeAll(decode, rest).records != []
    ensures decode(rest).Decoded? ==> DecodeAll(decode, rest).records[0] == decode(rest).record
    decreases |rest|
  {
    if decode(rest).Decoded? {
      DecodeAllBounded(decode, rest[decode(rest).consumed..]);
    }
  }

  /** Appending the record one decoder call yields and then the records of
      the rest is appending all the records from here, and ends the same way. */
  lemma DecodeStep(decode: Decoder, rest: seq<Byte>, before: seq<RURecord>)
    requires Progresses(decode) && decode(rest).Decoded?
    ensures var tail := DecodeAll(decode, rest[decode(rest).consumed..]);
      && (before + [decode(rest).record]) + tail.records == before + DecodeAll(decode, rest).records
      && tail.complete == DecodeAll(decode, rest).complete
  {
    var r, n := decode(rest).record, decode(rest).consumed;
    var tail := DecodeAll(decode, rest[n..]);
    assert DecodeAll(decode, rest) == Decoding([r] + tail.records, tail.complete);
    assert (before + [r]) + tail.records == before + ([r] + tail.records);
  }

  /** The parser state: the last header read and every record appended so
      far. */
  class RUParser {
    var header: Option<RUHeader>
    var records: seq<RURecord>

    constructor()
      ensures header == None && records == []
    {
      header := None;
      records := [];
    }

    /** Reads the header, then appends each decoded record in turn until the
        decoder yields nothing. Records from earlier calls are kept; records
        decoded before an exception stay appended. */
    method ParseFile(file: seq<Byte>, decode: Decoder) returns (r: Outcome<string>)
      requires Progresses(decode)
      modifies this
      ensures ParseHeader(file).None? ==>
                r.Fail? && header == old(header) && records == old(records)
      ensures ParseHeader(file).Some? ==>
                header == ParseHeader(file)
                && records == old(records) + DecodeAll(decode, file[HeaderSize..]).records
                && (r.Pass? <==> DecodeAll(decode, file[HeaderSize..]).complete)
    {
      var h := ParseHeader(file);
      if h.None? {
        return Fail("header too short");
      }
      header := h;
      var rest := file[HeaderSize..];
      while true
        invariant Progresses(decode)
        invariant old(records) + DecodeAll(decode, file[HeaderSize..]).records
               == records + DecodeAll(decode, rest).records
        invariant DecodeAll(decode, file[HeaderSize..]).complete == DecodeAll(decode, rest).complete
        invariant header == h
        decreases |rest|
      {
        var step := decode(rest);
        match step {
          case EndOfRecords =>
            assert DecodeAll(decode, rest) == Decoding([], true);
            assert records + [] == records;
            return Pass;
          case DecodeFailure =>
            assert DecodeAll(decode, rest) == Decoding([], false);
            assert records + [] == records;
            return Fail("record decoding failed");
          case Decoded(record, n) =>
            DecodeStep(decode, rest, records);
            records := records + [record];
            rest := rest[n..];
        }
      }
    }
  }
}
