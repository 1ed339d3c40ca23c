/**
 * The sample record the sensor packs on the sampling node and unpacks on
 * the logging node.  The buffer is a sequence of typed tokens, one per
 * pack call: the hostname, the core count, the timestamp, then one float
 * per reading, with no count of its own in front of the readings.
 */
module SampleCodec {
  import opened Wrappers
  import opened CoreNames

  newtype int32 = x: int | -0x8000_0000 <= x < 0x8000_0000

  /** The cast (int32_t) of a list size: two's complement wrap-around modulo 2^32. */
  function Int32Of(n: nat): (r: int32)
    ensures (r as int - n) % 0x1_0000_0000 == 0
  {
    var m := n % 0x1_0000_0000;
    if m < 0x8000_0000 then m as int32 else (m - 0x1_0000_0000) as int32
  }

  /** Any list of fewer than 2^31 trackers keeps its size through the cast. */
  lemma Int32OfSmall(n: nat)
    requires n < 0x8000_0000
    ensures Int32Of(n) as int == n
  {
  }

  /** One packed value: OPAL_STRING, OPAL_INT32 or OPAL_FLOAT. */
  datatype Token = Str(s: string) | I32(i: int32) | F(f: real)

  /** One sample as it travels: readings are in tracker order. */
  datatype Sample = Sample(hostname: string, ncores: int32, ctime: string, readings: seq<real>)

  /** The float tokens of the readings, one per reading, in order. */
  function Floats(rs: seq<real>): seq<Token> {
    seq(|rs|, i requires 0 <= i < |rs| => F(rs[i]))
  }

  /** The packing order of the sampler: hostname, core count, timestamp, readings. */
  function Encode(s: Sample): seq<Token> {
    [Str(s.hostname), I32(s.ncores), Str(s.ctime)] + Floats(s.readings)
  }

  /** A record is consistent when it carries exactly as many readings as it announces. */
  predicate Consistent(s: Sample) {
    |s.readings| == s.ncores as int
  }

  /** One unpack of a string at `pos`: fails on a short buffer or another type. */
  function UnpackStr(buf: seq<Token>, pos: nat): Option<string> {
    if pos < |buf| && buf[pos].Str? then Some(buf[pos].s) else None
  }

  function UnpackInt32(buf: seq<Token>, pos: nat): Option<int32> {
    if pos < |buf| && buf[pos].I32? then Some(buf[pos].i) else None
  }

  function UnpackFloat(buf: seq<Token>, pos: nat): Option<real> {
    if pos < |buf| && buf[pos].F? then Some(buf[pos].f) else None
  }

  /**
   * Each value of an encoded record unpacks, with its own type, from the
   * position it was packed at, whatever follows the record.
   */
  lemma EncodeUnpacks(s: Sample, rest: seq<Token>)
    ensures var buf := Encode(s) + rest;
      && |Encode(s)| == 3 + |s.readings|
      && UnpackStr(buf, 0) == Some(s.hostname)
      && UnpackInt32(buf, 1) == Some(s.ncores)
      && UnpackStr(buf, 2) == Some(s.ctime)
      && forall i :: 0 <= i < |s.readings| ==> UnpackFloat(buf, 3 + i) == Some(s.readings[i])
  {
  }

  /** Unpack `n` floats from the front of `buf`, giving them and what is left. */
  function DecodeFloats(buf: seq<Token>, n: nat): (r: Option<(seq<real>, seq<Token>)>)
    ensures r.Some? ==> |r.value.0| == n && buf == Floats(r.value.0) + r.value.1
    ensures r.None? ==> exists k :: 0 <= k < n && UnpackFloat(buf, k).None?
  {
    if n == 0 then Some(([], buf))
    else match UnpackFloat(buf, 0)
      case None => None
      case Some(f) =>
        match DecodeFloats(buf[1..], n - 1)
        case None =>
          var k :| 0 <= k < n - 1 && UnpackFloat(buf[1..], k).None?;
          assert UnpackFloat(buf, k + 1).None?;
          None
        case Some((fs, rest)) =>
          assert Floats([f] + fs) == [F(f)] + Floats(fs);
          Some(([f] + fs, rest))
  }

  /** Unpacking `n` floats fails when the k-th of them is missing or not a float. */
  lemma {:induction false} DecodeFloatsFailsAt(buf: seq<Token>, n: nat, k: nat)
    requires k < n && UnpackFloat(buf, k).None?
    ensures DecodeFloats(buf, n) == None
  {
    if k > 0 && UnpackFloat(buf, 0).Some? {
      assert UnpackFloat(buf[1..], k - 1) == UnpackFloat(buf, k);
      DecodeFloatsFailsAt(buf[1..], n - 1, k - 1);
    }
  }

  /**
   * The receiving side: hostname, core count, timestamp, then as many
   * floats as the count says.  A negative count is rejected.
   */
  function Decode(buf: seq<Token>): (r: Option<(Sample, seq<Token>)>)
    ensures r.Some? ==> Consistent(r.value.0) && buf == Encode(r.value.0) + r.value.1
  {
    if UnpackStr(buf, 0).None? || UnpackInt32(buf, 1).None? || UnpackStr(buf, 2).None? then None
    else
      var n := buf[1].i;
      if n < 0 then None
      else match DecodeFloats(buf[3..], n as nat)
        case None => None
        case Some((fs, rest)) =>
          assert buf == buf[..3] + buf[3..];
          Some((Sample(buf[0].s, n, buf[2].s, fs), rest))
  }

  /** Decoding an encoded consistent record gives it back, and leaves what followed it. */
  lemma {:induction false} DecodeEncode(s: Sample, rest: seq<Token>)
    requires Consistent(s)
    ensures Decode(Encode(s) + rest) == Some((s, rest))
  {
    var buf := Encode(s) + rest;
    assert buf[3..] == Floats(s.readings) + rest;
    DecodeFloatsOfFloats(s.readings, rest);
  }

  lemma {:induction false} DecodeFloatsOfFloats(rs: seq<real>, rest: seq<Token>)
    ensures DecodeFloats(Floats(rs) + rest, |rs|) == Some((rs, rest))
  {
    if rs == [] {
      assert Floats(rs) + rest == rest;
    } else {
      var buf := Floats(rs) + rest;
      assert buf[1..] == Floats(rs[1..]) + rest;
      DecodeFloatsOfFloats(rs[1..], rest);
      assert [rs[0]] + rs[1..] == rs;
    }
  }

  /**
   * A record announcing more readings than it holds does not decode, so
   * nothing past its end is read as a reading.
   */
  lemma ShortRecordRejected(s: Sample, rest: seq<Token>)
    requires |s.readings| < s.ncores as int
    requires rest == [] || !rest[0].F?
    ensures Decode(Encode(s) + rest) == None
  {
    var buf := Encode(s) + rest;
    assert buf[3..] == Floats(s.readings) + rest;
    DecodeFloatsShort(s.readings, rest, s.ncores as nat);
  }

  lemma {:induction false} DecodeFloatsShort(rs: seq<real>, rest: seq<Token>, n: nat)
    requires |rs| < n
    requires rest == [] || !rest[0].F?
    ensures DecodeFloats(Floats(rs) + rest, n) == None
  {
    var buf := Floats(rs) + rest;
    if rs == [] {
      assert buf == rest;
    } else {
      assert buf[1..] == Floats(rs[1..]) + rest;
      DecodeFloatsShort(rs[1..], rest, n - 1);
    }
  }

  /** A decoded value for the log store. */
  datatype Value = VStr(s: string) | VFloat(f: real)

  datatype KeyValue = KeyValue(key: string, value: Value)

  /** What the log side hands to the store: the time first, then one entry per reading. */
  function LogRecord(s: Sample): seq<KeyValue> {
    [KeyValue(TimeKey, VStr(s.ctime))]
      + seq(|s.readings|, i requires 0 <= i < |s.readings| => KeyValue(CoreKey(i), VFloat(s.readings[i])))
  }

  /**
   * A log record has one entry more than readings; "ctime" holds the
   * timestamp; "core<i>" holds the i-th reading; and no key occurs twice.
   */
  lemma LogRecordEntries(s: Sample)
    ensures |LogRecord(s)| == |s.readings| + 1
    ensures LogRecord(s)[0] == KeyValue("ctime", VStr(s.ctime))
    ensures forall i :: 0 <= i < |s.readings| ==>
      LogRecord(s)[i + 1].key == CoreKey(i) && LogRecord(s)[i + 1].value == VFloat(s.readings[i])
    ensures forall i, j :: 0 <= i < j < |LogRecord(s)| ==> LogRecord(s)[i].key != LogRecord(s)[j].key
  {
    var r := LogRecord(s);
    forall i, j | 0 <= i < j < |r|
      ensures r[i].key != r[j].key
    {
      CoreKeysDistinct(j - 1, if i == 0 then j - 1 else i - 1);
    }
  }

  /** One call of the log entry point: the buffer it is given and whether the store accepts. */
  datatype LogCall = LogCall(buf: seq<Token>, stored: bool)

  /** The logging flag after one call: only a decoded record the store refuses clears it. */
  function NextEnabled(enabled: bool, call: LogCall): (r: bool)
    ensures r ==> enabled
    ensures call.stored ==> r == enabled
    ensures Decode(call.buf).None? ==> r == enabled
  {
    enabled && (Decode(call.buf).None? || call.stored)
  }

  /** The logging flag after a series of calls. */
  function EnabledAfter(enabled: bool, calls: seq<LogCall>): (r: bool)
    ensures r ==> enabled
    decreases |calls|
  {
    if calls == [] then enabled else EnabledAfter(NextEnabled(enabled, calls[0]), calls[1..])
  }

  /**
   * The flag is a latch: it stays on exactly when it was on and every
   * record that decoded was accepted; once off, no call turns it on.
   */
  lemma {:induction false} EnabledAfterLatch(enabled: bool, calls: seq<LogCall>)
    ensures EnabledAfter(enabled, calls) <==>
      enabled && forall i :: 0 <= i < |calls| && Decode(calls[i].buf).Some? ==> calls[i].stored
  {
    if calls != [] {
      EnabledAfterLatch(NextEnabled(enabled, calls[0]), calls[1..]);
      assert forall i :: 1 <= i < |calls| ==> calls[i] == calls[1..][i - 1];
    }
  }
}
