/**
 * The power sensor: discovery of per-core msr files, the sampling pass
 * that evicts unreadable cores and packs one record, and the log side
 * that unpacks a record into key/value pairs behind a one-way flag.
 */
module SensorPwr {
  import opened Wrappers
  import opened Msr
  import opened CoreNames
  import opened SampleCodec

  /**
   * The operating system as the sensor uses it: `open` gives the descriptor
   * an open of a path returns (negative on failure), `pread` the bytes a
   * positioned read of eight bytes at an offset of that file returns.
   */
  datatype Platform = Platform(open: string -> int, pread: (string, int) -> seq<bv8>)

  /**
   * Open a register file and read the register at `offset`.  An open that
   * returns 0 or less counts as failure; so does a read of fewer than eight bytes.
   */
  function ReadRegister(p: Platform, file: string, offset: int): (r: Option<bv64>)
    ensures r.Some? <==> p.open(file) > 0 && |p.pread(file, offset)| == 8
    ensures r.Some? ==> RegisterBytes(r.value) == p.pread(file, offset)
  {
    if p.open(file) <= 0 then None else ReadMsr(p.pread(file, offset))
  }

  /** corepwr_tracker_t: the register file of one core, its number and its calibration unit. */
  datatype Tracker = Tracker(file: string, core: nat, units: real)

  predicate WellFormed(t: Tracker) {
    MinUnits <= t.units <= 1.0
  }

  /**
   * What discovery makes of one directory entry: a tracker exactly when the
   * entry does not start with a dot, ends in a digit, and its msr file opens
   * and yields MSR_RAPL_POWER_UNIT.
   */
  function TrackerFor(p: Platform, name: string): (r: Option<Tracker>)
    ensures r.Some? <==>
      && |name| > 0 && name[0] != '.' && IsDigit(name[|name| - 1])
      && ReadRegister(p, MsrPath(name), RaplPowerUnit).Some?
    ensures r.Some? ==>
      && r.value.file == MsrPath(name)
      && r.value.core == LeadingNumber(name)
      && r.value.units == Units(ReadRegister(p, MsrPath(name), RaplPowerUnit).value)
      && WellFormed(r.value)
  {
    DotEntryIsLeadingDot(name);
    if !IsCoreEntry(name) then None
    else
      var file := MsrPath(name);
      match ReadRegister(p, file, RaplPowerUnit)
      case None => None
      case Some(raw) =>
        UnitsRange(raw);
        Some(Tracker(file, LeadingNumber(name), Units(raw)))
  }

  function Found(r: Option<Tracker>): seq<Tracker> {
    match r
    case None => []
    case Some(t) => [t]
  }

  /** The tracker list discovery builds from a directory listing, in listing order. */
  function Discover(p: Platform, names: seq<string>): (ts: seq<Tracker>)
    ensures |ts| <= |names|
    ensures forall t :: t in ts ==> WellFormed(t)
  {
    if names == [] then []
    else Discover(p, names[..|names| - 1]) + Found(TrackerFor(p, names[|names| - 1]))
  }

  /** Discovery works entry by entry: the trackers of a longer listing extend those of its start. */
  lemma {:induction false} DiscoverAppend(p: Platform, xs: seq<string>, ys: seq<string>)
    ensures Discover(p, xs + ys) == Discover(p, xs) + Discover(p, ys)
  {
    if ys != [] {
      var n := |ys| - 1;
      assert (xs + ys)[..|xs + ys| - 1] == xs + ys[..n];
      assert (xs + ys)[|xs + ys| - 1] == ys[n];
      DiscoverAppend(p, xs, ys[..n]);
    } else {
      assert xs + ys == xs;
    }
  }

  /** A tracker is discovered exactly when some entry of the listing yields it. */
  lemma {:induction false} DiscoverMembers(p: Platform, names: seq<string>)
    ensures forall t :: t in Discover(p, names) <==>
      exists i :: 0 <= i < |names| && TrackerFor(p, names[i]) == Some(t)
  {
    if names != [] {
      var init := names[..|names| - 1];
      DiscoverMembers(p, init);
      forall t
        ensures t in Discover(p, names) <==> exists i :: 0 <= i < |names| && TrackerFor(p, names[i]) == Some(t)
      {
        if t in Discover(p, names) && t !in Discover(p, init) {
          assert TrackerFor(p, names[|names| - 1]) == Some(t);
        }
        if exists i :: 0 <= i < |names| && TrackerFor(p, names[i]) == Some(t) {
          var i :| 0 <= i < |names| && TrackerFor(p, names[i]) == Some(t);
          if i < |names| - 1 {
            assert init[i] == names[i];
          }
        }
      }
    }
  }

  /** The sampling pass keeps a tracker when its msr file opens and yields MSR_PKG_POWER_INFO. */
  predicate Survives(p: Platform, t: Tracker) {
    ReadRegister(p, t.file, PkgPowerInfo).Some?
  }

  /** The reading recorded for a surviving tracker. */
  function Reading(p: Platform, t: Tracker): real
    requires Survives(p, t)
  {
    PkgPower(t.units, ReadRegister(p, t.file, PkgPowerInfo).value)
  }

  /** The trackers of `ts` that survive, in order. */
  function Survivors(p: Platform, ts: seq<Tracker>): seq<Tracker> {
    if ts == [] then []
    else if Survives(p, ts[0]) then [ts[0]] + Survivors(p, ts[1..])
    else Survivors(p, ts[1..])
  }

  /** The readings of the surviving trackers of `ts`, in order. */
  function Readings(p: Platform, ts: seq<Tracker>): seq<real> {
    if ts == [] then []
    else if Survives(p, ts[0]) then [Reading(p, ts[0])] + Readings(p, ts[1..])
    else Readings(p, ts[1..])
  }

  /** `a` is `b` with some elements left out, the others in their order. */
  predicate IsSubsequence(a: seq<Tracker>, b: seq<Tracker>)
    decreases |b|
  {
    a == [] || (b != [] && ((a[0] == b[0] && IsSubsequence(a[1..], b[1..])) || IsSubsequence(a, b[1..])))
  }

  lemma {:induction false} IsSubsequenceReflexive(a: seq<Tracker>)
    ensures IsSubsequence(a, a)
  {
    if a != [] {
      IsSubsequenceReflexive(a[1..]);
    }
  }

  lemma {:induction false} IsSubsequenceMembers(a: seq<Tracker>, b: seq<Tracker>)
    requires IsSubsequence(a, b)
    ensures forall t :: t in a ==> t in b
    decreases |b|
  {
    if a != [] {
      if a[0] == b[0] && IsSubsequence(a[1..], b[1..]) {
        IsSubsequenceMembers(a[1..], b[1..]);
        assert forall t :: t in a ==> t == a[0] || t in a[1..];
      } else {
        IsSubsequenceMembers(a, b[1..]);
      }
    }
  }

  /**
   * The survivors keep their order, and include every tracker that
   * survives and no tracker that does not.
   */
  lemma {:induction false} SurvivorsSpec(p: Platform, ts: seq<Tracker>)
    ensures IsSubsequence(Survivors(p, ts), ts)
    ensures forall t :: t in Survivors(p, ts) <==> t in ts && Survives(p, t)
    ensures |Survivors(p, ts)| <= |ts|
  {
    if ts != [] {
      SurvivorsSpec(p, ts[1..]);
      assert forall t :: t in ts <==> t == ts[0] || t in ts[1..];
    }
  }

  /** There is one reading per survivor, and it is that survivor's reading. */
  lemma {:induction false} ReadingsSpec(p: Platform, ts: seq<Tracker>)
    ensures |Readings(p, ts)| == |Survivors(p, ts)|
    ensures forall i :: 0 <= i < |Survivors(p, ts)| ==>
      Survives(p, Survivors(p, ts)[i]) && Readings(p, ts)[i] == Reading(p, Survivors(p, ts)[i])
  {
    if ts != [] {
      ReadingsSpec(p, ts[1..]);
    }
  }

  /** When every tracker survives nobody is evicted; otherwise the survivors are fewer. */
  lemma {:induction false} SurvivorsAll(p: Platform, ts: seq<Tracker>)
    ensures (forall t :: t in ts ==> Survives(p, t)) ==> Survivors(p, ts) == ts
    ensures !(forall t :: t in ts ==> Survives(p, t)) ==> |Survivors(p, ts)| < |ts|
  {
    if ts != [] {
      SurvivorsAll(p, ts[1..]);
      SurvivorsSpec(p, ts[1..]);
      assert forall t :: t in ts <==> t == ts[0] || t in ts[1..];
    }
  }

  /** Readings are never negative and never above 32767 units of their tracker, so never above 32767. */
  lemma ReadingRange(p: Platform, t: Tracker)
    requires Survives(p, t) && WellFormed(t)
    ensures 0.0 <= Reading(p, t) <= 32767.0 * t.units <= 32767.0
  {
    PkgPowerRange(t.units, ReadRegister(p, t.file, PkgPowerInfo).value);
  }

  /**
   * The outcome of the tracker loop of a sampling pass: the trackers still
   * listed, the readings packed, and whether a pack failed and ended the pass.
   */
  datatype Pass = Pass(kept: seq<Tracker>, readings: seq<real>, aborted: bool)

  /**
   * The tracker loop over `ts` when `k` tokens are already in the buffer and
   * `packOk(k)` tells whether packing the k-th token succeeds.  A tracker that
   * does not survive is removed; a reading that cannot be packed ends the pass
   * with that tracker and all after it still listed.
   */
  function Walk(p: Platform, ts: seq<Tracker>, packOk: nat -> bool, k: nat): Pass
    decreases |ts|
  {
    if ts == [] then Pass([], [], false)
    else if !Survives(p, ts[0]) then Walk(p, ts[1..], packOk, k)
    else if !packOk(k) then Pass(ts, [], true)
    else
      var w := Walk(p, ts[1..], packOk, k + 1);
      Pass([ts[0]] + w.kept, [Reading(p, ts[0])] + w.readings, w.aborted)
  }

  function Join(kept: seq<Tracker>, readings: seq<real>, w: Pass): Pass {
    Pass(kept + w.kept, readings + w.readings, w.aborted)
  }

  /**
   * Evicting the tracker at position `i` of the loop: the remaining pass is
   * that of the trackers after it, and the list loses exactly that tracker.
   */
  lemma EvictStep(p: Platform, all: seq<Tracker>, i: nat, packOk: nat -> bool, k: nat,
                  kept: seq<Tracker>, readings: seq<real>, whole: Pass)
    requires i < |all| && !Survives(p, all[i])
    requires whole == Join(kept, readings, Walk(p, all[i..], packOk, k))
    ensures whole == Join(kept, readings, Walk(p, all[i + 1..], packOk, k))
    ensures (kept + all[i..])[..|kept|] + (kept + all[i..])[|kept| + 1..] == kept + all[i + 1..]
  {
    assert all[i..][0] == all[i] && all[i..][1..] == all[i + 1..];
    assert (kept + all[i..])[..|kept|] == kept;
    assert (kept + all[i..])[|kept| + 1..] == all[i + 1..];
  }

  /** Keeping the tracker at position `i` of the loop and packing its reading as the k-th token. */
  lemma KeepStep(p: Platform, all: seq<Tracker>, i: nat, packOk: nat -> bool, k: nat,
                 kept: seq<Tracker>, readings: seq<real>, whole: Pass)
    requires i < |all| && Survives(p, all[i]) && packOk(k)
    requires whole == Join(kept, readings, Walk(p, all[i..], packOk, k))
    ensures whole == Join(kept + [all[i]], readings + [Reading(p, all[i])], Walk(p, all[i + 1..], packOk, k + 1))
    ensures kept + all[i..] == (kept + [all[i]]) + all[i + 1..]
  {
    assert all[i..][0] == all[i] && all[i..][1..] == all[i + 1..];
    var w := Walk(p, all[i + 1..], packOk, k + 1);
    assert kept + ([all[i]] + w.kept) == (kept + [all[i]]) + w.kept;
    assert readings + ([Reading(p, all[i])] + w.readings) == (readings + [Reading(p, all[i])]) + w.readings;
  }

  /** Packing a reading that cannot be packed ends the pass at position `i`. */
  lemma AbortStep(p: Platform, all: seq<Tracker>, i: nat, packOk: nat -> bool, k: nat,
                  kept: seq<Tracker>, readings: seq<real>, whole: Pass)
    requires i < |all| && Survives(p, all[i]) && !packOk(k)
    requires whole == Join(kept, readings, Walk(p, all[i..], packOk, k))
    ensures whole.kept == kept + all[i..] && whole.aborted
  {
    assert all[i..][0] == all[i];
  }

  /**
   * A pass never adds or reorders trackers, and packs at most one reading
   * per tracker it started with.
   */
  lemma {:induction false} WalkKeepsOrder(p: Platform, ts: seq<Tracker>, packOk: nat -> bool, k: nat)
    ensures IsSubsequence(Walk(p, ts, packOk, k).kept, ts)
    ensures forall t :: t in Walk(p, ts, packOk, k).kept ==> t in ts
    ensures |Walk(p, ts, packOk, k).readings| <= |ts|
    decreases |ts|
  {
    var w := Walk(p, ts, packOk, k);
    if ts != [] {
      if !Survives(p, ts[0]) {
        WalkKeepsOrder(p, ts[1..], packOk, k);
      } else if !packOk(k) {
        IsSubsequenceReflexive(ts);
      } else {
        WalkKeepsOrder(p, ts[1..], packOk, k + 1);
      }
    }
    IsSubsequenceMembers(w.kept, ts);
  }

  /** A pass that packs every reading leaves exactly the survivors, with their readings. */
  lemma {:induction false} WalkCompleted(p: Platform, ts: seq<Tracker>, packOk: nat -> bool, k: nat)
    requires !Walk(p, ts, packOk, k).aborted
    ensures Walk(p, ts, packOk, k).kept == Survivors(p, ts)
    ensures Walk(p, ts, packOk, k).readings == Readings(p, ts)
    decreases |ts|
  {
    if ts != [] {
      WalkCompleted(p, ts[1..], packOk, if Survives(p, ts[0]) then k + 1 else k);
    }
  }

  /**
   * A pass that fails to pack a reading still keeps the evictions it made:
   * trackers before the failing one are filtered, it and those after stay.
   */
  lemma {:induction false} WalkAborted(p: Platform, ts: seq<Tracker>, packOk: nat -> bool, k: nat)
    requires Walk(p, ts, packOk, k).aborted
    ensures exists i :: (0 <= i < |ts| && Survives(p, ts[i])
                         && Walk(p, ts, packOk, k).kept == Survivors(p, ts[..i]) + ts[i..])
    decreases |ts|
  {
    var w := Walk(p, ts, packOk, k);
    if Survives(p, ts[0]) && !packOk(k) {
      assert ts[..0] == [] && w.kept == Survivors(p, ts[..0]) + ts[0..];
    } else {
      var k' := if Survives(p, ts[0]) then k + 1 else k;
      var tail := ts[1..];
      WalkAborted(p, tail, packOk, k');
      var i :| 0 <= i < |tail| && Survives(p, tail[i])
        && Walk(p, tail, packOk, k').kept == Survivors(p, tail[..i]) + tail[i..];
      var pre := ts[..i + 1];
      assert pre[0] == ts[0] && pre[1..] == tail[..i];
      var head := if Survives(p, ts[0]) then [ts[0]] else [];
      var evicted, rest := Survivors(p, tail[..i]), tail[i..];
      assert Survivors(p, pre) == head + evicted;
      assert rest == ts[i + 1..];
      assert w.kept == head + (evicted + rest);
      assert head + (evicted + rest) == (head + evicted) + rest;
      assert Survives(p, ts[i + 1]);
    }
  }

  /** Every reading a pass over well-formed trackers packs lies in [0, 32767]. */
  lemma {:induction false} WalkReadingsRange(p: Platform, ts: seq<Tracker>, packOk: nat -> bool, k: nat)
    requires forall t :: t in ts ==> WellFormed(t)
    ensures forall r :: r in Walk(p, ts, packOk, k).readings ==> 0.0 <= r <= 32767.0
    decreases |ts|
  {
    if ts != [] {
      assert forall t :: t in ts[1..] ==> t in ts;
      if !Survives(p, ts[0]) {
        WalkReadingsRange(p, ts[1..], packOk, k);
      } else if packOk(k) {
        ReadingRange(p, ts[0]);
        WalkReadingsRange(p, ts[1..], packOk, k + 1);
      }
    }
  }

  /** The record a completed pass over `ts` packs. */
  function PassRecord(hostname: string, timestamp: string, ts: seq<Tracker>, w: Pass): Sample {
    Sample(hostname, Int32Of(|ts|), timestamp, w.readings)
  }

  /**
   * The record of a completed pass carries the core count from before the
   * pass.  It decodes exactly when no tracker was evicted during the pass,
   * and then gives back hostname, count, timestamp and readings.
   */
  lemma PassRecordDecodes(p: Platform, ts: seq<Tracker>, packOk: nat -> bool, hostname: string, timestamp: string)
    requires |ts| < 0x8000_0000
    requires !Walk(p, ts, packOk, 3).aborted
    ensures var s := PassRecord(hostname, timestamp, ts, Walk(p, ts, packOk, 3));
      && (Decode(Encode(s)).Some? <==> forall t :: t in ts ==> Survives(p, t))
      && ((forall t :: t in ts ==> Survives(p, t)) ==>
            Decode(Encode(s)) == Some((s, [])) && s.ncores as int == |ts| == |s.readings|)
  {
    var w := Walk(p, ts, packOk, 3);
    var s := PassRecord(hostname, timestamp, ts, w);
    WalkCompleted(p, ts, packOk, 3);
    SurvivorsSpec(p, ts);
    ReadingsSpec(p, ts);
    SurvivorsAll(p, ts);
    Int32OfSmall(|ts|);
    assert Encode(s) + [] == Encode(s);
    if forall t :: t in ts ==> Survives(p, t) {
      DecodeEncode(s, []);
    } else {
      ShortRecordRejected(s, []);
    }
  }

  /**
   * Two cores with units 0.5 and 0.25 whose power-info registers hold 200
   * and 400: both survive, both read 100 W, and the record logs as
   * "ctime", "core0" = 100, "core1" = 100.
   */
  lemma TwoCoreScenario(hostname: string, timestamp: string)
    ensures var p := Platform(f => 3, (f, off) => RegisterBytes(if f == MsrPath("0") then 200 else 400));
      var ts := [Tracker(MsrPath("0"), 0, 0.5), Tracker(MsrPath("1"), 1, 0.25)];
      var w := Walk(p, ts, _ => true, 3);
      && w == Pass(ts, [100.0, 100.0], false)
      && LogRecord(PassRecord(hostname, timestamp, ts, w)) ==
           [KeyValue("ctime", VStr(timestamp)), KeyValue("core0", VFloat(100.0)), KeyValue("core1", VFloat(100.0))]
  {
    var p := Platform(f => 3, (f, off) => RegisterBytes(if f == MsrPath("0") then 200 else 400));
    var ts := [Tracker(MsrPath("0"), 0, 0.5), Tracker(MsrPath("1"), 1, 0.25)];
    assert MsrPath("0") != MsrPath("1") by {
      assert MsrPath("0")[9] == '0' && MsrPath("1")[9] == '1';
    }
    ReadMsrRoundTrip(200);
    ReadMsrRoundTrip(400);
    assert ThermalSpecPower(200) == 200 && ThermalSpecPower(400) == 400;
    assert ts[1..] == [ts[1]] && ts[1..][1..] == [];
    assert Reading(p, ts[0]) == 100.0 && Reading(p, ts[1]) == 100.0;
    var w := Walk(p, ts, _ => true, 3);
    assert w == Pass(ts, [100.0, 100.0], false);
    var s := PassRecord(hostname, timestamp, ts, w);
    LogRecordEntries(s);
    assert DecimalString(0) == "0" && DecimalString(1) == "1";
    assert CoreKey(0) == "core0" && CoreKey(1) == "core1";
  }

  /**
   * The sensor's process-wide state: the tracker list and the flag that
   * lets the log side hand records to the store.
   */
  class PwrSensor {
    var tracking: seq<Tracker>
    var logEnabled: bool

    ghost predicate Valid()
      reads this
    {
      forall t :: t in tracking ==> WellFormed(t)
    }

    /** The state at load time: logging on, no trackers. */
    constructor ()
      ensures Valid() && tracking == [] && logEnabled
    {
      tracking := [];
      logEnabled := true;
    }

    /**
     * init: list the directory (None when it cannot be opened), keep one
     * tracker per usable core in listing order, and fail unless some core
     * was usable.
     */
    method Init(p: Platform, listing: Option<seq<string>>) returns (ok: bool)
      modifies this`tracking
      ensures Valid()
      ensures listing.None? ==> !ok && tracking == []
      ensures listing.Some? ==> tracking == Discover(p, listing.value) && ok == (tracking != [])
    {
      tracking := [];
      if listing.None? {
        return false;
      }
      var names := listing.value;
      for i := 0 to |names|
        invariant tracking == Discover(p, names[..i])
      {
        var name := names[i];
        assert names[..i + 1][..i] == names[..i];
        assert Discover(p, names[..i + 1]) == tracking + Found(TrackerFor(p, name));
        DotEntryIsLeadingDot(name);
        if IsDotEntry(name) {
          continue;
        }
        if |name| == 0 || !IsDigit(name[|name| - 1]) {
          continue;
        }
        var file := MsrPath(name);
        var core := LeadingNumber(name);
        var fd := p.open(file);
        if fd <= 0 {
          continue;
        }
        var units := ReadMsr(p.pread(file, RaplPowerUnit));
        if units.None? {
          continue;
        }
        tracking := tracking + [Tracker(file, core, Units(units.value))];
      }
      assert names[..|names|] == names;
      ok := tracking != [];
    }

    /**
     * pwr_sample: pack hostname, the current core count and the timestamp,
     * then walk the trackers, evicting those whose register cannot be read
     * and packing the reading of the others.  `packOk(k)` says whether
     * packing the k-th token succeeds, `sendOk` whether the finished record
     * reaches the outgoing samples buffer; `sent` is the record that did.
     */
    method Sample(p: Platform, hostname: string, timestamp: string, packOk: nat -> bool, sendOk: bool)
      returns (sent: Option<seq<Token>>)
      requires Valid()
      modifies this`tracking
      ensures Valid()
      ensures !(packOk(0) && packOk(1) && packOk(2)) ==> tracking == old(tracking) && sent == None
      ensures packOk(0) && packOk(1) && packOk(2) ==>
        var w := Walk(p, old(tracking), packOk, 3);
        && tracking == w.kept
        && sent == if w.aborted || !sendOk then None
                   else Some(Encode(PassRecord(hostname, timestamp, old(tracking), w)))
      ensures sent.Some? ==> forall i :: 3 <= i < |sent.value| ==>
        sent.value[i].F? && 0.0 <= sent.value[i].f <= 32767.0
    {
      var data: seq<Token> := [];
      if !packOk(|data|) {
        return None;
      }
      data := data + [Str(hostname)];
      var ncores := Int32Of(|tracking|);
      if !packOk(|data|) {
        return None;
      }
      data := data + [I32(ncores)];
      if !packOk(|data|) {
        return None;
      }
      data := data + [Str(timestamp)];
      var aborted;
      data, aborted := PackReadings(p, packOk, data);
      WalkKeepsOrder(p, old(tracking), packOk, 3);
      WalkReadingsRange(p, old(tracking), packOk, 3);
      assert !aborted ==> data == Encode(PassRecord(hostname, timestamp, old(tracking), Walk(p, old(tracking), packOk, 3)));
      if aborted || !sendOk {
        return None;
      }
      ghost var readings := Walk(p, old(tracking), packOk, 3).readings;
      forall i | 3 <= i < |data|
        ensures data[i].F? && 0.0 <= data[i].f <= 32767.0
      {
        assert data[i] == F(readings[i - 3]) && readings[i - 3] in readings;
      }
      return Some(data);
    }

    /**
     * The tracker loop of pwr_sample: walk the list in place, removing each
     * tracker whose msr file does not open or read, and appending the
     * reading of every other to `data`.  A failed pack ends the loop.
     */
    method PackReadings(p: Platform, packOk: nat -> bool, data0: seq<Token>)
      returns (data: seq<Token>, aborted: bool)
      modifies this`tracking
      ensures var w := Walk(p, old(tracking), packOk, |data0|);
        && tracking == w.kept
        && aborted == w.aborted
        && (!aborted ==> data == data0 + Floats(w.readings))
    {
      data := data0;
      ghost var all := tracking;
      ghost var kept: seq<Tracker> := [];
      ghost var readings: seq<real> := [];
      ghost var i := 0;
      var j := 0;
      while j < |tracking|
        invariant 0 <= i <= |all| && j == |kept|
        invariant tracking == kept + all[i..]
        invariant data == data0 + Floats(readings)
        invariant Walk(p, all, packOk, |data0|) == Join(kept, readings, Walk(p, all[i..], packOk, |data|))
        decreases |tracking| - j
      {
        var trk := tracking[j];
        assert trk == all[i];
        var fd := p.open(trk.file);
        var value: Option<bv64> := None;
        if fd > 0 {
          value := ReadMsr(p.pread(trk.file, PkgPowerInfo));
        }
        if value.None? {
          // cannot open or read the file: remove the tracker and go on with the next
          EvictStep(p, all, i, packOk, |data|, kept, readings, Walk(p, all, packOk, |data0|));
          tracking := tracking[..j] + tracking[j + 1..];
          i := i + 1;
          continue;
        }
        var power := PkgPower(trk.units, value.value);
        if !packOk(|data|) {
          AbortStep(p, all, i, packOk, |data|, kept, readings, Walk(p, all, packOk, |data0|));
          return data, true;
        }
        KeepStep(p, all, i, packOk, |data|, kept, readings, Walk(p, all, packOk, |data0|));
        data := data + [F(power)];
        assert Floats(readings + [power]) == Floats(readings) + [F(power)];
        readings := readings + [power];
        kept := kept + [trk];
        j := j + 1;
        i := i + 1;
      }
      assert all[i..] == [];
      assert Walk(p, all, packOk, |data0|) == Pass(kept, readings, false) by {
        assert kept + [] == kept && readings + [] == readings;
      }
      return data, false;
    }

    /**
     * pwr_log: while logging is on, unpack hostname, core count, timestamp
     * and that many readings, and hand "ctime", "core0", ... to the store.
     * Any failed unpack drops the record; a store that refuses turns
     * logging off for good.  `stored` is the store's answer; `handed` the
     * entries given to it; `rest` what is left of the buffer.
     */
    method Log(buf: seq<Token>, stored: bool) returns (rest: seq<Token>, handed: Option<seq<KeyValue>>)
      modifies this`logEnabled
      ensures logEnabled == NextEnabled(old(logEnabled), LogCall(buf, stored))
      ensures logEnabled ==> old(logEnabled)
      ensures !old(logEnabled) ==> rest == buf && handed == None
      ensures old(logEnabled) ==>
        match Decode(buf)
        case None => handed == None && |rest| <= |buf| && rest == buf[|buf| - |rest|..]
        case Some((s, r)) => handed == Some(LogRecord(s)) && rest == r
    {
      if !logEnabled {
        return buf, None;
      }
      var pos := 0;
      var hostname := UnpackStr(buf, pos);
      if hostname.None? {
        return buf[pos..], None;
      }
      pos := pos + 1;
      var ncores := UnpackInt32(buf, pos);
      if ncores.None? {
        return buf[pos..], None;
      }
      pos := pos + 1;
      var sampletime := UnpackStr(buf, pos);
      if sampletime.None? {
        return buf[pos..], None;
      }
      pos := pos + 1;
      var n := ncores.value;
      if n < 0 {
        return buf[pos..], None;
      }
      var kv := [KeyValue(TimeKey, VStr(sampletime.value))];
      ghost var vals: seq<real> := [];
      for i := 0 to n as int
        invariant pos == 3 + i <= |buf|
        invariant buf[3..pos] == Floats(vals) && |vals| == i
        invariant kv == LogRecord(SampleCodec.Sample(hostname.value, n, sampletime.value, vals))
      {
        var key := CoreKey(i);
        var fval := UnpackFloat(buf, pos);
        if fval.None? {
          assert UnpackFloat(buf[3..], i) == fval;
          DecodeFloatsFailsAt(buf[3..], n as nat, i);
          return buf[pos..], None;
        }
        assert buf[3..pos + 1] == buf[3..pos] + [buf[pos]];
        pos := pos + 1;
        kv := kv + [KeyValue(key, VFloat(fval.value))];
        vals := vals + [fval.value];
      }
      var s := SampleCodec.Sample(hostname.value, n, sampletime.value, vals);
      assert buf == Encode(s) + buf[pos..];
      DecodeEncode(s, buf[pos..]);
      handed := Some(kv);
      if !stored {
        logEnabled := false;
      }
      rest := buf[pos..];
    }
  }
}
