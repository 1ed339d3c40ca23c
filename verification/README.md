# Power sensor model

A Dafny model of the `pwr` sensor of the ORTE sensor framework
(`orte/mca/sensor/pwr/sensor_pwr.c`). The sensor reads per-core RAPL
registers through `/dev/cpu/<n>/msr`. It has four parts:

- **Discovery (`init`).** It lists `/dev/cpu` and keeps the entries that do
  not start with a dot and that end in a digit. For each kept entry whose
  msr file opens and yields `MSR_RAPL_POWER_UNIT` (0x606), it appends a
  tracker. A tracker holds the file, the core number and the calibration
  unit 0.5^(bits 3:0).
- **Sampling (`pwr_sample`).** It packs the hostname, the current number of
  trackers and a timestamp. It then walks the tracker list in place. A
  tracker whose msr file does not open, or whose `MSR_PKG_POWER_INFO`
  (0x614) read fails, is removed. Every other tracker packs
  `units * (value & 0x7fff)`.
- **Logging (`pwr_log`).** It unpacks such a record and hands
  `ctime, core0 .. core<n-1>` to the log store. This happens only while
  the `log_enabled` flag is on. The first time the store refuses a record,
  the flag goes off for good.
- **Register read (`read_msr`).** A positioned read succeeds only when all
  eight bytes come back.

The project has five modules:

- `Wrappers` (`wrappers.dfy`): `Option`.
- `Msr` (`msr.dfy`): register offsets and masks, `read_msr`, units and power
  arithmetic. Units are exact reals `1/2^k`.
- `CoreNames` (`core_names.dfy`): the entry filter, the leading-digit parse
  (`strtoul`), the msr path and the `core%d` keys.
- `SampleCodec` (`sample_codec.dfy`): the packed record as a sequence of
  typed tokens (`Str`, `I32`, `F`), its encoding and decoding, the key/value
  record, and the logging flag over a series of calls.
- `SensorPwr` (`sensor_pwr.dfy`): the operating-system interface as a
  `Platform` value, discovery and the sampling pass as specification
  functions, and the class `PwrSensor`. The class has the fields
  `tracking: seq<Tracker>` and `logEnabled: bool`, and the methods `Init`,
  `Sample` (with its tracker loop `PackReadings`) and `Log`.

Inputs from outside the sensor are parameters:

- the directory listing: `Option<seq<string>>`, `None` when `opendir` fails;
- `open`: the descriptor it returns;
- `pread`: the bytes it returns;
- each pack's success: `packOk(k)` for the k-th token of the record;
- the transfer into the framework's samples buffer: `sendOk`;
- the answer of `opal_db.add_log`: `stored`;
- the hostname and the timestamp: plain strings.

Points of the code worth knowing, which the model follows:

- **Dot entries.** Discovery skips every entry whose first character is a
  dot (`.foo` too), not only `.` and `..`, because both `strncmp` tests
  compare only as far as their pattern (sensor_pwr.c:141-142).
- **Descriptor 0.** An `open` that returns 0 counts as a failure
  (sensor_pwr.c:157, 249).
- **Closing descriptors.** Descriptors opened by `init` are never closed;
  the sampling pass closes its descriptor after each read
  (sensor_pwr.c:259, 266, 269).
- **Core count.** The core count in a record is the list size before the
  pass (sensor_pwr.c:228). A pass that evicts a tracker therefore yields a
  record with fewer readings than its count. `PassRecordDecodes` proves
  that exactly these records never decode on the log side.

## Model

| member | source | states |
|---|---|---|
| Msr.ReadMsr | orte/mca/sensor/pwr/sensor_pwr.c:103-112 | the read succeeds iff exactly eight bytes came back; the value is the register whose in-memory bytes (`RegisterBytes`, little-endian) they are |
| Msr.ReadMsrRoundTrip | orte/mca/sensor/pwr/sensor_pwr.c:103-112 | reading the eight bytes `RegisterBytes(v)` of a register gives back `v`, so `RegisterBytes` and `LittleEndian` are inverse |
| Msr.UnitBits | orte/mca/sensor/pwr/sensor_pwr.c:77 | the power-unit field (mask 0x0F) is below 16 |
| Msr.Units | orte/mca/sensor/pwr/sensor_pwr.c:167 | the calibration unit 0.5^(raw & 0x0F) is positive |
| Msr.UnitsRange | orte/mca/sensor/pwr/sensor_pwr.c:167 | every unit lies in [2^-15, 1] |
| Msr.UnitsLowBitsOnly | orte/mca/sensor/pwr/sensor_pwr.c:167 | two registers with the same low four bits give the same unit |
| Msr.UnitsHalve | orte/mca/sensor/pwr/sensor_pwr.c:167 | raising the exponent field by one halves the unit |
| Msr.ThermalSpecPower | orte/mca/sensor/pwr/sensor_pwr.c:262 | the masked count `value & 0x7fff` is at most 32767 |
| Msr.PkgPowerRange | orte/mca/sensor/pwr/sensor_pwr.c:262 | `PkgPower`, the reading `units * (value & 0x7fff)`, lies between 0 and 32767 units |
| Msr.CalibrationExample | orte/mca/sensor/pwr/sensor_pwr.c:262 | exponent 3 gives 0.125; count 100 at that unit is 12.5, also when higher register bits are set |
| CoreNames.DotEntryIsLeadingDot | orte/mca/sensor/pwr/sensor_pwr.c:141-144 | the two `strncmp` tests skip exactly the names whose first character is a dot |
| CoreNames.DigitPrefix | orte/mca/sensor/pwr/sensor_pwr.c:153 | the prefix `LeadingNumber` parses is the longest run of digits at the start of the name |
| CoreNames.DecimalString | orte/mca/sensor/pwr/sensor_pwr.c:333 | `%d` of a non-negative number is a non-empty digit string without a leading zero |
| CoreNames.DecimalRoundTrip | orte/mca/sensor/pwr/sensor_pwr.c:333 | parsing the printed form of a number gives the number back |
| CoreNames.LeadingNumberOfDecimal | orte/mca/sensor/pwr/sensor_pwr.c:153 | `LeadingNumber` (`strtoul` base 10) of a printed number followed by a non-digit tail yields that number |
| CoreNames.CoreEntryFilter | orte/mca/sensor/pwr/sensor_pwr.c:141-149 | `IsCoreEntry`, the filter of discovery, keeps a name iff it is non-empty, does not start with a dot and ends in a digit |
| CoreNames.CpuEntryIsCore | orte/mca/sensor/pwr/sensor_pwr.c:141-153 | the entries "0", "1", ... pass the filter and name their own core |
| CoreNames.DecimalStringInjective | orte/mca/sensor/pwr/sensor_pwr.c:333 | different numbers print differently |
| CoreNames.MsrPathInjective | orte/mca/sensor/pwr/sensor_pwr.c:154 | `MsrPath`, the file `/dev/cpu/<name>/msr`, gives different entries different files |
| CoreNames.CoreKeysDistinct | orte/mca/sensor/pwr/sensor_pwr.c:326-333 | `CoreKey(i)`, the key `core%d`, is equal for two indices iff they are equal; no such key equals `ctime` |
| SampleCodec.Int32Of | orte/mca/sensor/pwr/sensor_pwr.c:228 | the `(int32_t)` cast of the list size is congruent to it modulo 2^32 |
| SampleCodec.Int32OfSmall | orte/mca/sensor/pwr/sensor_pwr.c:228 | a size below 2^31 survives the cast unchanged |
| SampleCodec.EncodeUnpacks | orte/mca/sensor/pwr/sensor_pwr.c:221-263 | `Encode` packs 3 + (number of readings) tokens; hostname, count and timestamp unpack with their types from positions 0, 1, 2, and reading i as a float from position 3 + i (the unpacks of 298, 304, 311, 336), whatever follows |
| SampleCodec.DecodeFloats | orte/mca/sensor/pwr/sensor_pwr.c:331-341 | on success exactly n floats were taken from the front; on failure the float at some position below n is missing |
| SampleCodec.DecodeFloatsFailsAt | orte/mca/sensor/pwr/sensor_pwr.c:336-339 | a missing or mistyped k-th float (k < n) fails the whole unpack |
| SampleCodec.Decode | orte/mca/sensor/pwr/sensor_pwr.c:296-341 | a decoded record is consistent (readings = count) and the buffer is its encoding followed by the rest |
| SampleCodec.DecodeEncode | orte/mca/sensor/pwr/sensor_pwr.c:221-263 | decoding the encoding of a consistent record returns that record and the tokens after it |
| SampleCodec.ShortRecordRejected | orte/mca/sensor/pwr/sensor_pwr.c:331-339 | a record with fewer readings than its count, and no float after it, does not decode |
| SampleCodec.DecodeFloatsShort | orte/mca/sensor/pwr/sensor_pwr.c:336-339 | asking for more floats than are present fails |
| SampleCodec.LogRecordEntries | orte/mca/sensor/pwr/sensor_pwr.c:324-341 | `LogRecord` has count+1 entries: `ctime` with the timestamp, then `core<i>` with reading i; keys are distinct |
| SampleCodec.NextEnabled | orte/mca/sensor/pwr/sensor_pwr.c:343-347 | one log call never turns the flag on; a call whose record the store accepts, or whose buffer does not decode, leaves it as it was |
| SampleCodec.EnabledAfter | orte/mca/sensor/pwr/sensor_pwr.c:292-347 | once off, the flag stays off over any series of calls |
| SampleCodec.EnabledAfterLatch | orte/mca/sensor/pwr/sensor_pwr.c:292-347 | after any series of log calls the flag is on iff it was on and every decoded record was accepted by the store |
| SensorPwr.ReadRegister | orte/mca/sensor/pwr/sensor_pwr.c:157-162 | a register read succeeds iff the open returns a descriptor above 0 and eight bytes come back |
| SensorPwr.TrackerFor | orte/mca/sensor/pwr/sensor_pwr.c:141-170 | an entry gives a tracker iff it does not start with a dot, ends in a digit and its 0x606 read succeeds; the tracker has the entry's msr path, leading number and unit |
| SensorPwr.Discover | orte/mca/sensor/pwr/sensor_pwr.c:136-171 | at most one tracker per entry, each with a unit in [2^-15, 1] |
| SensorPwr.DiscoverAppend | orte/mca/sensor/pwr/sensor_pwr.c:136-171 | discovery of a listing is discovery of its first part followed by that of the rest (listing order) |
| SensorPwr.DiscoverMembers | orte/mca/sensor/pwr/sensor_pwr.c:136-171 | a tracker is discovered iff some entry of the listing yields it |
| SensorPwr.IsSubsequenceReflexive | orte/mca/sensor/pwr/sensor_pwr.c:248-270 | a list with nothing removed is an order-preserving sublist of itself |
| SensorPwr.IsSubsequenceMembers | orte/mca/sensor/pwr/sensor_pwr.c:248-270 | an order-preserving sublist holds no element its list lacks |
| SensorPwr.SurvivorsSpec | orte/mca/sensor/pwr/sensor_pwr.c:248-261 | `Survivors` is an order-preserving sublist holding exactly the trackers whose 0x614 read succeeds |
| SensorPwr.ReadingsSpec | orte/mca/sensor/pwr/sensor_pwr.c:248-262 | `Readings` has one reading per survivor, equal to that survivor's reading |
| SensorPwr.SurvivorsAll | orte/mca/sensor/pwr/sensor_pwr.c:248-261 | if all trackers read, none is evicted; otherwise strictly fewer remain |
| SensorPwr.ReadingRange | orte/mca/sensor/pwr/sensor_pwr.c:262 | a reading lies in [0, 32767 * units] and so in [0, 32767] |
| SensorPwr.EvictStep | orte/mca/sensor/pwr/sensor_pwr.c:249-260 | removing an unreadable tracker leaves the rest of the pass unchanged and the list without exactly that tracker |
| SensorPwr.KeepStep | orte/mca/sensor/pwr/sensor_pwr.c:262-269 | a readable tracker whose reading packs stays listed and contributes its reading |
| SensorPwr.AbortStep | orte/mca/sensor/pwr/sensor_pwr.c:263-268 | a failed pack ends the pass with that tracker and the ones after it still listed |
| SensorPwr.WalkKeepsOrder | orte/mca/sensor/pwr/sensor_pwr.c:248-270 | `Walk`, the specification of the tracker loop, only removes trackers, keeps order and packs at most one reading per tracker |
| SensorPwr.WalkCompleted | orte/mca/sensor/pwr/sensor_pwr.c:248-270 | a `Walk` that packs all readings leaves exactly the survivors and packs exactly their readings |
| SensorPwr.WalkAborted | orte/mca/sensor/pwr/sensor_pwr.c:263-268 | a `Walk` ended by a failed pack keeps its earlier evictions: survivors before the failing tracker, then it and all after |
| SensorPwr.WalkReadingsRange | orte/mca/sensor/pwr/sensor_pwr.c:248-270 | every reading a `Walk` over well-formed trackers packs lies in [0, 32767] |
| SensorPwr.PassRecordDecodes | orte/mca/sensor/pwr/sensor_pwr.c:221-270 | `PassRecord`, the record of a completed pass, carries the pre-pass count; it decodes iff nothing was evicted, and then round-trips |
| SensorPwr.TwoCoreScenario | orte/mca/sensor/pwr/sensor_pwr.c:262 | units 0.5 and 0.25 with counts 200 and 400 give readings 100, 100, logged as ctime, core0, core1 |
| SensorPwr.PwrSensor.constructor | orte/mca/sensor/pwr/sensor_pwr.c:100-101 | logging starts enabled, with no trackers |
| SensorPwr.PwrSensor.Init | orte/mca/sensor/pwr/sensor_pwr.c:115-180 | fails with an empty list when the directory cannot be opened; otherwise the list is the discovery of the listing and success means it is non-empty |
| SensorPwr.PwrSensor.Sample | orte/mca/sensor/pwr/sensor_pwr.c:201-280 | a failed header pack changes nothing; otherwise the list becomes the pass's kept trackers, the record is sent iff no pack failed and the transfer succeeded, and every reading sent lies in [0, 32767] |
| SensorPwr.PwrSensor.PackReadings | orte/mca/sensor/pwr/sensor_pwr.c:248-270 | the in-place loop leaves the pass's kept trackers and appends its readings as floats |
| SensorPwr.PwrSensor.Log | orte/mca/sensor/pwr/sensor_pwr.c:282-358 | disabled: consumes nothing and hands nothing; enabled: hands the key/value record iff the buffer decodes; the flag only goes off, when the store refuses |

## Left out

- The `opendir`/`readdir`/`open`/`pread`/`close` calls are modelled as
  parameters (`listing`, `Platform`). No descriptor is tracked, so the
  descriptors `init` never closes, and the one an `open` returning 0
  leaks, are not modelled.
- The byte encoding of the packing library, and the outer pack of the
  record into the framework's samples buffer, are not modelled. Packing is
  a token sequence; each pack's success is the oracle `packOk`; the outer
  pack is the flag `sendOk`. Strings never unpack as NULL.
- Floating point is not modelled. `pow(0.5, k)` is the exact real `1/2^k`,
  and `float` readings are exact reals, so no 32-bit rounding.
- The wall clock, `strftime` and the hostname are opaque strings.
- Memory management is not modelled: object construction and release, the
  `kv` allocation, and the cleanup loop that destructs entries never
  constructed after a failed unpack.
- SensorPwr.PwrSensor.Log: a negative core count is treated as a decode failure. In the code
  it reaches `malloc((ncores+1) * ...)` unchecked, which is undefined
  behaviour.
- SensorPwr.PwrSensor.Log: after a failed unpack, the contract promises only that `rest` is a
  suffix of the buffer. How far a failed unpack advances the library's read
  pointer is not modelled.
- CoreNames.LeadingNumber: leading whitespace and signs, overflow to
  `ULONG_MAX`, and the cast to `int` are not modelled. The `core` field is
  never read again.
- CoreNames.IsCoreEntry: an empty entry name is treated as not a core
  entry. The code would index before its start; `readdir` never returns
  such a name.
- `start` and `stop` are not modelled because they are no-ops. Also left
  out: `finalize`, the module's function table, and the diagnostic output
  (`opal_output_verbose`, `ORTE_ERROR_LOG`).
