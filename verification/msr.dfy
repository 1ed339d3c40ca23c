/**
 * The model-specific registers the power sensor reads through a core's
 * msr device file, and the arithmetic that turns their raw contents into
 * watts.  Register layout follows the RAPL interface of the Intel 64 and
 * IA-32 Architectures Software Developer's Manual, Volume 3B:
 * MSR_RAPL_POWER_UNIT (0x606) holds the power unit exponent in bits 3:0,
 * MSR_PKG_POWER_INFO (0x614) the Thermal Spec Power in bits 14:0.
 */
module Msr {
  import opened Wrappers

  const RaplPowerUnit: int := 0x606
  const PkgPowerInfo: int := 0x614
  const PowerUnitMask: bv64 := 0x0F
  const ThermalSpecPowerMask: bv64 := 0x7FFF

  /** The smallest calibration unit, 0.5^15. */
  const MinUnits: real := 1.0 / 32768.0

  /** The eight bytes of a register value as they lie in memory, least significant first. */
  function RegisterBytes(v: bv64): (b: seq<bv8>)
    ensures |b| == 8
  {
    [(v & 0xFF) as bv8, ((v >> 8) & 0xFF) as bv8, ((v >> 16) & 0xFF) as bv8, ((v >> 24) & 0xFF) as bv8,
     ((v >> 32) & 0xFF) as bv8, ((v >> 40) & 0xFF) as bv8, ((v >> 48) & 0xFF) as bv8, ((v >> 56) & 0xFF) as bv8]
  }

  /** The 64-bit value whose in-memory bytes are `b`. */
  function LittleEndian(b: seq<bv8>): bv64
    requires |b| == 8
  {
    (b[0] as bv64) | (b[1] as bv64 << 8) | (b[2] as bv64 << 16) | (b[3] as bv64 << 24)
    | (b[4] as bv64 << 32) | (b[5] as bv64 << 40) | (b[6] as bv64 << 48) | (b[7] as bv64 << 56)
  }

  /**
   * read_msr: `bytes` is what the positioned read of eight bytes returned.
   * The read succeeds exactly when all eight came back, and the value is
   * the register whose bytes they are.
   */
  function ReadMsr(bytes: seq<bv8>): (r: Option<bv64>)
    ensures r.Some? <==> |bytes| == 8
    ensures r.Some? ==> RegisterBytes(r.value) == bytes
  {
    if |bytes| != 8 then None else Some(LittleEndian(bytes))
  }

  /** Reading back the bytes of a register yields that register. */
  lemma ReadMsrRoundTrip(v: bv64)
    ensures ReadMsr(RegisterBytes(v)) == Some(v)
  {
  }

  function Pow2(k: nat): (p: nat)
    ensures p >= 1
  {
    if k == 0 then 1 else 2 * Pow2(k - 1)
  }

  lemma {:induction false} Pow2Monotone(j: nat, k: nat)
    requires j <= k
    ensures Pow2(j) <= Pow2(k)
  {
    if j < k {
      Pow2Monotone(j, k - 1);
    }
  }

  /** The power unit exponent: bits 3:0 of MSR_RAPL_POWER_UNIT. */
  function UnitBits(raw: bv64): (k: nat)
    ensures k < 16
  {
    (raw & PowerUnitMask) as nat
  }

  /** The calibration unit 0.5^k, kept exactly as 1/2^k. */
  function Units(raw: bv64): (u: real)
    ensures u > 0.0
  {
    1.0 / Pow2(UnitBits(raw)) as real
  }

  /** Every calibration unit lies between 0.5^15 and 1. */
  lemma UnitsRange(raw: bv64)
    ensures MinUnits <= Units(raw) <= 1.0
  {
    var k := UnitBits(raw);
    Pow2Monotone(k, 15);
    Pow2Fifteen();
    var x := Pow2(k) as real;
    assert 1.0 <= x <= 32768.0;
    assert 1.0 / 32768.0 <= 1.0 / x <= 1.0;
  }

  lemma Pow2Fifteen()
    ensures Pow2(15) == 32768
  {
    assert Pow2(3) == 8;
    assert Pow2(6) == 64;
    assert Pow2(9) == 512;
    assert Pow2(12) == 4096;
  }

  /** Units depend on the low four bits of the register only. */
  lemma UnitsLowBitsOnly(a: bv64, b: bv64)
    requires a & PowerUnitMask == b & PowerUnitMask
    ensures Units(a) == Units(b)
  {
  }

  /** Each further exponent step halves the unit. */
  lemma UnitsHalve(raw: bv64)
    requires UnitBits(raw) < 15
    ensures Units(raw + 1) == Units(raw) / 2.0
  {
    assert UnitBits(raw + 1) == UnitBits(raw) + 1;
  }

  /** The Thermal Spec Power field: bits 14:0 of MSR_PKG_POWER_INFO. */
  function ThermalSpecPower(raw: bv64): (n: nat)
    ensures n <= 32767
  {
    (raw & ThermalSpecPowerMask) as nat
  }

  /** The power reading the sampler records for one core: units times the masked count. */
  function PkgPower(units: real, raw: bv64): real
  {
    Scaled(units, ThermalSpecPower(raw))
  }

  function Scaled(units: real, count: nat): real
  {
    units * count as real
  }

  /** A reading is never negative and never above 32767 units. */
  lemma PkgPowerRange(units: real, raw: bv64)
    requires units >= 0.0
    ensures 0.0 <= PkgPower(units, raw) <= 32767.0 * units
  {
    ScaledRange(units, ThermalSpecPower(raw));
  }

  lemma ScaledRange(units: real, count: nat)
    requires units >= 0.0 && count <= 32767
    ensures 0.0 <= Scaled(units, count) <= 32767.0 * units
  {
    assert units * 0.0 <= units * count as real <= units * 32767.0;
  }

  /** Unit exponent 3 gives 0.125 W, and a masked count of 100 at that unit is 12.5 W. */
  lemma CalibrationExample()
    ensures Units(3) == 0.125
    ensures PkgPower(Units(3), 100) == 12.5
    ensures PkgPower(Units(3), 0x1_0000_0064) == 12.5
  {
    assert Pow2(3) == 8;
  }
}
