/**
 * Names under /dev/cpu: which directory entries discovery treats as cores,
 * the core number it reads from an entry name, the register file path it
 * builds, and the "core<i>" keys the log side writes.
 */
module CoreNames {

  const DevCpu: string := "/dev/cpu"
  const MsrLeaf: string := "msr"

  predicate IsDigit(c: char) {
    '0' <= c <= '9'
  }

  /** strncmp(name, p, strlen(p)) == 0 on a NUL-terminated name: p is a prefix of name. */
  predicate HasPrefix(name: string, p: string) {
    p <= name
  }

  /** The "skip the obvious" test of discovery: the entry starts with "." or with "..". */
  predicate IsDotEntry(name: string) {
    HasPrefix(name, ".") || HasPrefix(name, "..")
  }

  /**
   * Both prefix tests compare only as far as their pattern, so the pair
   * amounts to "the first character is a dot": ".", "..", ".foo" alike.
   */
  lemma DotEntryIsLeadingDot(name: string)
    ensures IsDotEntry(name) <==> |name| > 0 && name[0] == '.'
  {
    if |name| > 0 && name[0] == '.' {
      assert name[..1] == ".";
    }
  }

  /**
   * The entry filter of discovery: not a dot entry and the last character
   * is a decimal digit.  An empty name is not a core entry.
   */
  predicate IsCoreEntry(name: string) {
    !IsDotEntry(name) && |name| > 0 && IsDigit(name[|name| - 1])
  }

  /** An entry is kept exactly when it is non-empty, starts with no dot and ends in a digit. */
  lemma CoreEntryFilter(name: string)
    ensures IsCoreEntry(name) <==> |name| > 0 && name[0] != '.' && IsDigit(name[|name| - 1])
  {
    DotEntryIsLeadingDot(name);
  }

  /** The longest run of decimal digits at the start of `s`. */
  function DigitPrefix(s: string): (p: string)
    ensures p <= s
    ensures forall i :: 0 <= i < |p| ==> IsDigit(p[i])
    ensures |p| < |s| ==> !IsDigit(s[|p|])
  {
    if |s| == 0 || !IsDigit(s[0]) then [] else [s[0]] + DigitPrefix(s[1..])
  }

  predicate AllDigits(s: string) {
    forall i :: 0 <= i < |s| ==> IsDigit(s[i])
  }

  function DigitValue(c: char): nat
    requires IsDigit(c)
  {
    c as int - '0' as int
  }

  function DigitChar(d: nat): (c: char)
    requires d < 10
    ensures IsDigit(c) && DigitValue(c) == d
  {
    ('0' as int + d) as char
  }

  /** The number a string of decimal digits denotes. */
  function DecimalValue(ds: string): nat
    requires AllDigits(ds)
  {
    if ds == [] then 0 else DecimalValue(ds[..|ds| - 1]) * 10 + DigitValue(ds[|ds| - 1])
  }

  /**
   * strtoul(name, NULL, 10) for the names the filter lets through: the value
   * of the leading digits, 0 when there are none.
   */
  function LeadingNumber(name: string): nat {
    DecimalValue(DigitPrefix(name))
  }

  /** printf's "%d" for a non-negative number: no sign and no leading zero. */
  function DecimalString(n: nat): (s: string)
    ensures |s| > 0 && AllDigits(s)
    ensures |s| > 1 ==> s[0] != '0'
  {
    if n < 10 then [DigitChar(n)] else DecimalString(n / 10) + [DigitChar(n % 10)]
  }

  /** Parsing the decimal form of a number gives back that number. */
  lemma {:induction false} DecimalRoundTrip(n: nat)
    ensures DecimalValue(DecimalString(n)) == n
  {
    if n >= 10 {
      var s := DecimalString(n);
      assert s[..|s| - 1] == DecimalString(n / 10);
      DecimalRoundTrip(n / 10);
    }
  }

  /** The digit prefix of a digit string followed by a non-digit is that digit string. */
  lemma {:induction false} DigitPrefixOfDigits(ds: string, suffix: string)
    requires AllDigits(ds)
    requires suffix == [] || !IsDigit(suffix[0])
    ensures DigitPrefix(ds + suffix) == ds
  {
    if ds != [] {
      assert (ds + suffix)[1..] == ds[1..] + suffix;
      DigitPrefixOfDigits(ds[1..], suffix);
    }
  }

  /**
   * An entry named by a core number, possibly followed by a non-digit tail,
   * is read back as that core number.
   */
  lemma LeadingNumberOfDecimal(n: nat, suffix: string)
    requires suffix == [] || !IsDigit(suffix[0])
    ensures LeadingNumber(DecimalString(n) + suffix) == n
  {
    DigitPrefixOfDigits(DecimalString(n), suffix);
    DecimalRoundTrip(n);
  }

  /** The usual per-core entries "0", "1", ... pass the filter and name their own core. */
  lemma CpuEntryIsCore(n: nat)
    ensures IsCoreEntry(DecimalString(n))
    ensures LeadingNumber(DecimalString(n)) == n
  {
    var s := DecimalString(n);
    DotEntryIsLeadingDot(s);
    LeadingNumberOfDecimal(n, []);
    assert s + [] == s;
  }

  /** Two different numbers never print the same. */
  lemma DecimalStringInjective(i: nat, j: nat)
    requires DecimalString(i) == DecimalString(j)
    ensures i == j
  {
    DecimalRoundTrip(i);
    DecimalRoundTrip(j);
  }

  /** opal_os_path(false, "/dev/cpu", name, "msr", NULL). */
  function MsrPath(name: string): string {
    DevCpu + "/" + name + "/" + MsrLeaf
  }

  /** Different entries have different register files. */
  lemma MsrPathInjective(a: string, b: string)
    requires MsrPath(a) == MsrPath(b)
    ensures a == b
  {
    var pa, pb := MsrPath(a), MsrPath(b);
    assert |a| == |b|;
    forall i | 0 <= i < |a|
      ensures a[i] == b[i]
    {
      assert pa[9 + i] == a[i] && pb[9 + i] == b[i];
    }
  }

  /** The key of the i-th reading in a log record: "core%d". */
  function CoreKey(i: nat): string {
    "core" + DecimalString(i)
  }

  const TimeKey: string := "ctime"

  /** Distinct readings get distinct keys, and none of them is the time key. */
  lemma CoreKeysDistinct(i: nat, j: nat)
    ensures CoreKey(i) == CoreKey(j) <==> i == j
    ensures CoreKey(i) != TimeKey
  {
    if CoreKey(i) == CoreKey(j) {
      assert DecimalString(i) == CoreKey(i)[4..];
      assert DecimalString(j) == CoreKey(j)[4..];
      DecimalStringInjective(i, j);
    }
    assert CoreKey(i)[1] == 'o';
  }
}
