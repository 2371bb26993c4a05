/** Resource quantities as Kubernetes writes them ("500m", "2", "4Gi", "1.5").
    Numbers are exact: CPU in millicores, memory and storage in bytes. The
    Python code goes through int() and float(); here int() is a sign and a
    run of decimal digits, and float() additionally allows one decimal point.
    Both are read by scanners that walk the string left to right. */
module Quantity {
  import opened Wrappers

  predicate IsDigit(c: char) { '0' <= c <= '9' }

  predicate AllDigits(s: string) {
    forall i :: 0 <= i < |s| ==> IsDigit(s[i])
  }

  function DigitValue(c: char): nat
    requires IsDigit(c)
  {
    (c as int) - ('0' as int)
  }

  function DigitChar(d: nat): (c: char)
    requires d < 10
    ensures IsDigit(c) && DigitValue(c) == d
  {
    (('0' as int) + d) as char
  }

  /** The digits of s appended, most significant first, to `value`. */
  function DigitsFrom(s: string, value: nat): nat
    requires AllDigits(s)
    decreases |s|
  {
    if s == [] then value else DigitsFrom(s[1..], value * 10 + DigitValue(s[0]))
  }

  /** Value of a run of decimal digits, most significant digit first. */
  function DigitsValue(s: string): nat
    requires AllDigits(s)
  {
    DigitsFrom(s, 0)
  }

  /** One more digit at the end shifts the value by one place. */
  lemma {:induction false} DigitsFromSnoc(p: string, c: char, value: nat)
    requires AllDigits(p) && IsDigit(c)
    ensures AllDigits(p + [c])
    ensures DigitsFrom(p + [c], value) == DigitsFrom(p, value) * 10 + DigitValue(c)
  {
    if p == [] {
      assert [c][1..] == [];
    } else {
      assert (p + [c])[1..] == p[1..] + [c];
      DigitsFromSnoc(p[1..], c, value * 10 + DigitValue(p[0]));
    }
  }

  function Pow10(k: nat): (p: nat)
    ensures p >= 1
  {
    if k == 0 then 1 else 10 * Pow10(k - 1)
  }

  function Pow(b: nat, k: nat): nat {
    if k == 0 then 1 else b * Pow(b, k - 1)
  }

  predicate EndsWith(s: string, suffix: string) {
    |suffix| <= |s| && s[|s| - |suffix|..] == suffix
  }

  function DropSuffix(s: string, n: nat): string
    requires n <= |s|
  {
    s[..|s| - n]
  }

  // ---------------------------------------------------------------- int()

  /** The unsigned part of int(): nothing but digits, at least one in all;
      `value` holds the digits read so far and `count` their number. */
  function ScanInt(s: string, value: nat, count: nat): Option<nat>
    decreases |s|
  {
    if s == [] then (if count > 0 then Some(value) else None)
    else if IsDigit(s[0]) then ScanInt(s[1..], value * 10 + DigitValue(s[0]), count + 1)
    else None
  }

  /** Python int() on a string: an optional sign followed by one or more
      digits; anything else raises ValueError (None). */
  function ParseInt(s: string): (r: Option<int>)
    ensures r.Some? && |s| > 0 && s[0] == '-' ==> r.value <= 0
    ensures r.Some? && |s| > 0 && s[0] != '-' ==> r.value >= 0
  {
    if |s| > 0 && (s[0] == '+' || s[0] == '-') then
      match ScanInt(s[1..], 0, 0)
      case None => None
      case Some(m) =>
        var magnitude: int := m;
        Some(if s[0] == '-' then -magnitude else magnitude)
    else
      match ScanInt(s, 0, 0)
      case None => None
      case Some(m) => Some(m)
  }

  /** Decimal rendering of a natural number, no leading zeros. */
  function ShowNat(n: nat): (s: string)
    ensures |s| > 0
    decreases n, 1
  {
    if n < 10 then [DigitChar(n)] else ShowDigits(n)
  }

  /** ShowNat of a number with two or more digits: the rendering of all but
      the last digit, then the last digit. */
  function ShowDigits(n: nat): (s: string)
    requires n >= 10
    ensures |s| > 0
    decreases n, 0
  {
    ShowNat(n / 10) + [DigitChar(n % 10)]
  }

  /** ShowNat writes only digits, and their value is the number shown. */
  lemma {:induction false} ShowNatDigits(n: nat)
    ensures AllDigits(ShowNat(n))
    ensures DigitsValue(ShowNat(n)) == n
    decreases n
  {
    if n < 10 {
      DigitsFromSnoc([], DigitChar(n), 0);
      assert [] + [DigitChar(n)] == ShowNat(n);
    } else {
      ShowNatDigits(n / 10);
      DigitsFromSnoc(ShowNat(n / 10), DigitChar(n % 10), 0);
    }
  }

  function ShowInt(i: int): (s: string)
    ensures |s| > 0
  {
    if i < 0 then "-" + ShowNat(-i) else ShowNat(i)
  }

  // ---------------------------------------------------------------- float()

  /** An exact decimal number: (negative ? -1 : 1) * digits / 10^scale. */
  datatype Decimal = Decimal(negative: bool, digits: nat, scale: nat)

  /** The unsigned part of float(): digits with at most one '.', at least
      one digit in all ("7", "1.5", "2.", ".5"). `value` holds the digits
      read so far, `dot` whether the '.' was passed, `fraction` the digits
      read after it and `count` all digits read. */
  function ScanDecimal(s: string, value: nat, dot: bool, fraction: nat, count: nat): (r: Option<Decimal>)
    ensures r.Some? ==> !r.value.negative
    decreases |s|
  {
    if s == [] then (if count > 0 then Some(Decimal(false, value, fraction)) else None)
    else if IsDigit(s[0]) then
      ScanDecimal(s[1..], value * 10 + DigitValue(s[0]), dot, if dot then fraction + 1 else fraction, count + 1)
    else if s[0] == '.' && !dot then ScanDecimal(s[1..], value, true, fraction, count)
    else None
  }

  /** Python float() on a string, restricted to plain decimal notation. */
  function ParseDecimal(s: string): (r: Option<Decimal>)
    ensures r.Some? && |s| > 0 && s[0] != '-' ==> !r.value.negative
  {
    if |s| > 0 && (s[0] == '+' || s[0] == '-') then
      match ScanDecimal(s[1..], 0, false, 0, 0)
      case None => None
      case Some(d) => Some(d.(negative := s[0] == '-'))
    else ScanDecimal(s, 0, false, 0, 0)
  }

  /** Both scanners read a run of digits as its value. */
  lemma {:induction false} ScanDigits(s: string, value: nat, count: nat)
    requires AllDigits(s) && count + |s| > 0
    ensures ScanInt(s, value, count) == Some(DigitsFrom(s, value))
    ensures ScanDecimal(s, value, false, 0, count) == Some(Decimal(false, DigitsFrom(s, value), 0))
  {
    if s != [] {
      ScanDigits(s[1..], value * 10 + DigitValue(s[0]), count + 1);
    }
  }

  /** After the '.', every further digit is one more place of fraction. */
  lemma {:induction false} ScanFraction(s: string, value: nat, fraction: nat, count: nat)
    requires AllDigits(s) && count + |s| > 0
    ensures ScanDecimal(s, value, true, fraction, count) == Some(Decimal(false, DigitsFrom(s, value), fraction + |s|))
  {
    if s != [] {
      ScanFraction(s[1..], value * 10 + DigitValue(s[0]), fraction + 1, count + 1);
    }
  }

  /** "w.f" is read as the digits of w and f together, scaled down by the
      number of digits of f. */
  lemma {:induction false} ScanWholeDotFraction(w: string, f: string, value: nat)
    requires AllDigits(w) && AllDigits(f) && |w| + |f| > 0
    ensures AllDigits(w + f)
    ensures ScanDecimal(w + "." + f, value, false, 0, 0) ==
            Some(Decimal(false, DigitsFrom(w + f, value), |f|))
  {
    ScanWholeDotFractionFrom(w, f, value, 0);
  }

  lemma {:induction false} ScanWholeDotFractionFrom(w: string, f: string, value: nat, count: nat)
    requires AllDigits(w) && AllDigits(f) && count + |w| + |f| > 0
    ensures AllDigits(w + f)
    ensures ScanDecimal(w + "." + f, value, false, 0, count) ==
            Some(Decimal(false, DigitsFrom(w + f, value), |f|))
    decreases |w|
  {
    if w == [] {
      assert (w + "." + f)[0] == '.' && (w + "." + f)[1..] == f && w + f == f;
      ScanFraction(f, value, 0, count);
    } else {
      assert (w + "." + f)[1..] == w[1..] + "." + f;
      assert (w + f)[1..] == w[1..] + f;
      ScanWholeDotFractionFrom(w[1..], f, value * 10 + DigitValue(w[0]), count + 1);
    }
  }

  lemma ParseShowInt(i: int)
    ensures ParseInt(ShowInt(i)) == Some(i)
  {
    var n := if i < 0 then -i else i;
    var s := ShowNat(n);
    ShowNatDigits(n);
    ScanDigits(s, 0, 0);
    assert s[0] != '+' && s[0] != '-' by { assert IsDigit(s[0]); }
    if i < 0 {
      assert ShowInt(i)[1..] == s;
    }
  }

  lemma ParseDecimalOfNat(n: nat)
    ensures ParseDecimal(ShowNat(n)) == Some(Decimal(false, n, 0))
  {
    var s := ShowNat(n);
    ShowNatDigits(n);
    assert s[0] != '+' && s[0] != '-' by { assert IsDigit(s[0]); }
    ScanDigits(s, 0, 0);
  }

  /** num / 10^k when that division is exact. */
  function DivPow10(num: nat, k: nat): Option<nat>
    decreases k, 1
  {
    if k == 0 then Some(num) else DivTen(num, k)
  }

  /** One step of DivPow10: strip a trailing zero digit. */
  function DivTen(num: nat, k: nat): Option<nat>
    requires k > 0
    decreases k, 0
  {
    if num % 10 == 0 then DivPow10(num / 10, k - 1) else None
  }

  /** The decimal times a whole multiplier, when that product is a whole
      number; None when it would need a fraction of the unit. */
  function Scaled(d: Decimal, multiplier: nat): Option<int> {
    match DivPow10(d.digits * multiplier, d.scale)
    case None => None
    case Some(q) => var magnitude: int := q; Some(if d.negative then -magnitude else magnitude)
  }

  lemma {:induction false} DivPow10Exact(num: nat, k: nat)
    ensures DivPow10(num, k).Some? ==> DivPow10(num, k).value * Pow10(k) == num
  {
    if k > 0 && num % 10 == 0 {
      DivPow10Exact(num / 10, k - 1);
      assert DivPow10(num, k) == DivPow10(num / 10, k - 1);
      if DivPow10(num, k).Some? {
        var q := DivPow10(num, k).value;
        assert q * Pow10(k - 1) == num / 10;
        assert q * Pow10(k) == q * (10 * Pow10(k - 1)) == 10 * (q * Pow10(k - 1));
      }
    }
  }

  /** What Scaled computes, when it is defined: the exact value of the
      decimal times the multiplier. */
  lemma ScaledMeaning(d: Decimal, multiplier: nat)
    ensures Scaled(d, multiplier).Some? ==>
      Scaled(d, multiplier).value * Pow10(d.scale) == (if d.negative then -1 else 1) * d.digits * multiplier
  {
    DivPow10Exact(d.digits * multiplier, d.scale);
  }

  // ---------------------------------------------------------------- operator parsers

  /** parse_cpu: a CPU quantity in millicores. Empty means 0; a trailing 'm'
      means the number is already millicores; otherwise it is in cores. */
  function ParseCpu(s: string): (r: Option<int>)
  {
    if s == [] then Some(0)
    else
      var (number, multiplier) := if EndsWith(s, "m") then (DropSuffix(s, 1), 1) else (s, 1000);
      match ParseDecimal(number)
      case None => None
      case Some(d) => Scaled(d, multiplier)
  }

  /** Canonical string for a millicore count, read back by ParseCpu. */
  function ShowCpu(millicores: int): string {
    ShowInt(millicores) + "m"
  }

  lemma ParseDecimalOfInt(i: int)
    ensures ParseDecimal(ShowInt(i)) == Some(Decimal(i < 0, if i < 0 then -i else i, 0))
  {
    ParseDecimalOfNat(if i < 0 then -i else i);
    if i < 0 {
      assert ShowInt(i)[1..] == ShowNat(-i);
      var s := ShowNat(-i);
      ShowNatDigits(-i);
      assert s[0] != '+' && s[0] != '-' by { assert IsDigit(s[0]); }
    }
  }

  lemma ParseShowCpu(millicores: int)
    ensures ParseCpu(ShowCpu(millicores)) == Some(millicores)
  {
    var s := ShowCpu(millicores);
    assert DropSuffix(s, 1) == ShowInt(millicores);
    ParseDecimalOfInt(millicores);
  }

  lemma {:induction false} ParseCpuMillicores(n: nat)
    ensures ParseCpu(ShowNat(n) + "m") == Some(n)
  {
    ParseShowCpu(n);
  }

  lemma ParseCpuCores(n: nat)
    ensures ParseCpu(ShowNat(n)) == Some(n * 1000)
  {
    var s := ShowNat(n);
    ShowNatDigits(n);
    assert !EndsWith(s, "m") by { assert IsDigit(s[|s| - 1]); }
    ParseDecimalOfNat(n);
  }

  /** The suffix table of parse_memory, in the order the dict is walked:
      binary suffixes first, then decimal ones. */
  const MemoryUnits: seq<(string, nat)> := [
    ("Ki", 0x400), ("Mi", 0x10_0000), ("Gi", 0x4000_0000),
    ("Ti", 0x100_0000_0000), ("Pi", 0x4_0000_0000_0000), ("Ei", 0x1000_0000_0000_0000),
    ("K", 1_000), ("M", 1_000_000), ("G", 1_000_000_000),
    ("T", 1_000_000_000_000), ("P", 1_000_000_000_000_000), ("E", 1_000_000_000_000_000_000)
  ]

  /** Index of the first unit of the table that s ends with. */
  function MatchUnit(s: string, units: seq<(string, nat)>): (r: Option<nat>)
    ensures r.Some? ==> r.value < |units| && EndsWith(s, units[r.value].0) &&
                        forall j :: 0 <= j < r.value ==> !EndsWith(s, units[j].0)
    ensures r.None? ==> forall j :: 0 <= j < |units| ==> !EndsWith(s, units[j].0)
  {
    if units == [] then None
    else if EndsWith(s, units[0].0) then Some(0)
    else match MatchUnit(s, units[1..])
      case None => None
      case Some(k) => Some(k + 1)
  }

  /** A unit suffix is one letter other than 'i', or two letters ending in 'i'. */
  predicate UnitShape(u: string) {
    (|u| == 1 && u[0] != 'i' && !IsDigit(u[0])) || (|u| == 2 && u[1] == 'i')
  }

  /** Every suffix of the table has the unit shape and no two are equal. */
  predicate UnitTable(units: seq<(string, nat)>) {
    (forall j :: 0 <= j < |units| ==> UnitShape(units[j].0)) &&
    (forall i, j :: 0 <= i < j < |units| ==> units[i].0 != units[j].0)
  }

  lemma EndsWithLast(s: string, b: string)
    requires 0 < |b|
    ensures EndsWith(s, b) ==> s[|s| - 1] == b[|b| - 1]
  {
  }

  lemma SuffixesExclusive(s: string, a: string, b: string)
    requires UnitShape(a) && UnitShape(b) && a != b && EndsWith(s, a)
    ensures !EndsWith(s, b)
  {
    EndsWithLast(s, a);
    EndsWithLast(s, b);
    assert |a| == |b| ==> (EndsWith(s, b) ==> a == b);
  }

  /** In a unit table, the entry a string ends with is the one MatchUnit finds. */
  lemma MatchUnitAt(s: string, units: seq<(string, nat)>, k: nat)
    requires UnitTable(units) && k < |units| && EndsWith(s, units[k].0)
    ensures MatchUnit(s, units) == Some(k)
  {
    forall j | 0 <= j < k
      ensures !EndsWith(s, units[j].0)
    {
      SuffixesExclusive(s, units[k].0, units[j].0);
    }
  }

  /** A string that ends with a digit matches no unit of a unit table. */
  lemma {:induction false} MatchUnitAfterDigit(s: string, units: seq<(string, nat)>)
    requires forall j :: 0 <= j < |units| ==> UnitShape(units[j].0)
    requires |s| > 0 && IsDigit(s[|s| - 1])
    ensures MatchUnit(s, units) == None
    decreases |units|
  {
    if units != [] {
      assert UnitShape(units[0].0);
      EndsWithLast(s, units[0].0);
      MatchUnitAfterDigit(s, units[1..]);
    }
  }

  lemma MemoryUnitsTable()
    ensures UnitTable(MemoryUnits)
    ensures forall j :: 0 <= j < |MemoryUnits| ==> MemoryUnits[j].1 > 0
  {
  }

  /** parse_memory: a memory or storage quantity in bytes. Suffixes are tried
      in table order; no suffix means a plain number of bytes. */
  function ParseMemory(s: string): (r: Option<int>)
  {
    if s == [] then Some(0)
    else match MatchUnit(s, MemoryUnits)
      case Some(k) =>
        (match ParseDecimal(DropSuffix(s, |MemoryUnits[k].0|))
         case None => None
         case Some(d) => Scaled(d, MemoryUnits[k].1))
      case None =>
        (match ParseDecimal(s)
         case None => None
         case Some(d) => Scaled(d, 1))
  }

  /** Canonical string for a byte count, read back by ParseMemory. */
  function ShowMemory(bytes: int): string {
    ShowInt(bytes)
  }

  lemma ShowIntEndsWithDigit(i: int)
    ensures IsDigit(ShowInt(i)[|ShowInt(i)| - 1])
  {
    var s := ShowInt(i);
    ShowNatDigits(if i < 0 then -i else i);
    if i < 0 {
      var t := ShowNat(-i);
      assert s[|s| - 1] == t[|t| - 1];
    }
  }

  lemma ParseShowMemory(bytes: int)
    ensures ParseMemory(ShowMemory(bytes)) == Some(bytes)
  {
    ShowIntEndsWithDigit(bytes);
    MemoryUnitsTable();
    MatchUnitAfterDigit(ShowMemory(bytes), MemoryUnits);
    ParseDecimalOfInt(bytes);
  }

  /** An amount of "0" reads as zero in both parsers. */
  lemma ParseZero()
    ensures ParseCpu("0") == Some(0) && ParseMemory("0") == Some(0)
  {
    assert ShowNat(0) == "0";
    ParseCpuCores(0);
    ParseShowMemory(0);
  }

  /** A whole amount followed by any suffix of the table is read with that
      suffix's multiplier: binary suffixes are never mistaken for decimal ones. */
  lemma ParseMemoryWithUnit(n: nat, k: nat)
    requires k < |MemoryUnits|
    ensures ParseMemory(ShowNat(n) + MemoryUnits[k].0) == Some(n * MemoryUnits[k].1)
  {
    var u := MemoryUnits[k].0;
    var s := ShowNat(n) + u;
    assert EndsWith(s, u);
    MemoryUnitsTable();
    MatchUnitAt(s, MemoryUnits, k);
    assert DropSuffix(s, |u|) == ShowNat(n);
    ParseDecimalOfNat(n);
  }

  // ---------------------------------------------------------------- utils.py validators

  /** A request value as it appears in a manifest: a string or an integer. */
  datatype Scalar = Str(s: string) | Int(i: int)

  /** Python truthiness of a request value. */
  predicate Truthy(v: Scalar) {
    match v
    case Str(s) => s != []
    case Int(i) => i != 0
  }

  const MAX_MILLICORES := 256000
  const MAX_CORES := 256
  const MAX_GPUS := 16
  const MAX_MEMORY_BYTES := Pow(1024, 4)

  /** is_valid_cpu_value. A non-string value fails on endswith and is invalid. */
  predicate IsValidCpuValue(v: Scalar) {
    match v
    case Int(_) => false
    case Str(s) =>
      if EndsWith(s, "m") then
        match ParseInt(DropSuffix(s, 1))
        case None => false
        case Some(n) => 0 < n <= MAX_MILLICORES
      else
        match ParseDecimal(s)
        case None => false
        case Some(d) => !d.negative && 0 < d.digits <= MAX_CORES * Pow10(d.scale)
  }

  /** The binary suffixes is_valid_memory_value accepts, in dict order. */
  const ValidatedMemoryUnits: seq<(string, nat)> := [
    ("Ki", 1024), ("Mi", 1024 * 1024), ("Gi", 1024 * 1024 * 1024), ("Ti", 1024 * 1024 * 1024 * 1024)
  ]

  /** is_valid_memory_value: an integer amount with one of the binary
      suffixes, at most one tebibyte; no suffix is invalid. */
  predicate IsValidMemoryValue(v: Scalar) {
    match v
    case Int(_) => false
    case Str(s) =>
      match MatchUnit(s, ValidatedMemoryUnits)
      case None => false
      case Some(k) =>
        match ParseInt(DropSuffix(s, |ValidatedMemoryUnits[k].0|))
        case None => false
        case Some(n) => 0 < n * ValidatedMemoryUnits[k].1 <= MAX_MEMORY_BYTES
  }

  /** is_valid_gpu_value: int() of the value lies in 0..16. */
  predicate IsValidGpuValue(v: Scalar) {
    match v
    case Int(i) => 0 <= i <= MAX_GPUS
    case Str(s) =>
      match ParseInt(s)
      case None => false
      case Some(n) => 0 <= n <= MAX_GPUS
  }

  lemma {:induction false} CpuMillicoresValidity(n: nat)
    ensures IsValidCpuValue(Str(ShowNat(n) + "m")) <==> 0 < n <= MAX_MILLICORES
  {
    var s := ShowNat(n) + "m";
    assert DropSuffix(s, 1) == ShowNat(n);
    ParseShowInt(n);
  }

  lemma CpuCoresValidity(n: nat)
    ensures IsValidCpuValue(Str(ShowNat(n))) <==> 0 < n <= MAX_CORES
  {
    var s := ShowNat(n);
    ShowNatDigits(n);
    assert !EndsWith(s, "m") by { assert IsDigit(s[|s| - 1]); }
    ParseDecimalOfNat(n);
  }

  /** A fractional core count is judged exactly: half a core is within the
      bound, and 256.5 cores is over it. */
  lemma HalfCoreIsValid()
    ensures IsValidCpuValue(Str("0.5"))
  {
    assert !EndsWith("0.5", "m");
    assert ParseDecimal("0.5") == Some(Decimal(false, 5, 1));
  }

  lemma OverMaxCoresIsInvalid()
    ensures !IsValidCpuValue(Str("256.5"))
  {
    assert !EndsWith("256.5", "m");
    assert ParseDecimal("256.5") == Some(Decimal(false, 2565, 1));
  }

  lemma GpuValidity(n: int)
    ensures IsValidGpuValue(Str(ShowInt(n))) <==> 0 <= n <= MAX_GPUS
    ensures IsValidGpuValue(Int(n)) <==> 0 <= n <= MAX_GPUS
  {
    ParseShowInt(n);
  }

  lemma ValidatedMemoryUnitsTable()
    ensures UnitTable(ValidatedMemoryUnits)
    ensures forall j :: 0 <= j < |ValidatedMemoryUnits| ==>
              ValidatedMemoryUnits[j].1 == Pow(1024, j + 1)
  {
    assert Pow(1024, 1) == 1024;
    assert Pow(1024, 2) == 1024 * 1024;
    assert Pow(1024, 3) == 1024 * 1024 * 1024;
    assert Pow(1024, 4) == 1024 * 1024 * 1024 * 1024;
  }

  /** Memory validity for a whole amount with binary suffix number k
      (Ki, Mi, Gi, Ti): the byte count must lie in 1..1024^4. */
  lemma MemoryValidity(n: int, k: nat)
    requires k < |ValidatedMemoryUnits|
    ensures IsValidMemoryValue(Str(ShowInt(n) + ValidatedMemoryUnits[k].0)) <==>
            0 < n * Pow(1024, k + 1) <= MAX_MEMORY_BYTES
  {
    var u := ValidatedMemoryUnits[k].0;
    var s := ShowInt(n) + u;
    assert EndsWith(s, u);
    ValidatedMemoryUnitsTable();
    MatchUnitAt(s, ValidatedMemoryUnits, k);
    assert DropSuffix(s, |u|) == ShowInt(n);
    ParseShowInt(n);
  }

  /** A plain byte count is never a valid memory value. */
  lemma MemoryNeedsBinarySuffix(n: int)
    ensures !IsValidMemoryValue(Str(ShowInt(n)))
  {
    ValidatedMemoryUnitsTable();
    ShowIntEndsWithDigit(n);
    MatchUnitAfterDigit(ShowInt(n), ValidatedMemoryUnits);
  }

  /** Nor is an amount with a decimal suffix. */
  lemma MemoryRejectsDecimalSuffix(n: int)
    ensures !IsValidMemoryValue(Str(ShowInt(n) + "G"))
  {
    var t := ShowInt(n) + "G";
    forall j | 0 <= j < |ValidatedMemoryUnits|
      ensures !EndsWith(t, ValidatedMemoryUnits[j].0)
    {
      EndsWithLast(t, ValidatedMemoryUnits[j].0);
    }
    assert MatchUnit(t, ValidatedMemoryUnits) == None;
  }

  // ---------------------------------------------------------------- stats.py

  /** _convert_memory_to_bytes: "" and "0" are 0; a Ki..Ti suffix multiplies
      an integer amount; no suffix is the integer itself; anything that int()
      rejects yields 0. */
  function ConvertMemoryToBytes(s: string): (bytes: int)
  {
    if s == [] || s == "0" then 0
    else match MatchUnit(s, ValidatedMemoryUnits)
      case Some(k) =>
        ParseInt(DropSuffix(s, |ValidatedMemoryUnits[k].0|)).GetOr(0) * ValidatedMemoryUnits[k].1
      case None => ParseInt(s).GetOr(0)
  }

  lemma ConvertMemoryToBytesWithUnit(n: int, k: nat)
    requires k < |ValidatedMemoryUnits|
    ensures ConvertMemoryToBytes(ShowInt(n) + ValidatedMemoryUnits[k].0) == n * Pow(1024, k + 1)
  {
    var u := ValidatedMemoryUnits[k].0;
    var s := ShowInt(n) + u;
    assert s[|s| - 1] == 'i';
    assert EndsWith(s, u);
    ValidatedMemoryUnitsTable();
    MatchUnitAt(s, ValidatedMemoryUnits, k);
    assert DropSuffix(s, |u|) == ShowInt(n);
    ParseShowInt(n);
  }

  lemma ConvertMemoryToBytesPlain(n: int)
    ensures ConvertMemoryToBytes(ShowInt(n)) == n
  {
    assert ParseInt("0") == Some(0);
    ValidatedMemoryUnitsTable();
    ShowIntEndsWithDigit(n);
    MatchUnitAfterDigit(ShowInt(n), ValidatedMemoryUnits);
    ParseShowInt(n);
  }

  /** A fractional amount is rejected by int() and so counts as 0 bytes. */
  lemma ConvertMemoryToBytesFraction()
    ensures ConvertMemoryToBytes("1.5Gi") == 0
  {
    var s := "1.5Gi";
    ValidatedMemoryUnitsTable();
    MatchUnitAt(s, ValidatedMemoryUnits, 2);
    assert DropSuffix(s, 2) == "1.5";
    assert ParseInt("1.5") == None;
  }
}
