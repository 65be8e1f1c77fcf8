/** Printing and parsing of 64-bit amounts with a unit: times with factor 1000, memory sizes with factor 1024. */
module Units {
  import opened Models

  /** Four units, each `factor` times the one before; the first may be left out when parsing. */
  datatype System = System(factor: nat, u0: string, u1: string, u2: string, u3: string)

  const TimeUnits: System := System(1000, "ns", "us", "ms", "s")
  const MemoryUnits: System := System(1024, "b", "k", "m", "g")

  predicate IsSystem(u: System) {
    u == TimeUnits || u == MemoryUnits
  }

  function Name(u: System, k: nat): string
    requires k < 4
  {
    if k == 0 then u.u0 else if k == 1 then u.u1 else if k == 2 then u.u2 else u.u3
  }

  // ---------- characters and decimal numbers ----------

  predicate IsDigit(c: char) {
    '0' <= c <= '9'
  }

  /** Lower case, as far as it can produce a letter of a unit: A to Z, and the Kelvin sign. */
  function LowerChar(c: char): char {
    if 'A' <= c <= 'Z' then c - 'A' + 'a' else if c == '\U{212A}' then 'k' else c
  }

  function Lower(s: string): (r: string)
    ensures |r| == |s| && forall i :: 0 <= i < |s| ==> r[i] == LowerChar(s[i])
  {
    seq(|s|, i requires 0 <= i < |s| => LowerChar(s[i]))
  }

  function DigitOf(c: char): nat
    requires IsDigit(c)
  {
    (c - '0') as nat
  }

  predicate AllDigits(s: string) {
    forall i :: 0 <= i < |s| ==> IsDigit(s[i])
  }

  function Number(s: string): nat
    requires AllDigits(s)
  {
    if s == "" then 0 else 10 * Number(s[..|s| - 1]) + DigitOf(s[|s| - 1])
  }

  function Decimal(v: nat): string {
    if v < 10 then [v as char + '0'] else Decimal(v / 10) + [(v % 10) as char + '0']
  }

  lemma {:induction false} NumberOfDecimal(v: nat)
    ensures |Decimal(v)| > 0 && AllDigits(Decimal(v)) && Number(Decimal(v)) == v
  {
    var s := Decimal(v);
    if v >= 10 {
      NumberOfDecimal(v / 10);
      assert s[..|s| - 1] == Decimal(v / 10);
    } else {
      assert s[..|s| - 1] == "";
    }
  }

  // ---------- parsing ----------

  /** The number of leading digits, counted from position k. */
  function DigitsFrom(s: string, k: nat): (n: nat)
    requires k <= |s|
    ensures k <= n <= |s| && (n < |s| ==> !IsDigit(s[n])) && forall i :: k <= i < n ==> IsDigit(s[i])
    decreases |s| - k
  {
    if k < |s| && IsDigit(s[k]) then DigitsFrom(s, k + 1) else k
  }

  datatype Separated = Malformed | Separated(number: nat, suffix: string)

  /** ParseUint accepts non-empty numbers below 2^64. */
  function Separate(s: string): Separated {
    var t := Lower(s);
    var n := DigitsFrom(t, 0);
    if n == 0 || Number(t[..n]) >= TWO_TO_64 then Malformed else Separated(Number(t[..n]), t[n..])
  }

  /** Which unit a suffix names; no suffix means the first unit. */
  function UnitOf(u: System, suffix: string): Option<nat> {
    if suffix == "" || suffix == u.u0 then Some(0)
    else if suffix == u.u3 then Some(3)
    else if suffix == u.u2 then Some(2)
    else if suffix == u.u1 then Some(1)
    else None
  }

  /** k multiplications of 64-bit numbers. */
  function Scale(v: nat, factor: nat, k: nat): nat
    decreases k
  {
    if k == 0 then v else Scale(v * factor % TWO_TO_64, factor, k - 1)
  }

  function Parse(u: System, s: string): Option<nat> {
    match Separate(s)
    case Malformed => None
    case Separated(number, suffix) =>
      match UnitOf(u, suffix)
      case None => None
      case Some(k) => Some(Scale(number, u.factor, k))
  }

  // ---------- printing ----------

  function Power(f: nat, k: nat): (r: nat)
    ensures f > 0 ==> r > 0
  {
    if k == 0 then 1 else f * Power(f, k - 1)
  }

  /** How often, up to k times, v can be divided by the factor without remainder. */
  function Divisions(v: nat, factor: nat, k: nat): (n: nat)
    requires factor > 0
    ensures n <= k
    decreases k
  {
    if k == 0 || v % factor != 0 then 0 else 1 + Divisions(v / factor, factor, k - 1)
  }

  function Print(u: System, v: nat): string
    requires IsSystem(u)
  {
    var k := Divisions(v, u.factor, 3);
    Decimal(v / Power(u.factor, k)) + Name(u, k)
  }

  // ---------- print picks the largest unit ----------

  predicate Divides(d: nat, v: nat) {
    d > 0 && v % d == 0
  }

  lemma PowersAreKnown(u: System)
    requires IsSystem(u)
    ensures u == TimeUnits ==> Power(u.factor, 0) == 1 && Power(u.factor, 1) == 1000
                               && Power(u.factor, 2) == 1_000_000 && Power(u.factor, 3) == 1_000_000_000
    ensures u == MemoryUnits ==> Power(u.factor, 0) == 1 && Power(u.factor, 1) == 1024
                                 && Power(u.factor, 2) == 1_048_576 && Power(u.factor, 3) == 1_073_741_824
  {
    var f := u.factor;
    assert Power(f, 1) == f * Power(f, 0) && Power(f, 2) == f * Power(f, 1) && Power(f, 3) == f * Power(f, 2);
  }

  lemma Ordered(a: nat, b: nat, d: nat)
    ensures a <= b ==> a * d <= b * d
    ensures (a + 1) * d == a * d + d
  {
  }

  lemma MultipleDivides(a: nat, d: nat, v: nat)
    requires d > 0 && v == a * d
    ensures v / d == a && v % d == 0
  {
    var q, r := v / d, v % d;
    assert v == q * d + r && 0 <= r < d;
    Ordered(q + 1, a, d);
    Ordered(q, a, d);
    Ordered(a + 1, q, d);
  }

  lemma Regroup(a: nat, f: nat, p: nat)
    ensures a * (f * p) == (a * p) * f && a * (f * p) == (a * f) * p
  {
  }

  lemma {:induction false} DivisionsAreExact(v: nat, f: nat, k: nat)
    requires f > 0
    ensures Power(f, Divisions(v, f, k)) > 0
    ensures v == v / Power(f, Divisions(v, f, k)) * Power(f, Divisions(v, f, k))
    decreases k
  {
    if k > 0 && v % f == 0 {
      var w := v / f;
      DivisionsAreExact(w, f, k - 1);
      OneMore(v, f, Power(f, Divisions(w, f, k - 1)));
    }
  }

  lemma OneMore(v: nat, f: nat, q: nat)
    requires f > 0 && q > 0 && v % f == 0 && v / f == v / f / q * q
    ensures f * q > 0 && v == v / (f * q) * (f * q)
  {
    var a := v / f / q;
    assert v == v / f * f;
    Regroup(a, f, q);
    MultipleDivides(a, f * q, v);
  }

  /** No larger listed unit divides the amount. */
  lemma {:induction false} NoLargerUnitDivides(v: nat, f: nat, k: nat, j: nat)
    requires f > 0 && Divisions(v, f, k) < j <= k
    ensures !Divides(Power(f, j), v)
    decreases k
  {
    if v % f == 0 {
      NoLargerUnitDivides(v / f, f, k - 1, j - 1);
    }
    if Divides(Power(f, j), v) {
      OneFewer(v, f, Power(f, j - 1));
    }
  }

  lemma OneFewer(v: nat, f: nat, p: nat)
    requires f > 0 && Divides(f * p, v)
    ensures v % f == 0 && Divides(p, v / f)
  {
    var a := v / (f * p);
    assert v == a * (f * p);
    Regroup(a, f, p);
    MultipleDivides(a * p, f, v);
    assert p > 0;
    MultipleDivides(a, p, v / f);
  }

  /** String prints the number of the largest listed unit that divides the amount. */
  lemma PrintPicksTheLargestUnit(u: System, v: nat)
    requires IsSystem(u)
    ensures var k := Divisions(v, u.factor, 3);
            && Divides(Power(u.factor, k), v)
            && (forall j :: k < j <= 3 ==> !Divides(Power(u.factor, j), v))
            && Print(u, v) == Decimal(v / Power(u.factor, k)) + Name(u, k)
  {
    var k := Divisions(v, u.factor, 3);
    DivisionsAreExact(v, u.factor, 3);
    MultipleDivides(v / Power(u.factor, k), Power(u.factor, k), v);
    forall j | k < j <= 3
      ensures !Divides(Power(u.factor, j), v)
    {
      NoLargerUnitDivides(v, u.factor, 3, j);
    }
  }

  // ---------- parsing scales modulo 2^64 ----------

  lemma ModOfProduct(a: nat, f: nat)
    ensures a % TWO_TO_64 * f % TWO_TO_64 == a * f % TWO_TO_64
  {
    var q, r := a / TWO_TO_64, a % TWO_TO_64;
    assert a == q * TWO_TO_64 + r;
    assert a * f == (q * f) * TWO_TO_64 + r * f;
    ModOfSum(q * f, r * f);
  }

  lemma ModOfSum(q: nat, r: nat)
    ensures (q * TWO_TO_64 + r) % TWO_TO_64 == r % TWO_TO_64
  {
  }

  lemma {:induction false} ScaleIsModular(v: nat, f: nat, k: nat)
    ensures k > 0 ==> Scale(v, f, k) == v * Power(f, k) % TWO_TO_64
    ensures k == 0 ==> Scale(v, f, k) == v && v * Power(f, k) == v
    decreases k
  {
    if k == 1 {
      assert Power(f, 1) == f * Power(f, 0);
      assert Scale(v * f % TWO_TO_64, f, 0) == v * f % TWO_TO_64;
    } else if k > 1 {
      var p := Power(f, k - 1);
      ScaleIsModular(v * f % TWO_TO_64, f, k - 1);
      ModOfProduct(v * f, p);
      assert v * f * p == v * (f * p);
    }
  }

  /** A parsed amount is the number times its unit exactly when that fits in 64 bits; otherwise it has wrapped
      around. */
  lemma ParsingIsExactWhenItFits(u: System, s: string)
    requires IsSystem(u) && Parse(u, s).Some?
    ensures Separate(s).Separated? && UnitOf(u, Separate(s).suffix).Some?
    ensures var exact := Separate(s).number * Power(u.factor, UnitOf(u, Separate(s).suffix).value);
            && Parse(u, s).value == exact % TWO_TO_64
            && (Parse(u, s).value == exact <==> exact < TWO_TO_64)
  {
    var n, k := Separate(s).number, UnitOf(u, Separate(s).suffix).value;
    hide Separate, UnitOf;
    ScaleIsModular(n, u.factor, k);
    SeparatedIsSmall(s);
    hide *;
    WrapsExactly(n * Power(u.factor, k));
  }

  lemma SeparatedIsSmall(s: string)
    ensures Separate(s).Separated? ==> Separate(s).number < TWO_TO_64
  {
  }

  lemma WrapsExactly(n: nat)
    ensures n % TWO_TO_64 == n <==> n < TWO_TO_64
  {
  }

  // ---------- round trip ----------

  lemma LowerKeepsPrinted(digits: string, suffix: string)
    requires AllDigits(digits) && Lower(suffix) == suffix
    ensures Lower(digits + suffix) == digits + suffix
  {
  }

  lemma {:induction false} DigitsEnd(digits: string, suffix: string, k: nat)
    requires AllDigits(digits) && k <= |digits| && (suffix != "" ==> !IsDigit(suffix[0]))
    ensures DigitsFrom(digits + suffix, k) == |digits|
    decreases |digits| - k
  {
    if k < |digits| {
      DigitsEnd(digits, suffix, k + 1);
    }
  }

  lemma SeparatePrinted(v: nat, suffix: string)
    requires v < TWO_TO_64 && Lower(suffix) == suffix && (suffix != "" ==> !IsDigit(suffix[0]))
    ensures Separate(Decimal(v) + suffix) == Separated(v, suffix)
  {
    var digits := Decimal(v);
    NumberOfDecimal(v);
    LowerKeepsPrinted(digits, suffix);
    DigitsEnd(digits, suffix, 0);
    assert (digits + suffix)[..|digits|] == digits && (digits + suffix)[|digits|..] == suffix;
  }

  lemma UnitsAreWellNamed(u: System, k: nat)
    requires IsSystem(u) && k < 4
    ensures Lower(Name(u, k)) == Name(u, k) && Name(u, k) != "" && !IsDigit(Name(u, k)[0])
    ensures UnitOf(u, Name(u, k)) == Some(k)
  {
    assert |u.u0| > 0 && |u.u1| > 0 && |u.u2| > 0 && |u.u3| > 0;
    assert u.u0[0] != u.u1[0] && u.u0[0] != u.u2[0] && u.u0[0] != u.u3[0];
    assert u == TimeUnits ==> |u.u3| == 1 && |u.u2| == 2 && |u.u1| == 2 && u.u2[0] != u.u1[0];
    assert u == MemoryUnits ==> u.u1[0] != u.u2[0] && u.u2[0] != u.u3[0] && u.u1[0] != u.u3[0];
  }

  lemma PrintedParses(u: System, n: nat, k: nat)
    requires IsSystem(u) && n < TWO_TO_64 && k < 4
    ensures Parse(u, Decimal(n) + Name(u, k)) == Some(Scale(n, u.factor, k))
  {
    UnitsAreWellNamed(u, k);
    hide Decimal, Separate, UnitOf, Name, Scale;
    SeparatePrinted(n, Name(u, k));
  }

  /** What String prints, FromStr reads back, for every 64-bit amount. */
  lemma RoundTrip(u: System, v: nat)
    requires IsSystem(u) && v < TWO_TO_64
    ensures Parse(u, Print(u, v)) == Some(v)
  {
    hide Parse, Decimal, Divisions, Name, Power, Scale;
    var k := Divisions(v, u.factor, 3);
    DivisionsAreExact(v, u.factor, 3);
    var n := v / Power(u.factor, k);
    Grows(n, Power(u.factor, k));
    PrintedParses(u, n, k);
    ScaleIsModular(n, u.factor, k);
  }

  lemma Grows(n: nat, p: nat)
    requires p > 0
    ensures n <= n * p
  {
  }

  /** Upper case does not matter. */
  lemma CaseDoesNotMatter(u: System, s: string)
    ensures Parse(u, Lower(s)) == Parse(u, s)
  {
    assert Lower(Lower(s)) == Lower(s);
  }

  // ---------- what the units mean ----------

  lemma LowerOfWhole(digits: string, suffix: string)
    requires AllDigits(digits)
    ensures Lower(digits + suffix) == digits + Lower(suffix)
    ensures suffix != "" && !IsDigit(suffix[0]) ==> !IsDigit(Lower(suffix)[0])
  {
  }

  /** An amount is read as its leading digits and the rest in lower case, if the digits are a 64-bit number. */
  lemma SplitIsExact(digits: string, suffix: string)
    requires AllDigits(digits) && (suffix != "" ==> !IsDigit(suffix[0]))
    ensures Separate(digits + suffix) ==
            if digits == "" || Number(digits) >= TWO_TO_64 then Malformed else Separated(Number(digits), Lower(suffix))
  {
    LowerOfWhole(digits, suffix);
    hide Lower, Number;
    var lower := Lower(suffix);
    DigitsEnd(digits, lower, 0);
    assert (digits + lower)[..|digits|] == digits && (digits + lower)[|digits|..] == lower;
  }

  lemma ScaleByUnit(n: nat, factor: nat)
    ensures Scale(n, factor, 0) == n && Scale(n, factor, 1) == n * factor % TWO_TO_64
    ensures Scale(n, factor, 2) == n * (factor * factor) % TWO_TO_64
    ensures Scale(n, factor, 3) == n * (factor * factor * factor) % TWO_TO_64
  {
    ScaleIsModular(n, factor, 0);
    ScaleIsModular(n, factor, 1);
    ScaleIsModular(n, factor, 2);
    ScaleIsModular(n, factor, 3);
    hide Scale;
    var p := Power(factor, 0);
    assert p == 1 && Power(factor, 1) == factor && Power(factor, 2) == factor * factor;
    assert Power(factor, 3) == factor * (factor * factor) == factor * factor * factor;
  }

  /** Every string is leading digits and a rest, and as a time it is that many nanoseconds, microseconds, milliseconds
      or seconds, modulo 2^64. */
  lemma TimesAreRead(digits: string, suffix: string)
    requires AllDigits(digits) && (suffix != "" ==> !IsDigit(suffix[0]))
    ensures Parse(TimeUnits, digits + suffix) ==
            if digits == "" || Number(digits) >= TWO_TO_64 then None
            else
              var n, unit := Number(digits), Lower(suffix);
              if unit == "" || unit == "ns" then Some(n)
              else if unit == "us" then Some(n * 1000 % TWO_TO_64)
              else if unit == "ms" then Some(n * 1000000 % TWO_TO_64)
              else if unit == "s" then Some(n * 1000000000 % TWO_TO_64)
              else None
  {
    SplitIsExact(digits, suffix);
    ScaleByUnit(Number(digits), 1000);
    hide Separate, Number, Lower, Scale, TWO_TO_64;
  }

  /** As a memory size it is that many bytes, kibibytes, mebibytes or gibibytes, modulo 2^64. */
  lemma MemorySizesAreRead(digits: string, suffix: string)
    requires AllDigits(digits) && (suffix != "" ==> !IsDigit(suffix[0]))
    ensures Parse(MemoryUnits, digits + suffix) ==
            if digits == "" || Number(digits) >= TWO_TO_64 then None
            else
              var n, unit := Number(digits), Lower(suffix);
              if unit == "" || unit == "b" then Some(n)
              else if unit == "k" then Some(n * 1024 % TWO_TO_64)
              else if unit == "m" then Some(n * 1048576 % TWO_TO_64)
              else if unit == "g" then Some(n * 1073741824 % TWO_TO_64)
              else None
  {
    SplitIsExact(digits, suffix);
    ScaleByUnit(Number(digits), 1024);
    hide Separate, Number, Lower, Scale, TWO_TO_64;
  }

  lemma NumberOfTwoDigits(s: string)
    requires |s| == 2 && AllDigits(s)
    ensures Number(s) == 10 * DigitOf(s[0]) + DigitOf(s[1])
  {
    assert s[..1][..0] == "" && s[..1][0] == s[0];
    assert Number(s[..1]) == 10 * Number("") + DigitOf(s[0]);
  }

  lemma LowerUnits()
    ensures Lower("S") == "s" && Lower("ms") == "ms" && Lower("g") == "g"
  {
  }

  /** The amounts the documentation gives as examples. */
  lemma DocumentedAmounts()
    ensures Parse(TimeUnits, "10S") == Some(10000000000)
    ensures Parse(TimeUnits, "05ms") == Some(5000000)
    ensures Parse(MemoryUnits, "10g") == Some(10737418240)
  {
    hide Parse, Number, Lower;
    LowerUnits();
    NumberOfTwoDigits("10");
    NumberOfTwoDigits("05");
    assert "10" + "S" == "10S" && "05" + "ms" == "05ms" && "10" + "g" == "10g";
    TimesAreRead("10", "S");
    TimesAreRead("05", "ms");
    MemorySizesAreRead("10", "g");
  }
}
