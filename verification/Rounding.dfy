/** Rounding of measured times and memory, and the conversion of an invoker's report into a test result. */
module Rounding {
  import opened Models

  const TIME_FACTOR: nat := 1000
  const MEMORY_FACTOR: nat := 1024

  predicate IsFactor(f: nat) {
    f == TIME_FACTOR || f == MEMORY_FACTOR
  }

  /** The least multiple of `f` that is at least `v`. */
  function Ceil(v: nat, f: nat): (r: nat)
    requires 0 < f
  {
    (v + f - 1) / f * f
  }

  /** One pass of the loop on 64-bit values: the addition wraps around. */
  function Pass(v: nat, f: nat): (r: nat)
    requires 0 < f
  {
    var q: nat := (v + f - 1) % TWO_TO_64 / f;
    q * f
  }

  function Rounded(v: nat, f: nat): (r: nat)
    requires IsFactor(f)
  {
    if v < f then v
    else
      var once := Pass(v, f);
      if once < f * f then once else Pass(once, f * f)
  }

  /** The largest value whose two round-ups stay below 2^64. */
  function Limit(f: nat): nat
    requires IsFactor(f)
  {
    (TWO_TO_64 - f * f) / f * f
  }

  /** The two passes for any factor, whose square wraps around too; None where they divide by zero. */
  function RoundedBy(v: nat, factor: nat): (r: Option<nat>)
  {
    if v < factor then Some(v)
    else if factor == 0 then None
    else
      var once, square := Pass(v, factor), factor * factor % TWO_TO_64;
      if once < square then Some(once) else if square == 0 then None else Some(Pass(once, square))
  }

  /** None when a division by zero panics. */
  method RoundValue(v: nat, factor: nat) returns (r: Option<nat>)
    requires v < TWO_TO_64 && factor < TWO_TO_64
    ensures r == RoundedBy(v, factor)
    ensures r == None <==> v >= factor && factor * factor % TWO_TO_64 == 0
    ensures IsFactor(factor) ==> r == Some(Rounded(v, factor))
  {
    var value, roundFactor := v, factor;
    KnownFactorsAreEnough(v, factor);
    PanicsExactly(v, factor);
    for pass := 0 to 2
      invariant pass == 0 ==> value == v && roundFactor == factor
      invariant pass == 1 ==> v >= factor > 0 && value == Pass(v, factor) && roundFactor == factor * factor % TWO_TO_64
      invariant pass == 2 ==> RoundedBy(v, factor) == Some(value)
    {
      if value < roundFactor {
        return Some(value);
      }
      if roundFactor == 0 {
        return None;
      }
      value := (value + roundFactor - 1) % TWO_TO_64 / roundFactor * roundFactor;
      roundFactor := roundFactor * roundFactor % TWO_TO_64;
    }
    return Some(value);
  }

  /** The factors in use never make it panic, and their squares fit. */
  lemma KnownFactorsAreEnough(v: nat, factor: nat)
    ensures IsFactor(factor) ==> RoundedBy(v, factor) == Some(Rounded(v, factor))
  {
    if IsFactor(factor) {
      FactorsAreKnown(factor);
    }
  }

  lemma PanicsExactly(v: nat, factor: nat)
    requires factor < TWO_TO_64
    ensures RoundedBy(v, factor) == None <==> v >= factor && factor * factor % TWO_TO_64 == 0
  {
    if factor > 0 && v >= factor && factor * factor % TWO_TO_64 != 0 {
      assert RoundedBy(v, factor).Some?;
    }
  }

  function BuildTestResult(test: nat, r: JobResult): TestResult {
    match r.statistics
    case None => TestResult(test, r.verdict, r.points, None, None, None, r.error, None)
    case Some(s) =>
      TestResult(test, r.verdict, r.points,
        Some(Rounded(s.time, TIME_FACTOR)), Some(Rounded(s.memory, MEMORY_FACTOR)),
        Some(Rounded(s.wallTime, TIME_FACTOR)),
        r.error, Some(s.exitCode))
  }

  /** The compilation result both kinds of generator store. */
  function CompileReport(r: JobResult): TestResult {
    BuildTestResult(0,
      if r.verdict == CompileVerdict(r) then r
      else r.(verdict := CF, error := "unknown verdict for compile job: CF"))
  }

  /** Each measure of a result is its own one, rounded: both times to multiples of a thousand, memory to multiples of
      1024; without statistics there is none. */
  predicate Measured(result: TestResult, statistics: Option<Statistics>) {
    match statistics
    case None => result.time == result.memory == result.wallTime == None && result.exitCode == None
    case Some(s) =>
      && result.time == Some(Rounded(s.time, 1000)) && result.wallTime == Some(Rounded(s.wallTime, 1000))
      && result.memory == Some(Rounded(s.memory, 1024)) && result.exitCode == Some(s.exitCode)
  }

  /** The compilation is reported as test 0, with its own measures and points; what is neither CD nor CE is CF. */
  lemma CompilationIsReported(r: JobResult)
    ensures var report := CompileReport(r);
            && report.testNumber == 0 && Measured(report, r.statistics) && report.points == r.points
            && report.verdict == (if r.verdict in {CD, CE} then r.verdict else CF)
            && (r.verdict in {CD, CE, CF} ==> report.error == r.error)
  {
  }

  // ---------- what rounding guarantees ----------

  lemma DivisionBounds(a: nat, f: nat)
    requires 0 < f
    ensures a - f < a / f * f <= a
  {
    assert a == f * (a / f) + a % f;
  }

  lemma Scaled(a: nat, b: nat, f: nat)
    ensures a <= b ==> a * f <= b * f
    ensures (a + 1) * f == a * f + f
  {
  }

  /** The multiple of `f` in an interval of length `f` is the round-up. */
  lemma CeilIsTheMultiple(v: nat, f: nat, k: nat)
    requires 0 < f && v <= k * f < v + f
    ensures Ceil(v, f) == k * f
  {
    DivisionBounds(v + f - 1, f);
    CloseMultiplesAreEqual((v + f - 1) / f, k, f);
  }

  lemma CloseMultiplesAreEqual(a: nat, b: nat, f: nat)
    requires a * f < b * f + f && b * f < a * f + f
    ensures a == b
  {
    if a < b {
      Scaled(a + 1, b, f);
      Scaled(a, a, f);
    } else if b < a {
      Scaled(b + 1, a, f);
      Scaled(b, b, f);
    }
  }

  lemma CeilBounds(v: nat, f: nat)
    requires 0 < f
    ensures v <= Ceil(v, f) < v + f
  {
    DivisionBounds(v + f - 1, f);
  }

  /** Rounding up to `f` first does not change the round-up to `f * f`. */
  lemma CeilAbsorbs(v: nat, f: nat)
    requires 0 < f
    ensures Ceil(Ceil(v, f), f * f) == Ceil(v, f * f)
  {
    var g := f * f;
    var k := (v + f - 1) / f;
    var j := (k * f + g - 1) / g;
    CeilBounds(v, f);
    CeilBounds(k * f, g);
    MultiplesAreApart(j, k, f);
    CeilIsTheMultiple(v, g, j);
  }

  lemma MultiplesAreApart(j: nat, k: nat, f: nat)
    ensures j * (f * f) < k * f + f * f ==> j * (f * f) + f <= k * f + f * f
  {
    assert j * (f * f) == (j * f) * f;
    Scaled(j * f + 1, k + f, f);
    Scaled(k + f, j * f, f);
    assert (k + f) * f == k * f + f * f;
  }

  lemma CeilGrows(v: nat, w: nat, f: nat)
    requires 0 < f && v <= w
    ensures Ceil(v, f) <= Ceil(w, f)
  {
    var i, j := (v + f - 1) / f, (w + f - 1) / f;
    CeilBounds(v, f);
    CeilBounds(w, f);
    Scaled(j + 1, i, f);
    Scaled(i, j, f);
  }

  /** The rounding a reader expects: one round-up to the coarsest factor the value reaches. */
  function Coarsest(v: nat, f: nat): nat
    requires 0 < f
  {
    if v < f then 1 else if Ceil(v, f) < f * f then f else f * f
  }

  lemma FactorsAreKnown(f: nat)
    requires IsFactor(f)
    ensures (f == 1000 && f * f == 1_000_000) || (f == 1024 && f * f == 1_048_576)
  {
  }

  lemma LimitBounds(f: nat)
    requires IsFactor(f)
    ensures TWO_TO_64 - f * f - f < Limit(f) <= TWO_TO_64 - f * f
    ensures Limit(f) == (TWO_TO_64 - f * f) / f * f
  {
    FactorsAreKnown(f);
    DivisionBounds(TWO_TO_64 - f * f, f);
  }

  /** A value has its first round-up below the wrap of the second exactly when it is within the limit. */
  lemma LimitIsExact(v: nat, f: nat)
    requires IsFactor(f)
    ensures v <= Limit(f) <==> Ceil(v, f) <= TWO_TO_64 - f * f
  {
    FactorsAreKnown(f);
    LimitBounds(f);
    CeilBounds(v, f);
    var m := (TWO_TO_64 - f * f) / f;
    var k := (v + f - 1) / f;
    Scaled(k, m, f);
    Scaled(m + 1, k, f);
  }

  lemma PassBelowTheWrap(v: nat, f: nat)
    requires 0 < f && v + f - 1 < TWO_TO_64
    ensures Pass(v, f) == Ceil(v, f)
  {
  }

  lemma PassAtTheWrap(v: nat, f: nat)
    requires 0 < f <= TWO_TO_64 && v < TWO_TO_64 <= v + f - 1
    ensures Pass(v, f) == 0
  {
    assert (v + f - 1) % TWO_TO_64 == v + f - 1 - TWO_TO_64;
  }

  /** Within the limit the two passes amount to one round-up to the coarsest factor reached; above it they yield 0. */
  lemma RoundsOnceToTheCoarsestFactor(v: nat, f: nat)
    requires v < TWO_TO_64 && IsFactor(f)
    ensures v <= Limit(f) ==> Rounded(v, f) == Ceil(v, Coarsest(v, f))
    ensures v > Limit(f) ==> Rounded(v, f) == 0
  {
    FactorsAreKnown(f);
    LimitBounds(f);
    LimitIsExact(v, f);
    CeilBounds(v, f);
    CeilAbsorbs(v, f);
    if v + f - 1 >= TWO_TO_64 {
      PassAtTheWrap(v, f);
    } else if v >= f {
      PassBelowTheWrap(v, f);
      var once := Ceil(v, f);
      if once + f * f - 1 >= TWO_TO_64 {
        PassAtTheWrap(once, f * f);
      } else {
        PassBelowTheWrap(once, f * f);
      }
    }
  }

  /** Rounding never loses time or memory exactly up to the limit, and then overstates it by less than a factor of 2. */
  lemma NeverBelowItsInputExactly(v: nat, f: nat)
    requires 0 < v < TWO_TO_64 && IsFactor(f)
    ensures v <= Rounded(v, f) <==> v <= Limit(f)
    ensures v <= Limit(f) ==> Rounded(v, f) < 2 * v && Rounded(v, f) < TWO_TO_64
  {
    FactorsAreKnown(f);
    LimitBounds(f);
    RoundsOnceToTheCoarsestFactor(v, f);
    CeilBounds(v, Coarsest(v, f));
    CeilBounds(v, f);
    CeilBounds(f * f - f, f);
    if v <= Limit(f) && Coarsest(v, f) == f * f {
      assert v > f * f - f;
      if v < f * f {
        CeilIsTheMultiple(v, f * f, 1);
      }
    }
  }

  lemma MonotoneWithinTheLimit(v: nat, w: nat, f: nat)
    requires IsFactor(f) && v <= w <= Limit(f)
    ensures Rounded(v, f) <= Rounded(w, f)
  {
    FactorsAreKnown(f);
    LimitBounds(f);
    RoundsOnceToTheCoarsestFactor(v, f);
    RoundsOnceToTheCoarsestFactor(w, f);
    CeilGrows(v, w, f);
    CeilGrows(v, w, f * f);
    CeilBounds(w, f);
    CeilBounds(w, f * f);
    CeilBounds(v, f);
  }

  /** A larger value rounds to less exactly when only the larger one is above the limit, and the other one is not 0. */
  lemma MonotoneExactly(v: nat, w: nat, f: nat)
    requires IsFactor(f) && v <= w < TWO_TO_64
    ensures Rounded(v, f) <= Rounded(w, f) <==> v == 0 || w <= Limit(f) || v > Limit(f)
  {
    FactorsAreKnown(f);
    hide Rounded, Limit;
    RoundsOnceToTheCoarsestFactor(v, f);
    RoundsOnceToTheCoarsestFactor(w, f);
    hide Ceil, Coarsest;
    if w <= Limit(f) {
      MonotoneWithinTheLimit(v, w, f);
    } else if v == 0 {
      ZeroStaysZero(f);
    } else if v <= Limit(f) {
      NeverBelowItsInputExactly(v, f);
    }
  }

  lemma ZeroStaysZero(f: nat)
    requires IsFactor(f)
    ensures Rounded(0, f) == 0
  {
  }

  /** The largest value that rounding, to the coarsest factor, leaves within the limit. */
  function IdempotenceBound(f: nat): nat
    requires IsFactor(f)
  {
    Limit(f) / (f * f) * (f * f)
  }

  /** Rounding twice is rounding once exactly for the values up to a bound a little below the limit, and for those
      above the limit, which all go to 0. */
  lemma IdempotentExactly(v: nat, f: nat)
    requires v < TWO_TO_64 && IsFactor(f)
    ensures Rounded(v, f) < TWO_TO_64
    ensures Rounded(Rounded(v, f), f) == Rounded(v, f) <==> v > Limit(f) || v <= IdempotenceBound(f)
  {
    FactorsAreKnown(f);
    LimitBounds(f);
    RoundsOnceToTheCoarsestFactor(v, f);
    if v <= Limit(f) {
      RoundedTwice(v, f);
      RoundsOnceToTheCoarsestFactor(Rounded(v, f), f);
      StaysWithinTheLimit(v, f);
    }
  }

  lemma StaysWithinTheLimit(v: nat, f: nat)
    requires IsFactor(f) && v <= Limit(f)
    ensures Rounded(v, f) <= Limit(f) <==> v <= IdempotenceBound(f)
  {
    FactorsAreKnown(f);
    LimitBounds(f);
    RoundsOnceToTheCoarsestFactor(v, f);
    var g := f * f;
    DivisionBounds(Limit(f), g);
    CeilBounds(v, Coarsest(v, f));
    if Coarsest(v, f) == g {
      var m, k := Limit(f) / g, (v + g - 1) / g;
      Scaled(k, m, g);
      Scaled(m + 1, k, g);
    }
  }

  /** A value in between: rounded up, it leaves the limit, and rounded again it is lost. */
  lemma NotIdempotent()
    ensures IdempotenceBound(1000) < 18446744073708550000 <= Limit(1000)
    ensures Rounded(18446744073708550000, 1000) == 18446744073709000000
    ensures Rounded(18446744073709000000, 1000) == 0
  {
  }

  lemma CeilOfCeil(v: nat, c: nat)
    requires 0 < c
    ensures Ceil(Ceil(v, c), c) == Ceil(v, c)
  {
    CeilIsTheMultiple(Ceil(v, c), c, (v + c - 1) / c);
  }

  lemma RoundingKeepsCoarsest(v: nat, f: nat)
    requires IsFactor(f)
    ensures Coarsest(Ceil(v, Coarsest(v, f)), f) == Coarsest(v, f)
  {
    FactorsAreKnown(f);
    CeilBounds(v, f);
    CeilBounds(v, f * f);
    CeilAbsorbs(v, f);
    CeilBounds(Ceil(v, f), f * f);
    CeilBounds(Ceil(v, f * f), f);
    CeilOfCeil(v, f);
    CeilBounds(v, 1);
    hide Ceil;
  }

  lemma RoundedTwice(v: nat, f: nat)
    requires IsFactor(f) && v <= Limit(f)
    ensures var r := Rounded(v, f); r < TWO_TO_64 && (r <= Limit(f) ==> Rounded(r, f) == r)
  {
    FactorsAreKnown(f);
    LimitBounds(f);
    hide Rounded, Ceil, Limit;
    var c := Coarsest(v, f);
    RoundsOnceToTheCoarsestFactor(v, f);
    CeilBounds(v, c);
    RoundsOnceToTheCoarsestFactor(Ceil(v, c), f);
    CeilOfCeil(v, c);
    RoundingKeepsCoarsest(v, f);
  }
}
