/** Times and memory sizes as the objects the configuration and the wire format fill in place. */
module UnitsObject {
  import opened Models
  import opened Units

  /** Splits a string into the number at its front and the rest, in lower case. */
  method SeparateStr(str: string) returns (r: Separated)
    ensures r == Separate(str)
  {
    var s := Lower(str);
    var pos := 0;
    while pos < |s|
      invariant pos <= |s| && DigitsFrom(s, pos) == DigitsFrom(s, 0)
      invariant forall i :: 0 <= i < pos ==> IsDigit(s[i])
      decreases |s| - pos
    {
      if !IsDigit(s[pos]) {
        break;
      }
      pos := pos + 1;
    }
    assert DigitsFrom(s, 0) == pos;
    if pos == 0 || Number(s[..pos]) >= TWO_TO_64 {
      return Malformed;
    }
    return Separated(Number(s[..pos]), s[pos..]);
  }

  class Time {
    var value: nat

    constructor (value: nat)
      ensures this.value == value
    {
      this.value := value;
    }

    /** Leaves the value alone when the string is malformed or its unit unknown. */
    method FromStr(s: string) returns (ok: bool)
      modifies this
      ensures ok <==> Parse(TimeUnits, s).Some?
      ensures value == if ok then Parse(TimeUnits, s).value else old(value)
    {
      hide Separate;
      var separated := SeparateStr(s);
      if separated.Malformed? {
        return false;
      }
      var num, suf := separated.number, separated.suffix;
      if suf != "" && suf != "ns" {
        if suf == "s" {
          num := num * 1000 % TWO_TO_64;
        }
        if suf == "s" || suf == "ms" {
          num := num * 1000 % TWO_TO_64;
        }
        if suf == "s" || suf == "ms" || suf == "us" {
          num := num * 1000 % TWO_TO_64;
        } else {
          return false;
        }
      }
      ThreeScales(separated.number, 1000);
      value := num;
      return true;
    }

    method ToString() returns (s: string)
      requires value < TWO_TO_64
      ensures s == Print(TimeUnits, value)
      ensures Parse(TimeUnits, s) == Some(value)
    {
      RoundTrip(TimeUnits, value);
      PrintedParts(TimeUnits, value);
      hide Print, Decimal, Divisions, Power, Parse;
      var v, suf := value, "ns";
      if v % 1000 == 0 {
        suf := "us";
        v := v / 1000;
        if v % 1000 == 0 {
          suf := "ms";
          v := v / 1000;
          if v % 1000 == 0 {
            suf := "s";
            v := v / 1000;
          }
        }
      }
      return Decimal(v) + suf;
    }
  }

  class Memory {
    var value: nat

    constructor (value: nat)
      ensures this.value == value
    {
      this.value := value;
    }

    /** Leaves the value alone when the string is malformed or its unit unknown. */
    method FromStr(s: string) returns (ok: bool)
      modifies this
      ensures ok <==> Parse(MemoryUnits, s).Some?
      ensures value == if ok then Parse(MemoryUnits, s).value else old(value)
    {
      hide Separate;
      var separated := SeparateStr(s);
      if separated.Malformed? {
        return false;
      }
      var num, suf := separated.number, separated.suffix;
      if suf != "" && suf != "b" {
        if suf == "g" {
          num := num * 1024 % TWO_TO_64;
        }
        if suf == "g" || suf == "m" {
          num := num * 1024 % TWO_TO_64;
        }
        if suf == "g" || suf == "m" || suf == "k" {
          num := num * 1024 % TWO_TO_64;
        } else {
          return false;
        }
      }
      ThreeScales(separated.number, 1024);
      value := num;
      return true;
    }

    method ToString() returns (s: string)
      requires value < TWO_TO_64
      ensures s == Print(MemoryUnits, value)
      ensures Parse(MemoryUnits, s) == Some(value)
    {
      RoundTrip(MemoryUnits, value);
      PrintedParts(MemoryUnits, value);
      hide Print, Decimal, Divisions, Power, Parse;
      var v, suf := value, "b";
      if v % 1024 == 0 {
        suf := "k";
        v := v / 1024;
        if v % 1024 == 0 {
          suf := "m";
          v := v / 1024;
          if v % 1024 == 0 {
            suf := "g";
            v := v / 1024;
          }
        }
      }
      return Decimal(v) + suf;
    }
  }

  lemma ThreeScales(v: nat, f: nat)
    ensures Scale(v, f, 0) == v
    ensures Scale(v, f, 1) == v * f % TWO_TO_64
    ensures Scale(v, f, 2) == v * f % TWO_TO_64 * f % TWO_TO_64
    ensures Scale(v, f, 3) == v * f % TWO_TO_64 * f % TWO_TO_64 * f % TWO_TO_64
  {
    var a := v * f % TWO_TO_64;
    var b := a * f % TWO_TO_64;
    assert Scale(a, f, 0) == a && Scale(b, f, 0) == b;
    assert Scale(v, f, 1) == Scale(a, f, 0);
    assert Scale(v, f, 2) == Scale(a, f, 1) && Scale(a, f, 1) == Scale(b, f, 0);
    assert Scale(v, f, 3) == Scale(a, f, 2) && Scale(a, f, 2) == Scale(b, f, 1);
  }

  /** The nested divisions of String, one unit at a time. */
  lemma PrintedParts(u: System, v: nat)
    requires IsSystem(u)
    ensures var f := u.factor;
            Print(u, v) ==
            if v % f != 0 then Decimal(v) + u.u0
            else if v / f % f != 0 then Decimal(v / f) + u.u1
            else if v / f / f % f != 0 then Decimal(v / f / f) + u.u2
            else Decimal(v / f / f / f) + u.u3
  {
    var f := u.factor;
    DivisionsUnfold(v, f);
    PowersAreKnown(u);
    DividingTwice(v, f);
    var k := Divisions(v, f, 3);
    assert Print(u, v) == Decimal(v / Power(f, k)) + Name(u, k);
    hide Decimal, Divisions, Power, Print;
    assert v / Power(f, 0) == v;
  }

  lemma DivisionsUnfold(v: nat, f: nat)
    requires f > 0
    ensures Divisions(v, f, 3) ==
            if v % f != 0 then 0 else if v / f % f != 0 then 1 else if v / f / f % f != 0 then 2 else 3
  {
    var a := v / f;
    var b := a / f;
    assert Divisions(b, f, 1) == if b % f != 0 then 0 else 1 + Divisions(b / f, f, 0);
    assert Divisions(a, f, 2) == if a % f != 0 then 0 else 1 + Divisions(b, f, 1);
    assert Divisions(v, f, 3) == if v % f != 0 then 0 else 1 + Divisions(a, f, 2);
  }

  lemma DividingTwice(v: nat, f: nat)
    requires f == 1000 || f == 1024
    ensures v / f / f == v / (f * f) && v / f / f / f == v / (f * f * f)
  {
  }
}
