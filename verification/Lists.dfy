/** Sequences without repetitions. */
module Lists {

  function Elements<T>(s: seq<T>): set<T> {
    set x | x in s
  }

  predicate Distinct<T(==)>(s: seq<T>) {
    forall i, j :: 0 <= i < |s| && 0 <= j < |s| && s[i] == s[j] ==> i == j
  }

  lemma PrependIsDistinct<T>(x: T, s: seq<T>)
    requires Distinct(s) && x !in s
    ensures Distinct([x] + s)
  {
    forall i, j | 0 <= i < |[x] + s| && 0 <= j < |[x] + s| && ([x] + s)[i] == ([x] + s)[j]
      ensures i == j
    {
      assert i > 0 ==> ([x] + s)[i] == s[i - 1];
      assert j > 0 ==> ([x] + s)[j] == s[j - 1];
    }
  }

  lemma AppendIsDistinct<T>(s: seq<T>, x: T)
    ensures Elements(s + [x]) == Elements(s) + {x}
    ensures Distinct(s) && x !in s ==> Distinct(s + [x])
  {
    forall y
      ensures y in s + [x] <==> y in Elements(s) + {x}
    {
    }
  }

  lemma TailIsDistinct<T>(s: seq<T>)
    requires s != [] && Distinct(s)
    ensures Distinct(s[1..]) && Elements(s[1..]) == Elements(s) - {s[0]}
  {
    forall x
      ensures x in s[1..] <==> x in s && x != s[0]
    {
      if x in s && x != s[0] {
        var i :| 0 <= i < |s| && s[i] == x;
        assert s[1..][i - 1] == x;
      }
      if x in s[1..] {
        var i :| 0 <= i < |s[1..]| && s[1..][i] == x;
        assert s[i + 1] == x;
      }
    }
  }

  /** All occurrences of x removed. */
  function Without<T(==)>(s: seq<T>, x: T): seq<T> {
    if s == [] then [] else if s[0] == x then Without(s[1..], x) else [s[0]] + Without(s[1..], x)
  }

  lemma {:induction false} WithoutIsRemoval<T(!new)>(s: seq<T>, x: T)
    ensures forall y :: y in Without(s, x) <==> y in s && y != x
    ensures Distinct(s) ==> Distinct(Without(s, x))
    ensures x !in s ==> Without(s, x) == s
  {
    if s != [] {
      WithoutIsRemoval(s[1..], x);
      assert s == [s[0]] + s[1..];
      if Distinct(s) {
        TailIsDistinct(s);
        assert s[0] !in Elements(s[1..]);
        PrependIsDistinct(s[0], Without(s[1..], x));
      }
    }
  }

  /** Strictly increasing numbers between lo and hi. */
  predicate Ascending(s: seq<nat>, lo: nat, hi: nat) {
    s == [] || (lo <= s[0] <= hi && Ascending(s[1..], s[0] + 1, hi))
  }

  lemma AscendingFromBelow(s: seq<nat>, lo: nat, lower: nat, hi: nat)
    requires Ascending(s, lo, hi) && lower <= lo
    ensures Ascending(s, lower, hi)
  {
  }

  lemma {:induction false} AscendingIsIncreasing(s: seq<nat>, lo: nat, hi: nat)
    requires Ascending(s, lo, hi)
    ensures forall i :: 0 <= i < |s| ==> lo <= s[i] <= hi
    ensures forall i, j :: 0 <= i < j < |s| ==> s[i] < s[j]
  {
    if s != [] {
      AscendingIsIncreasing(s[1..], s[0] + 1, hi);
      assert s == [s[0]] + s[1..];
    }
  }
}
