/** The size-bounded cache: what each critical section does to its state, and what eviction removes. */
module LruCache {
  import opened Models
  import opened Lists

  /** What the getter returns: a value or an error, and a size either way. */
  datatype Loaded<V> = Loaded(value: Option<V>, error: Option<string>, size: nat)

  /** `listed` says that the holder has a position in the recency list. */
  datatype Holder<V> = Holder(
    value: Option<V>, error: Option<string>, lockCount: nat, size: nat, loading: bool, listed: bool)

  datatype Cache<!K(==), V> = Cache(
    holders: map<K, Holder<V>>, sizeBound: nat, totalSize: int, recentRank: seq<K>)

  // ---------- the sections ----------

  /** Moves the key to the back of the recency list, or puts it there. */
  function ItemUsed<K, V>(c: Cache<K, V>, key: K): Cache<K, V>
    requires key in c.holders
  {
    if c.holders[key].listed then c.(recentRank := Without(c.recentRank, key) + [key])
    else c.(holders := c.holders[key := c.holders[key].(listed := true)], recentRank := c.recentRank + [key])
  }

  /** The second component says whether a load has to be started. */
  function LockAndGetHolder<K, V>(c: Cache<K, V>, key: K): (r: (Cache<K, V>, bool))
    ensures key in r.0.holders
  {
    if key in c.holders then
      var h := c.holders[key];
      (c.(holders := c.holders[key := h.(lockCount := h.lockCount + 1)]), false)
    else (c.(holders := c.holders[key := Holder(None, None, 1, 0, true, false)]), true)
  }

  function Release<K, V>(c: Cache<K, V>, key: K): Cache<K, V>
    requires key in c.holders && c.holders[key].lockCount > 0
  {
    c.(holders := c.holders[key := c.holders[key].(lockCount := c.holders[key].lockCount - 1)])
  }

  /** A loaded item gives up the lock of a Get and is returned; nothing is evicted. */
  function Deliver<K, V>(c: Cache<K, V>, key: K): (Cache<K, V>, Option<V>, Option<string>)
    requires key in c.holders && c.holders[key].lockCount > 0
  {
    (ItemUsed(Release(c, key), key), c.holders[key].value, c.holders[key].error)
  }

  function Lock<K, V>(c: Cache<K, V>, key: K): Cache<K, V> {
    var locked := LockAndGetHolder(c, key).0;
    if locked.holders[key].loading then locked else ItemUsed(locked, key)
  }

  datatype UnlockResult = Unlocked | NotLocked | NotFound

  function Unlock<K(!new), V>(c: Cache<K, V>, key: K): (Cache<K, V>, UnlockResult)
    requires Visitable(c.holders, c.recentRank)
  {
    if key !in c.holders then (c, NotFound)
    else if c.holders[key].lockCount == 0 then (c, NotLocked)
    else (RemoveItemsIfNeeded(Release(c, key)), Unlocked)
  }

  /** The holder of a key when its load is done. */
  function Filled<V>(h: Holder<V>, l: Loaded<V>): Holder<V> {
    h.(value := l.value, error := l.error, size := l.size, loading := false)
  }

  function Fill<K, V>(c: Cache<K, V>, key: K, l: Loaded<V>): Cache<K, V>
    requires key in c.holders
  {
    ItemUsed(c.(totalSize := c.totalSize + l.size, holders := c.holders[key := Filled(c.holders[key], l)]), key)
  }

  function LoadDone<K(!new), V>(c: Cache<K, V>, key: K, l: Loaded<V>): Cache<K, V>
    requires key in c.holders && Visitable(Fill(c, key, l).holders, Fill(c, key, l).recentRank)
  {
    RemoveItemsIfNeeded(Fill(c, key, l))
  }

  function RemoveSingleItem<K, V>(c: Cache<K, V>, key: K): Cache<K, V>
    requires key in c.holders
  {
    c.(holders := c.holders - {key},
       totalSize := c.totalSize - c.holders[key].size,
       recentRank := Without(c.recentRank, key))
  }

  /** The keys still to be visited by the eviction loop are present, each once. */
  predicate Visitable<K(!new), V>(holders: map<K, Holder<V>>, rest: seq<K>) {
    Distinct(rest) && forall k :: k in rest ==> k in holders
  }

  lemma VisitableTail<K(!new), V>(holders: map<K, Holder<V>>, rest: seq<K>)
    requires Visitable(holders, rest) && rest != []
    ensures Visitable(holders - {rest[0]}, rest[1..]) && Visitable(holders, rest[1..])
  {
    TailIsDistinct(rest);
    assert forall k :: k in rest[1..] ==> k in Elements(rest[1..]);
  }

  /** The eviction loop with `rest` still to be visited. */
  function Evict<K(!new), V>(c: Cache<K, V>, rest: seq<K>): Cache<K, V>
    requires Visitable(c.holders, rest)
    decreases |rest|
  {
    if c.totalSize <= c.sizeBound || rest == [] then c
    else
      VisitableTail(c.holders, rest);
      if c.holders[rest[0]].lockCount == 0 then Evict(RemoveSingleItem(c, rest[0]), rest[1..])
      else Evict(c, rest[1..])
  }

  function RemoveItemsIfNeeded<K(!new), V>(c: Cache<K, V>): Cache<K, V>
    requires Visitable(c.holders, c.recentRank)
  {
    Evict(c, c.recentRank)
  }

  /** The remover is called for an item that was loaded without error, before it is removed. */
  function RemoverCall<K, V>(c: Cache<K, V>, key: K): seq<(K, Option<V>)>
    requires key in c.holders
  {
    if c.holders[key].error == None then [(key, c.holders[key].value)] else []
  }

  /** The calls of the remover that the eviction loop makes. */
  function EvictCalls<K(!new), V>(c: Cache<K, V>, rest: seq<K>): seq<(K, Option<V>)>
    requires Visitable(c.holders, rest)
    decreases |rest|
  {
    if c.totalSize <= c.sizeBound || rest == [] then []
    else
      VisitableTail(c.holders, rest);
      if c.holders[rest[0]].lockCount == 0 then
        RemoverCall(c, rest[0]) + EvictCalls(RemoveSingleItem(c, rest[0]), rest[1..])
      else EvictCalls(c, rest[1..])
  }

  // ---------- the accounting ----------

  function SizeOf<K, V>(holders: map<K, Holder<V>>, s: seq<K>): nat
    requires forall k :: k in s ==> k in holders
  {
    if s == [] then 0 else holders[s[0]].size + SizeOf(holders, s[1..])
  }

  predicate Loads<K, V>(c: Cache<K, V>, k: K)
    requires k in c.holders
  {
    var h := c.holders[k];
    && h.listed == !h.loading
    && (k in c.recentRank <==> !h.loading)
    && (h.loading ==> h.size == 0)
  }

  /** The recency list holds the loaded keys, each once, and their sizes add up to totalSize. */
  ghost predicate Accounted<K(!new), V>(c: Cache<K, V>) {
    && Distinct(c.recentRank)
    && (forall k :: k in c.recentRank ==> k in c.holders)
    && (forall k {:trigger Loads(c, k)} :: k in c.holders ==> Loads(c, k))
    && c.totalSize == SizeOf(c.holders, c.recentRank)
  }

  lemma {:induction false} SizeWithout<K(!new), V>(holders: map<K, Holder<V>>, s: seq<K>, key: K)
    requires (forall k :: k in s ==> k in holders) && Distinct(s) && key in s
    ensures forall k :: k in Without(s, key) ==> k in holders
    ensures SizeOf(holders, s) == SizeOf(holders, Without(s, key)) + holders[key].size
  {
    WithoutIsRemoval(s, key);
    TailIsDistinct(s);
    assert s == [s[0]] + s[1..];
    if s[0] == key {
      assert key !in s[1..] by {
        assert key !in Elements(s[1..]);
      }
      WithoutIsRemoval(s[1..], key);
    } else {
      SizeWithout(holders, s[1..], key);
      assert Without(s, key)[1..] == Without(s[1..], key);
    }
  }

  lemma {:induction false} SizeAppend<K(!new), V>(holders: map<K, Holder<V>>, s: seq<K>, key: K)
    requires (forall k :: k in s ==> k in holders) && key in holders
    ensures SizeOf(holders, s + [key]) == SizeOf(holders, s) + holders[key].size
  {
    if s == [] {
      assert s + [key] == [key];
    } else {
      SizeAppend(holders, s[1..], key);
      assert (s + [key])[1..] == s[1..] + [key];
    }
  }

  /** Sizes are all that counts. */
  lemma {:induction false} SizeIsLocal<K(!new), V>(a: map<K, Holder<V>>, b: map<K, Holder<V>>, s: seq<K>)
    requires forall k :: k in s ==> k in a && k in b && a[k].size == b[k].size
    ensures SizeOf(a, s) == SizeOf(b, s)
  {
    if s != [] {
      SizeIsLocal(a, b, s[1..]);
    }
  }

  // ---------- the sections keep the accounts ----------

  lemma ItemUsedKeepsAccounts<K(!new), V>(c: Cache<K, V>, key: K)
    requires Accounted(c) && key in c.holders && !c.holders[key].loading
    ensures Accounted(ItemUsed(c, key))
    ensures ItemUsed(c, key).holders == c.holders && ItemUsed(c, key).totalSize == c.totalSize
    ensures Elements(ItemUsed(c, key).recentRank) == Elements(c.recentRank)
  {
    var r := ItemUsed(c, key);
    assert Loads(c, key);
    WithoutIsRemoval(c.recentRank, key);
    AppendIsDistinct(Without(c.recentRank, key), key);
    SizeWithout(c.holders, c.recentRank, key);
    SizeAppend(c.holders, Without(c.recentRank, key), key);
    hide Distinct, SizeOf, Without;
    forall k | k in r.holders
      ensures Loads(r, k)
    {
      assert Loads(c, k);
    }
  }

  /** A key just loaded enters the list at the back. */
  lemma FirstUseKeepsAccounts<K(!new), V>(c: Cache<K, V>, key: K, h: Holder<V>)
    requires Accounted(c) && key in c.holders && c.holders[key].loading
    requires h.listed == false && h.loading == false
    ensures Accounted(ItemUsed(c.(totalSize := c.totalSize + h.size, holders := c.holders[key := h]), key))
  {
    var d := c.(totalSize := c.totalSize + h.size, holders := c.holders[key := h]);
    var r := ItemUsed(d, key);
    assert Loads(c, key);
    AppendIsDistinct(c.recentRank, key);
    SizeIsLocal(c.holders, r.holders, c.recentRank);
    SizeAppend(r.holders, c.recentRank, key);
    hide Distinct, SizeOf;
    forall k | k in r.holders
      ensures Loads(r, k)
    {
      assert k != key ==> Loads(c, k);
    }
  }

  /** A change of lock counts only. */
  lemma CountingKeepsAccounts<K(!new), V>(c: Cache<K, V>, key: K, n: nat)
    requires Accounted(c) && key in c.holders
    ensures Accounted(c.(holders := c.holders[key := c.holders[key].(lockCount := n)]))
  {
    var r := c.(holders := c.holders[key := c.holders[key].(lockCount := n)]);
    SizeIsLocal(c.holders, r.holders, c.recentRank);
    hide Distinct, SizeOf;
    forall k | k in r.holders
      ensures Loads(r, k)
    {
      assert Loads(c, k);
    }
  }

  lemma InsertionKeepsAccounts<K(!new), V>(c: Cache<K, V>, key: K)
    requires Accounted(c) && key !in c.holders
    ensures Accounted(LockAndGetHolder(c, key).0)
  {
    var r := LockAndGetHolder(c, key).0;
    SizeIsLocal(c.holders, r.holders, c.recentRank);
    hide Distinct, SizeOf;
    forall k | k in r.holders
      ensures Loads(r, k)
    {
      assert k != key ==> Loads(c, k);
    }
  }

  lemma RemovalKeepsAccounts<K(!new), V>(c: Cache<K, V>, key: K)
    requires Accounted(c) && key in c.recentRank
    ensures Accounted(RemoveSingleItem(c, key))
    ensures RemoveSingleItem(c, key).totalSize == c.totalSize - c.holders[key].size
  {
    var r := RemoveSingleItem(c, key);
    WithoutIsRemoval(c.recentRank, key);
    SizeWithout(c.holders, c.recentRank, key);
    SizeIsLocal(c.holders, r.holders, r.recentRank);
    hide Distinct, SizeOf, Without;
    forall k | k in r.holders
      ensures Loads(r, k)
    {
      assert Loads(c, k);
    }
  }

  // ---------- what eviction removes ----------

  /** The unlocked keys of a list, in its order. */
  function UnlockedKeys<K(!new), V>(holders: map<K, Holder<V>>, s: seq<K>): (r: seq<K>)
    requires forall k :: k in s ==> k in holders
    ensures forall k :: k in r <==> k in s && holders[k].lockCount == 0
  {
    if s == [] then []
    else if holders[s[0]].lockCount == 0 then [s[0]] + UnlockedKeys(holders, s[1..])
    else UnlockedKeys(holders, s[1..])
  }

  /** The keys the loop removes, in order. */
  function Victims<K, V>(holders: map<K, Holder<V>>, excess: int, s: seq<K>): seq<K>
    requires forall k :: k in s ==> k in holders
  {
    if excess <= 0 || s == [] then []
    else if holders[s[0]].lockCount == 0 then [s[0]] + Victims(holders, excess - holders[s[0]].size, s[1..])
    else Victims(holders, excess, s[1..])
  }

  function Minus<K(==)>(s: seq<K>, gone: set<K>): seq<K> {
    if s == [] then [] else if s[0] in gone then Minus(s[1..], gone) else [s[0]] + Minus(s[1..], gone)
  }

  lemma {:induction false} MinusOneMore<K>(s: seq<K>, key: K, gone: set<K>)
    ensures Minus(Without(s, key), gone) == Minus(s, gone + {key})
  {
    if s != [] {
      MinusOneMore(s[1..], key, gone);
      if s[0] != key {
        assert Without(s, key)[1..] == Without(s[1..], key);
      }
    }
  }

  lemma {:induction false} MinusNothing<K>(s: seq<K>)
    ensures Minus(s, {}) == s
  {
    if s != [] {
      MinusNothing(s[1..]);
    }
  }

  /** The loop removes the victims and nothing else. */
  lemma {:induction false} EvictRemovesTheVictims<K(!new), V>(c: Cache<K, V>, rest: seq<K>)
    requires Visitable(c.holders, rest)
    ensures var gone := Victims(c.holders, c.totalSize - c.sizeBound, rest);
            && (forall k :: k in gone ==> k in rest)
            && Evict(c, rest) == Cache(c.holders - Elements(gone), c.sizeBound, c.totalSize - SizeOf(c.holders, gone),
                                       Minus(c.recentRank, Elements(gone)))
    decreases |rest|
  {
    var gone := Victims(c.holders, c.totalSize - c.sizeBound, rest);
    if c.totalSize <= c.sizeBound || rest == [] {
      MinusNothing(c.recentRank);
      assert Elements(gone) == {};
    } else {
      VisitableTail(c.holders, rest);
      if c.holders[rest[0]].lockCount == 0 {
        var r := RemoveSingleItem(c, rest[0]);
        EvictRemovesTheVictims(r, rest[1..]);
        var later := Victims(c.holders, r.totalSize - c.sizeBound, rest[1..]);
        SameVictims(r.holders, c.holders, r.totalSize - c.sizeBound, rest[1..]);
        assert gone == [rest[0]] + later && gone[1..] == later;
        assert Elements(gone) == Elements(later) + {rest[0]};
        SizeIsLocal(r.holders, c.holders, later);
        MinusOneMore(c.recentRank, rest[0], Elements(later));
        assert c.holders - {rest[0]} - Elements(later) == c.holders - Elements(gone);
      } else {
        EvictRemovesTheVictims(c, rest[1..]);
      }
    }
  }

  lemma {:induction false} SameVictims<K, V>(a: map<K, Holder<V>>, b: map<K, Holder<V>>, excess: int, s: seq<K>)
    requires forall k :: k in s ==> k in a && k in b && a[k] == b[k]
    ensures Victims(a, excess, s) == Victims(b, excess, s)
    ensures forall k :: k in Victims(a, excess, s) ==> k in s
  {
    if s != [] && excess > 0 {
      SameVictims(a, b, excess, s[1..]);
      SameVictims(a, b, excess - a[s[0]].size, s[1..]);
    }
  }

  /** The victims are the shortest prefix of the unlocked keys, least recently used first, whose removal suffices;
      all of them when none does. */
  lemma {:induction false} VictimsAreTheShortestPrefix<K(!new), V>(holders: map<K, Holder<V>>, excess: int, s: seq<K>)
    requires forall k :: k in s ==> k in holders
    ensures var gone, unlocked := Victims(holders, excess, s), UnlockedKeys(holders, s);
            && |gone| <= |unlocked| && gone == unlocked[..|gone|]
            && (|gone| < |unlocked| ==> SizeOf(holders, gone) >= excess)
            && (forall n {:trigger unlocked[..n]} :: 0 <= n < |gone| ==> SizeOf(holders, unlocked[..n]) < excess)
  {
    var gone, unlocked := Victims(holders, excess, s), UnlockedKeys(holders, s);
    if s != [] && excess > 0 {
      if holders[s[0]].lockCount == 0 {
        var less := excess - holders[s[0]].size;
        VictimsAreTheShortestPrefix(holders, less, s[1..]);
        var later, others := Victims(holders, less, s[1..]), UnlockedKeys(holders, s[1..]);
        assert gone == [s[0]] + later && unlocked == [s[0]] + others && gone[1..] == later;
        assert unlocked[..|gone|] == [s[0]] + others[..|later|];
        forall n | 0 <= n < |gone|
          ensures SizeOf(holders, unlocked[..n]) < excess
        {
          if n > 0 {
            assert unlocked[..n][1..] == others[..n - 1];
            assert unlocked[..n][0] == s[0];
          }
        }
      } else {
        VictimsAreTheShortestPrefix(holders, excess, s[1..]);
      }
    } else {
      assert gone == [];
    }
  }

  lemma {:induction false} MinusIsRemoval<K(!new)>(s: seq<K>, gone: set<K>)
    ensures forall k :: k in Minus(s, gone) <==> k in s && k !in gone
  {
    if s != [] {
      MinusIsRemoval(s[1..], gone);
      assert s == [s[0]] + s[1..];
    }
  }

  /** No surviving unlocked key is less recently used than an evicted one. */
  lemma {:induction false} OlderGoesFirst<K(!new), V>(
      holders: map<K, Holder<V>>, excess: int, s: seq<K>, i: nat, j: nat)
    requires (forall k :: k in s ==> k in holders) && i < j < |s| && holders[s[i]].lockCount == 0
    requires Distinct(s) && s[j] in Victims(holders, excess, s)
    ensures s[i] in Victims(holders, excess, s)
  {
    TailIsDistinct(s);
    SameVictims(holders, holders, excess, s[1..]);
    if i > 0 {
      assert s[1..][i - 1] == s[i] && s[1..][j - 1] == s[j];
      OlderGoesFirst(holders, if holders[s[0]].lockCount == 0 then excess - holders[s[0]].size else excess, s[1..],
                     i - 1, j - 1);
    }
  }

  lemma {:induction false} EvictKeepsAccounts<K(!new), V>(c: Cache<K, V>, rest: seq<K>)
    requires Accounted(c) && Visitable(c.holders, rest) && forall k :: k in rest ==> k in c.recentRank
    ensures Accounted(Evict(c, rest))
    decreases |rest|
  {
    if c.totalSize > c.sizeBound && rest != [] {
      VisitableTail(c.holders, rest);
      TailIsDistinct(rest);
      assert forall k :: k in rest[1..] ==> k in Elements(rest[1..]);
      if c.holders[rest[0]].lockCount == 0 {
        RemovalKeepsAccounts(c, rest[0]);
        WithoutIsRemoval(c.recentRank, rest[0]);
        hide Accounted;
        EvictKeepsAccounts(RemoveSingleItem(c, rest[0]), rest[1..]);
      } else {
        hide Accounted;
        EvictKeepsAccounts(c, rest[1..]);
      }
    }
  }

  lemma AccountedIsVisitable<K(!new), V>(c: Cache<K, V>)
    requires Accounted(c)
    ensures Visitable(c.holders, c.recentRank)
  {
  }

  /** The whole contract of eviction: the accounts stay right, the evicted keys are the shortest sufficient prefix of
      the unlocked ones in recency order, everything else stays as it was, and the bound holds again unless every
      loaded item is locked. */
  lemma EvictionRestoresTheBound<K(!new), V>(c: Cache<K, V>)
    requires Accounted(c)
    ensures Visitable(c.holders, c.recentRank)
    ensures var r, unlocked := RemoveItemsIfNeeded(c), UnlockedKeys(c.holders, c.recentRank);
            var gone := Victims(c.holders, c.totalSize - c.sizeBound, c.recentRank);
            && Accounted(r)
            && r.holders == c.holders - Elements(gone)
            && r.recentRank == Minus(c.recentRank, Elements(gone))
            && |gone| <= |unlocked| && gone == unlocked[..|gone|]
            && (forall n {:trigger unlocked[..n]} :: 0 <= n < |gone| ==>
                  c.totalSize - SizeOf(c.holders, unlocked[..n]) > c.sizeBound)
            && (r.totalSize <= r.sizeBound || forall k :: k in r.recentRank ==> r.holders[k].lockCount > 0)
  {
    AccountedIsVisitable(c);
    EvictKeepsAccounts(c, c.recentRank);
    EvictRemovesTheVictims(c, c.recentRank);
    VictimsAreTheShortestPrefix(c.holders, c.totalSize - c.sizeBound, c.recentRank);
    var gone := Victims(c.holders, c.totalSize - c.sizeBound, c.recentRank);
    var unlocked := UnlockedKeys(c.holders, c.recentRank);
    MinusIsRemoval(c.recentRank, Elements(gone));
    hide Evict, Victims, UnlockedKeys, SizeOf, Minus, Distinct;
    if |gone| == |unlocked| {
      assert gone == unlocked;
    }
  }
}
