/** Nothing leaks: every value loaded without error is in the cache or has been handed to the remover, once. */
module LruRemover {
  import opened Models
  import opened Lists
  import opened LruCache
  import opened LruProtocol

  /** The calls of the remover a step makes. */
  function Calls<K(!new), V>(w: World<K, V>, s: Step<K, V>): seq<(K, Option<V>)>
    requires Enabled(w, s)
  {
    match s
    case UnlockStep(k) =>
      if k in w.cache.holders && w.cache.holders[k].lockCount > 0
      then EvictCalls(Release(w.cache, k), w.cache.recentRank) else []
    case LoadStep(k, l) =>
      if k in w.cache.holders && Visitable(Fill(w.cache, k, l).holders, Fill(w.cache, k, l).recentRank)
      then EvictCalls(Fill(w.cache, k, l), Fill(w.cache, k, l).recentRank) else []
    case _ => []
  }

  function Times<K(==), V>(calls: seq<(K, V)>, k: K): nat {
    if calls == [] then 0 else (if calls[0].0 == k then 1 else 0) + Times(calls[1..], k)
  }

  lemma {:induction false} TimesOfBoth<K, V>(a: seq<(K, V)>, b: seq<(K, V)>, k: K)
    ensures Times(a + b, k) == Times(a, k) + Times(b, k)
  {
    if a == [] {
      assert a + b == b;
    } else {
      TimesOfBoth(a[1..], b, k);
      assert (a + b)[1..] == a[1..] + b;
    }
  }

  /** One for a value in the cache that the remover has to get one day. */
  function Held<K, V>(c: Cache<K, V>, k: K): nat {
    if k in c.holders && !c.holders[k].loading && c.holders[k].error == None then 1 else 0
  }

  /** Eviction hands out what it takes. */
  lemma {:induction false} EvictionBalances<K(!new), V>(c: Cache<K, V>, rest: seq<K>, k: K)
    requires Visitable(c.holders, rest) && forall x :: x in rest ==> !c.holders[x].loading
    ensures Held(c, k) == Held(Evict(c, rest), k) + Times(EvictCalls(c, rest), k)
    decreases |rest|
  {
    if c.totalSize > c.sizeBound && rest != [] {
      VisitableTail(c.holders, rest);
      assert rest[0] !in rest[1..] by {
        TailIsDistinct(rest);
        assert rest[0] !in Elements(rest[1..]);
      }
      if c.holders[rest[0]].lockCount == 0 {
        var r := RemoveSingleItem(c, rest[0]);
        EvictionBalances(r, rest[1..], k);
        TimesOfBoth(RemoverCall(c, rest[0]), EvictCalls(r, rest[1..]), k);
        assert RemoverCall(c, rest[0]) != [] ==> RemoverCall(c, rest[0])[1..] == [];
      } else {
        EvictionBalances(c, rest[1..], k);
      }
    }
  }

  /** The remover gets the values of the cache. */
  lemma {:induction false} CallsAreItems<K(!new), V>(c: Cache<K, V>, rest: seq<K>, i: nat)
    requires Visitable(c.holders, rest) && i < |EvictCalls(c, rest)|
    ensures var (k, v) := EvictCalls(c, rest)[i];
            k in rest && c.holders[k].error == None && c.holders[k].value == v
    decreases |rest|
  {
    VisitableTail(c.holders, rest);
    if c.holders[rest[0]].lockCount == 0 {
      var n := |RemoverCall(c, rest[0])|;
      if i >= n {
        CallsAreItems(RemoveSingleItem(c, rest[0]), rest[1..], i - n);
      }
    } else {
      CallsAreItems(c, rest[1..], i);
    }
  }

  /** One for a load that ends without error. */
  function Brings<K(==), V>(s: Step<K, V>, k: K): nat {
    if s.LoadStep? && s.key == k && s.loaded.error == None then 1 else 0
  }

  lemma LoadedAreListed<K(!new), V>(c: Cache<K, V>)
    requires Accounted(c)
    ensures Visitable(c.holders, c.recentRank) && forall x :: x in c.recentRank ==> !c.holders[x].loading
  {
    forall x | x in c.recentRank
      ensures !c.holders[x].loading
    {
      assert Loads(c, x);
    }
  }

  lemma StepBalances<K(!new), V>(w: World<K, V>, s: Step<K, V>, k: K)
    requires Inv(w) && Enabled(w, s)
    ensures Held(w.cache, k) + Brings(s, k) == Held(Next(w, s).cache, k) + Times(Calls(w, s), k)
  {
    match s
    case GetStep(key) => GetHolds(w, key, k);
    case LockStep(key) => HolderLocking(w.cache, key);
    case WakeStep(key) =>
      assert Present(w, key) && HolderOK(w, key) && Loads(w.cache, key);
      DeliverKeepsAccounts(w.cache, key);
    case UnlockStep(key) => UnlockBalances(w, key, k);
    case LoadStep(key, l) => LoadBalances(w, key, l, k);
  }

  lemma GetHolds<K(!new), V>(w: World<K, V>, key: K, k: K)
    requires Inv(w)
    ensures Held(Get(w, key).cache, k) == Held(w.cache, k)
  {
    assert key in w.cache.holders ==> HolderOK(w, key) && Loads(w.cache, key);
    HolderLocking(w.cache, key);
    var c := LockAndGetHolder(w.cache, key).0;
    if !c.holders[key].loading {
      DeliverKeepsAccounts(c, key);
    }
  }

  lemma UnlockBalances<K(!new), V>(w: World<K, V>, key: K, k: K)
    requires Inv(w) && Enabled(w, UnlockStep(key))
    ensures Held(w.cache, k) == Held(Next(w, UnlockStep(key)).cache, k) + Times(Calls(w, UnlockStep(key)), k)
  {
    hide Evict, EvictCalls, Distinct;
    if key in w.cache.holders && w.cache.holders[key].lockCount > 0 {
      CountingKeepsAccounts(w.cache, key, w.cache.holders[key].lockCount - 1);
      LoadedAreListed(Release(w.cache, key));
      EvictionBalances(Release(w.cache, key), w.cache.recentRank, k);
    }
  }

  lemma LoadBalances<K(!new), V>(w: World<K, V>, key: K, l: Loaded<V>, k: K)
    requires Inv(w) && Enabled(w, LoadStep(key, l))
    ensures Held(w.cache, k) + Brings(LoadStep(key, l), k)
            == Held(Next(w, LoadStep(key, l)).cache, k) + Times(Calls(w, LoadStep(key, l)), k)
  {
    hide Evict, EvictCalls, Distinct;
    assert Present(w, key) && HolderOK(w, key) && Loads(w.cache, key);
    FirstUseKeepsAccounts(w.cache, key, Filled(w.cache.holders[key], l));
    LoadedAreListed(Fill(w.cache, key, l));
    EvictionBalances(Fill(w.cache, key, l), Fill(w.cache, key, l).recentRank, k);
  }

  /** The remover gets what the loader returned last for the key. */
  lemma CallsHaveTheLoadedValue<K(!new), V>(w: World<K, V>, s: Step<K, V>, i: nat)
    requires Inv(w) && Enabled(w, s) && Fair(w, s) && i < |Calls(w, s)|
    ensures var ((k, v), r) := (Calls(w, s)[i], Next(w, s));
            k in r.last && r.last[k].error == None && r.last[k].value == v
  {
    hide Evict, EvictCalls, Distinct;
    var key := s.key;
    assert Present(w, key) && (key in w.cache.holders ==> HolderOK(w, key) && Loads(w.cache, key));
    var k := Calls(w, s)[i].0;
    if s.UnlockStep? {
      CountingKeepsAccounts(w.cache, key, w.cache.holders[key].lockCount - 1);
      CallsAreItems(Release(w.cache, key), w.cache.recentRank, i);
    } else {
      FirstUseKeepsAccounts(w.cache, key, Filled(w.cache.holders[key], s.loaded));
      CallsAreItems(Fill(w.cache, key, s.loaded), Fill(w.cache, key, s.loaded).recentRank, i);
    }
    assert k in w.cache.holders && HolderOK(w, k) && Loads(w.cache, k);
  }

  // ---------- whole runs ----------

  ghost function CallsOf<K(!new), V>(w: World<K, V>, steps: seq<Step<K, V>>, r: World<K, V>): seq<(K, Option<V>)>
    requires Run(w, steps, r)
    decreases |steps|
  {
    if steps == [] then [] else Calls(w, steps[0]) + CallsOf(Next(w, steps[0]), steps[1..], r)
  }

  function Brought<K(==), V>(steps: seq<Step<K, V>>, k: K): nat {
    if steps == [] then 0 else Brings(steps[0], k) + Brought(steps[1..], k)
  }

  lemma {:induction false} RunBalances<K(!new), V>(w: World<K, V>, steps: seq<Step<K, V>>, r: World<K, V>, k: K)
    requires Inv(w) && Run(w, steps, r)
    ensures Held(w.cache, k) + Brought(steps, k) == Held(r.cache, k) + Times(CallsOf(w, steps, r), k)
    decreases |steps|
  {
    hide Inv, Enabled, Fair, Next, Calls, Held, Brings;
    if steps != [] {
      var n := Next(w, steps[0]);
      StepBalances(w, steps[0], k);
      StepKeepsInv(w, steps[0]);
      RunBalances(n, steps[1..], r, k);
      TimesOfBoth(Calls(w, steps[0]), CallsOf(n, steps[1..], r), k);
    }
  }

  /** In every run the loads of a key that ended without error are as many as the calls of the remover for it, and one
      more exactly while its value is in the cache. */
  lemma EveryLoadIsRemovedOnce<K(!new), V>(sizeBound: nat, steps: seq<Step<K, V>>, w: World<K, V>, k: K)
    requires Run(Empty<K, V>(sizeBound), steps, w)
    ensures Brought(steps, k) == Times(CallsOf(Empty<K, V>(sizeBound), steps, w), k) + Held(w.cache, k)
  {
    EmptyIsInv<K, V>(sizeBound);
    RunBalances(Empty<K, V>(sizeBound), steps, w, k);
  }
}
