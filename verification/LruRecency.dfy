/** The recency list is ordered by last use, so eviction takes the least recently used items first. */
module LruRecency {
  import opened Models
  import opened Lists
  import opened LruCache
  import opened LruProtocol

  /** `lastUse` stamps every key with the moment it was last returned, locked or loaded. */
  datatype Stamped<!K(==), V> = Stamped(world: World<K, V>, lastUse: map<K, nat>, clock: nat)

  /** The item a step uses: a Get that returns, a Lock of a loaded item, a load that is done. */
  function UsedBy<K(!new), V>(w: World<K, V>, s: Step<K, V>): Option<K> {
    match s
    case GetStep(k) => if k in w.cache.holders && !w.cache.holders[k].loading then Some(k) else None
    case LockStep(k) => if k in w.cache.holders && !w.cache.holders[k].loading then Some(k) else None
    case WakeStep(k) => Some(k)
    case LoadStep(k, _) => Some(k)
    case UnlockStep(_) => None
  }

  function Advance<K(!new), V>(t: Stamped<K, V>, s: Step<K, V>): Stamped<K, V>
    requires Enabled(t.world, s)
  {
    match UsedBy(t.world, s)
    case None => t.(world := Next(t.world, s))
    case Some(k) => Stamped(Next(t.world, s), t.lastUse[k := t.clock + 1], t.clock + 1)
  }

  ghost predicate Run<K(!new), V>(t: Stamped<K, V>, steps: seq<Step<K, V>>, r: Stamped<K, V>)
    decreases |steps|
  {
    if steps == [] then t == r
    else Enabled(t.world, steps[0]) && Fair(t.world, steps[0]) && Run(Advance(t, steps[0]), steps[1..], r)
  }

  // ---------- sequences sorted by last use ----------

  predicate Later<K(!new)>(lastUse: map<K, nat>, k: K, s: seq<K>)
    requires k in lastUse
  {
    forall y :: y in s ==> y in lastUse && lastUse[k] < lastUse[y]
  }

  /** Least recently used first. */
  predicate ByUse<K(!new)>(lastUse: map<K, nat>, s: seq<K>) {
    s == [] || (s[0] in lastUse && Later(lastUse, s[0], s[1..]) && ByUse(lastUse, s[1..]))
  }

  lemma {:induction false} RemovalKeepsOrder<K(!new)>(lastUse: map<K, nat>, s: seq<K>, k: K)
    requires ByUse(lastUse, s)
    ensures ByUse(lastUse, Without(s, k))
  {
    if s != [] {
      RemovalKeepsOrder(lastUse, s[1..], k);
      WithoutIsRemoval(s[1..], k);
    }
  }

  lemma {:induction false} EvictionKeepsOrder<K(!new)>(lastUse: map<K, nat>, s: seq<K>, gone: set<K>)
    requires ByUse(lastUse, s)
    ensures ByUse(lastUse, Minus(s, gone))
  {
    if s != [] {
      EvictionKeepsOrder(lastUse, s[1..], gone);
      MinusIsRemoval(s[1..], gone);
    }
  }

  /** A key used now goes to the back. */
  lemma {:induction false} UseKeepsOrder<K(!new)>(lastUse: map<K, nat>, s: seq<K>, k: K, now: nat)
    requires ByUse(lastUse, s) && k !in s && forall y :: y in s ==> y in lastUse && lastUse[y] < now
    ensures ByUse(lastUse[k := now], s + [k])
  {
    if s == [] {
      assert s + [k] == [k];
    } else {
      UseKeepsOrder(lastUse, s[1..], k, now);
      assert (s + [k])[1..] == s[1..] + [k];
      assert s == [s[0]] + s[1..];
    }
  }

  lemma {:induction false} EarlierIsOlder<K(!new)>(lastUse: map<K, nat>, s: seq<K>, i: nat, j: nat)
    requires ByUse(lastUse, s) && i < j < |s|
    ensures s[i] in lastUse && s[j] in lastUse && lastUse[s[i]] < lastUse[s[j]]
  {
    if i == 0 {
      assert s[1..][j - 1] == s[j];
    } else {
      EarlierIsOlder(lastUse, s[1..], i - 1, j - 1);
    }
  }

  // ---------- the invariant ----------

  ghost predicate Inv<K(!new), V>(t: Stamped<K, V>) {
    && LruProtocol.Inv(t.world)
    && ByUse(t.lastUse, t.world.cache.recentRank)
    && (forall k :: k in t.world.cache.recentRank ==> k in t.lastUse && t.lastUse[k] <= t.clock)
  }

  /** The list after the use a step makes of an item. */
  function Reranked<K(!new), V>(w: World<K, V>, s: Step<K, V>): seq<K> {
    match UsedBy(w, s)
    case None => w.cache.recentRank
    case Some(k) => Without(w.cache.recentRank, k) + [k]
  }

  /** Whatever a step does to the list: the used item goes to the back, then some items may be evicted. */
  lemma StepReorders<K(!new), V>(t: Stamped<K, V>, s: Step<K, V>) returns (gone: set<K>)
    requires LruProtocol.Inv(t.world) && Enabled(t.world, s) && Fair(t.world, s)
    ensures Next(t.world, s).cache.recentRank == Minus(Reranked(t.world, s), gone)
  {
    gone := {};
    var k := s.key;
    assert Present(t.world, k) && (k in t.world.cache.holders ==> HolderOK(t.world, k) && Loads(t.world.cache, k));
    MinusNothing(Reranked(t.world, s));
    match s
    case GetStep(_) => HolderLocking(t.world.cache, k);
    case LockStep(_) => HolderLocking(t.world.cache, k);
    case WakeStep(_) =>
    case UnlockStep(_) => gone := UnlockReorders(t.world, k);
    case LoadStep(_, l) => gone := LoadReorders(t.world, k, l);
  }

  lemma UnlockReorders<K(!new), V>(w: World<K, V>, k: K) returns (gone: set<K>)
    requires LruProtocol.Inv(w) && Enabled(w, UnlockStep(k))
    ensures Next(w, UnlockStep(k)).cache.recentRank == Minus(w.cache.recentRank, gone)
  {
    gone := {};
    MinusNothing(w.cache.recentRank);
    if k in w.cache.holders && w.cache.holders[k].lockCount > 0 {
      var released := Release(w.cache, k);
      CountingKeepsAccounts(w.cache, k, w.cache.holders[k].lockCount - 1);
      EvictionRestoresTheBound(released);
      gone := Elements(Victims(released.holders, released.totalSize - released.sizeBound, released.recentRank));
    }
  }

  lemma LoadReorders<K(!new), V>(w: World<K, V>, k: K, l: Loaded<V>) returns (gone: set<K>)
    requires LruProtocol.Inv(w) && Enabled(w, LoadStep(k, l))
    ensures Next(w, LoadStep(k, l)).cache.recentRank == Minus(Without(w.cache.recentRank, k) + [k], gone)
  {
    assert Present(w, k) && HolderOK(w, k) && Loads(w.cache, k);
    var filled := Fill(w.cache, k, l);
    FirstUseKeepsAccounts(w.cache, k, Filled(w.cache.holders[k], l));
    WithoutIsRemoval(w.cache.recentRank, k);
    EvictionRestoresTheBound(filled);
    gone := Elements(Victims(filled.holders, filled.totalSize - filled.sizeBound, filled.recentRank));
  }

  lemma StepKeepsInv<K(!new), V>(t: Stamped<K, V>, s: Step<K, V>)
    requires Inv(t) && Enabled(t.world, s) && Fair(t.world, s)
    ensures Inv(Advance(t, s))
  {
    hide LruProtocol.Inv, Next, ByUse, Enabled;
    LruProtocol.StepKeepsInv(t.world, s);
    var gone := StepReorders(t, s);
    var use := Advance(t, s).lastUse;
    ReranksByUse(t, s);
    EvictionKeepsOrder(use, Reranked(t.world, s), gone);
    MinusIsRemoval(Reranked(t.world, s), gone);
  }

  lemma ReranksByUse<K(!new), V>(t: Stamped<K, V>, s: Step<K, V>)
    requires Inv(t) && Enabled(t.world, s)
    ensures var r := Advance(t, s);
            && ByUse(r.lastUse, Reranked(t.world, s))
            && (forall k :: k in Reranked(t.world, s) ==> k in r.lastUse && r.lastUse[k] <= r.clock)
  {
    hide LruProtocol.Inv, Next, ByUse;
    var before := t.world.cache.recentRank;
    match UsedBy(t.world, s)
    case None =>
    case Some(k) =>
      WithoutIsRemoval(before, k);
      RemovalKeepsOrder(t.lastUse, before, k);
      UseKeepsOrder(t.lastUse, Without(before, k), k, t.clock + 1);
  }

  lemma {:induction false} RunKeepsInv<K(!new), V>(t: Stamped<K, V>, steps: seq<Step<K, V>>, r: Stamped<K, V>)
    requires Inv(t) && Run(t, steps, r)
    ensures Inv(r)
    decreases |steps|
  {
    hide Inv, Enabled, Fair, Advance;
    if steps != [] {
      StepKeepsInv(t, steps[0]);
      RunKeepsInv(Advance(t, steps[0]), steps[1..], r);
    }
  }

  function Start<K(!new), V>(sizeBound: nat): Stamped<K, V> {
    Stamped(Empty<K, V>(sizeBound), map[], 0)
  }

  lemma RunIsInv<K(!new), V>(sizeBound: nat, steps: seq<Step<K, V>>, t: Stamped<K, V>)
    requires Run(Start<K, V>(sizeBound), steps, t)
    ensures Inv(t) && LruProtocol.Inv(t.world) && ByUse(t.lastUse, t.world.cache.recentRank)
  {
    EmptyIsInv<K, V>(sizeBound);
    RunKeepsInv(Start<K, V>(sizeBound), steps, t);
  }

  /** In every run the recency list is sorted by last use, least recently used first. */
  lemma RankIsByLastUse<K(!new), V>(sizeBound: nat, steps: seq<Step<K, V>>, t: Stamped<K, V>, i: nat, j: nat)
    requires Run(Start<K, V>(sizeBound), steps, t) && i < j < |t.world.cache.recentRank|
    ensures var rank := t.world.cache.recentRank;
            rank[i] in t.lastUse && rank[j] in t.lastUse && t.lastUse[rank[i]] < t.lastUse[rank[j]]
  {
    RunIsInv(sizeBound, steps, t);
    EarlierIsOlder(t.lastUse, t.world.cache.recentRank, i, j);
  }

  /** Every evicted item was used less recently than every unlocked item that survives the same Unlock. */
  lemma UnlockEvictsTheLeastRecentlyUsed<K(!new), V>(
      sizeBound: nat, steps: seq<Step<K, V>>, t: Stamped<K, V>, key: K, evicted: K, survivor: K)
    requires Run(Start<K, V>(sizeBound), steps, t)
    requires Enabled(t.world, UnlockStep(key)) && Fair(t.world, UnlockStep(key))
    requires var c, r := t.world.cache, Next(t.world, UnlockStep(key)).cache;
             && evicted in c.recentRank && evicted !in r.recentRank
             && survivor in r.recentRank && survivor in r.holders && r.holders[survivor].lockCount == 0
    ensures evicted in t.lastUse && survivor in t.lastUse && t.lastUse[evicted] < t.lastUse[survivor]
  {
    hide LruProtocol.Inv, Inv, Accounted, Victims, UnlockedKeys, Minus, SizeOf, Distinct, Evict, ByUse, Run, Next,
      Enabled, Fair;
    RunIsInv(sizeBound, steps, t);
    OnlyUnlockedEvict(t.world, key);
    UnlockEvicts(t.world, key);
    EvictedAreOlder(Release(t.world.cache, key), Next(t.world, UnlockStep(key)).cache, t.lastUse, evicted, survivor);
  }

  /** The same for a finished load; the item just loaded counts as the one used last. */
  lemma LoadEvictsTheLeastRecentlyUsed<K(!new), V>(
      sizeBound: nat, steps: seq<Step<K, V>>, t: Stamped<K, V>, key: K, l: Loaded<V>, evicted: K, survivor: K)
    requires Run(Start<K, V>(sizeBound), steps, t) && Enabled(t.world, LoadStep(key, l))
    requires var c, r := t.world.cache, Next(t.world, LoadStep(key, l)).cache;
             && (evicted in c.recentRank || evicted == key) && evicted !in r.recentRank
             && survivor in r.recentRank && survivor in r.holders && r.holders[survivor].lockCount == 0
    ensures var use := Advance(t, LoadStep(key, l)).lastUse;
            evicted in use && survivor in use && use[evicted] < use[survivor]
  {
    hide Inv, LruProtocol.Inv, ByUse, Accounted, Victims, UnlockedKeys, Minus, Without, SizeOf, Run, Next, Enabled,
      Fill, Reranked;
    RunIsInv(sizeBound, steps, t);
    LoadEvicts(t.world, key, l);
    ReranksByUse(t, LoadStep(key, l));
    EvictedAreOlder(Fill(t.world.cache, key, l), Next(t.world, LoadStep(key, l)).cache,
                    Advance(t, LoadStep(key, l)).lastUse, evicted, survivor);
  }

  lemma EvictedAreOlder<K(!new), V>(c: Cache<K, V>, r: Cache<K, V>, lastUse: map<K, nat>, evicted: K, survivor: K)
    requires Accounted(c) && ByUse(lastUse, c.recentRank) && forall k :: k in c.recentRank ==> k in c.holders
    requires var gone := Elements(Victims(c.holders, c.totalSize - c.sizeBound, c.recentRank));
             r.holders == c.holders - gone && r.recentRank == Minus(c.recentRank, gone)
    requires evicted in c.recentRank && evicted !in r.recentRank
    requires survivor in r.recentRank && survivor in r.holders && r.holders[survivor].lockCount == 0
    ensures evicted in lastUse && survivor in lastUse && lastUse[evicted] < lastUse[survivor]
  {
    MinusIsRemoval(c.recentRank, Elements(Victims(c.holders, c.totalSize - c.sizeBound, c.recentRank)));
    SurvivorsAreYounger(c, lastUse, evicted, survivor);
  }

  lemma OnlyUnlockedEvict<K(!new), V>(w: World<K, V>, k: K)
    requires Enabled(w, UnlockStep(k))
    ensures Next(w, UnlockStep(k)).cache != w.cache ==> k in w.cache.holders && w.cache.holders[k].lockCount > 0
  {
  }

  /** A successful Unlock evicts from the list as it is. */
  lemma UnlockEvicts<K(!new), V>(w: World<K, V>, k: K)
    requires LruProtocol.Inv(w) && Enabled(w, UnlockStep(k)) && k in w.cache.holders && w.cache.holders[k].lockCount > 0
    ensures var r, released := Next(w, UnlockStep(k)).cache, Release(w.cache, k);
            && released.recentRank == w.cache.recentRank
            && Accounted(released) && (forall a :: a in released.recentRank ==> a in released.holders)
            && var excess := released.totalSize - released.sizeBound;
            && var gone := Elements(Victims(released.holders, excess, released.recentRank));
            && r.holders == released.holders - gone && r.recentRank == Minus(released.recentRank, gone)
  {
    hide Victims, UnlockedKeys, Minus, SizeOf, Distinct, Evict;
    CountingKeepsAccounts(w.cache, k, w.cache.holders[k].lockCount - 1);
    hide Accounted;
    EvictionRestoresTheBound(Release(w.cache, k));
  }

  /** A finished load puts its item at the back of the list and then evicts. */
  lemma LoadEvicts<K(!new), V>(w: World<K, V>, k: K, l: Loaded<V>)
    requires LruProtocol.Inv(w) && Enabled(w, LoadStep(k, l))
    ensures k in w.cache.holders
    ensures var r, filled := Next(w, LoadStep(k, l)).cache, Fill(w.cache, k, l);
            && filled.recentRank == Reranked(w, LoadStep(k, l))
            && (forall a :: a in filled.recentRank <==> a in w.cache.recentRank || a == k)
            && Accounted(filled) && (forall a :: a in filled.recentRank ==> a in filled.holders)
            && var gone := Elements(Victims(filled.holders, filled.totalSize - filled.sizeBound, filled.recentRank));
            && r.holders == filled.holders - gone && r.recentRank == Minus(filled.recentRank, gone)
  {
    hide Victims, UnlockedKeys, Minus, SizeOf, Distinct, Evict;
    FillIsAccounted(w, k, l);
    hide Accounted, LruProtocol.Inv, Without, Fill;
    EvictionRestoresTheBound(Fill(w.cache, k, l));
  }

  lemma FillIsAccounted<K(!new), V>(w: World<K, V>, k: K, l: Loaded<V>)
    requires LruProtocol.Inv(w) && Enabled(w, LoadStep(k, l))
    ensures k in w.cache.holders && w.cache.holders[k].value == None && w.cache.holders[k].error == None
    ensures var filled := Fill(w.cache, k, l);
            && Accounted(filled) && filled.recentRank == Reranked(w, LoadStep(k, l))
            && (forall a :: a in filled.recentRank ==> a in filled.holders)
            && (forall a :: a in filled.recentRank <==> a in w.cache.recentRank || a == k)
  {
    hide SizeOf, Distinct;
    assert Present(w, k) && HolderOK(w, k) && Loads(w.cache, k);
    FirstUseKeepsAccounts(w.cache, k, Filled(w.cache.holders[k], l));
    WithoutIsRemoval(w.cache.recentRank, k);
  }

  lemma SurvivorsAreYounger<K(!new), V>(c: Cache<K, V>, lastUse: map<K, nat>, evicted: K, survivor: K)
    requires Accounted(c) && ByUse(lastUse, c.recentRank)
    requires var gone := Victims(c.holders, c.totalSize - c.sizeBound, c.recentRank);
             evicted in gone && survivor in c.recentRank && survivor !in gone && c.holders[survivor].lockCount == 0
    ensures evicted in lastUse && survivor in lastUse && lastUse[evicted] < lastUse[survivor]
  {
    var excess := c.totalSize - c.sizeBound;
    SameVictims(c.holders, c.holders, excess, c.recentRank);
    var i :| 0 <= i < |c.recentRank| && c.recentRank[i] == evicted;
    var j :| 0 <= j < |c.recentRank| && c.recentRank[j] == survivor;
    if j < i {
      OlderGoesFirst(c.holders, excess, c.recentRank, j, i);
    } else {
      EarlierIsOlder(lastUse, c.recentRank, i, j);
    }
  }
}
