/** The cache under concurrent use: Get in two sections around its wait, Lock, Unlock, and loads in the background. */
module LruProtocol {
  import opened Models
  import opened Lists
  import opened LruCache

  /** `loads` are the running loads, `waiting` the Gets that wait for one, `locks` the locks callers hold, and `last`
      what the loader returned last for each key. `faulted` records a panic. */
  datatype World<!K(==), V> = World(
    cache: Cache<K, V>, loads: multiset<K>, waiting: multiset<K>, locks: multiset<K>, last: map<K, Loaded<V>>,
    faulted: bool)

  datatype Step<K, V> =
    | GetStep(key: K)
    | WakeStep(key: K)
    | LockStep(key: K)
    | UnlockStep(key: K)
    | LoadStep(key: K, loaded: Loaded<V>)

  predicate Loading<K(!new), V>(c: Cache<K, V>, key: K) {
    key in c.holders && c.holders[key].loading
  }

  /** A waiting Get goes on when the load it waited for is done. */
  predicate Enabled<K(!new), V>(w: World<K, V>, s: Step<K, V>) {
    && !w.faulted
    && Visitable(w.cache.holders, w.cache.recentRank)
    && match s
       case GetStep(_) => true
       case LockStep(_) => true
       case UnlockStep(_) => true
       case WakeStep(k) => k in w.waiting && !Loading(w.cache, k)
       case LoadStep(k, _) => k in w.loads
  }

  /** Callers unlock only what they locked, or get an error. */
  predicate Fair<K(!new), V>(w: World<K, V>, s: Step<K, V>) {
    s.UnlockStep? ==>
      s.key in w.locks || s.key !in w.cache.holders || w.cache.holders[s.key].lockCount == 0
  }

  function Get<K(!new), V>(w: World<K, V>, k: K): World<K, V> {
    var (c, starts) := LockAndGetHolder(w.cache, k);
    var begun := w.(cache := c, loads := if starts then w.loads + multiset{k} else w.loads);
    if c.holders[k].loading then begun.(waiting := w.waiting + multiset{k})
    else if c.holders[k].lockCount == 0 then begun.(faulted := true)
    else begun.(cache := Deliver(c, k).0)
  }

  function Wake<K(!new), V>(w: World<K, V>, k: K): World<K, V> {
    var begun := w.(waiting := w.waiting - multiset{k});
    if k !in w.cache.holders || w.cache.holders[k].lockCount == 0 then begun.(faulted := true)
    else begun.(cache := Deliver(w.cache, k).0)
  }

  function Load<K(!new), V>(w: World<K, V>, k: K, l: Loaded<V>): World<K, V>
    requires Visitable(w.cache.holders, w.cache.recentRank)
  {
    var begun := w.(loads := w.loads - multiset{k}, last := w.last[k := l]);
    if k !in w.cache.holders then begun.(faulted := true)
    else if w.cache.holders[k].value.Some? || w.cache.holders[k].error.Some? then begun.(faulted := true)
    else if Visitable(Fill(w.cache, k, l).holders, Fill(w.cache, k, l).recentRank) then
      begun.(cache := LoadDone(w.cache, k, l))
    else begun.(faulted := true)
  }

  function Next<K(!new), V>(w: World<K, V>, s: Step<K, V>): World<K, V>
    requires Enabled(w, s)
  {
    match s
    case GetStep(k) => Get(w, k)
    case WakeStep(k) => Wake(w, k)
    case LockStep(k) =>
      w.(cache := Lock(w.cache, k), loads := if LockAndGetHolder(w.cache, k).1 then w.loads + multiset{k} else w.loads,
         locks := w.locks + multiset{k})
    case UnlockStep(k) =>
      var (c, result) := Unlock(w.cache, k);
      w.(cache := c, locks := if result == Unlocked then w.locks - multiset{k} else w.locks)
    case LoadStep(k, l) => Load(w, k, l)
  }

  /** What a step returns to a caller of Get, if anything. */
  function Returned<K(!new), V>(w: World<K, V>, s: Step<K, V>): Option<(Option<V>, Option<string>)>
    requires Enabled(w, s)
  {
    match s
    case GetStep(k) =>
      var c := LockAndGetHolder(w.cache, k).0;
      if c.holders[k].loading || c.holders[k].lockCount == 0 then None
      else var (_, value, error) := Deliver(c, k); Some((value, error))
    case WakeStep(k) =>
      if k !in w.cache.holders || w.cache.holders[k].lockCount == 0 then None
      else var (_, value, error) := Deliver(w.cache, k); Some((value, error))
    case _ => None
  }

  // ---------- the invariant ----------

  /** A holder is locked once per open lock and per waiting Get; loaded, it holds what the loader returned last. */
  ghost predicate HolderOK<K(!new), V>(w: World<K, V>, k: K)
    requires k in w.cache.holders
  {
    var h := w.cache.holders[k];
    && h.lockCount == w.locks[k] + w.waiting[k]
    && w.loads[k] == (if h.loading then 1 else 0)
    && (if h.loading then h.value == None && h.error == None
        else k in w.last && h.value == w.last[k].value && h.error == w.last[k].error && h.size == w.last[k].size)
  }

  /** Whatever is locked, waited for or being loaded is present. */
  predicate Present<K(!new), V>(w: World<K, V>, k: K) {
    k in w.cache.holders || (w.locks[k] == 0 && w.waiting[k] == 0 && w.loads[k] == 0)
  }

  ghost predicate Inv<K(!new), V>(w: World<K, V>) {
    && !w.faulted
    && Accounted(w.cache)
    && (forall k {:trigger HolderOK(w, k)} :: k in w.cache.holders ==> HolderOK(w, k))
    && (forall k {:trigger Present(w, k)} :: Present(w, k))
  }

  // ---------- each step keeps it ----------

  lemma DeliverKeepsAccounts<K(!new), V>(c: Cache<K, V>, k: K)
    requires Accounted(c) && k in c.holders && c.holders[k].lockCount > 0 && !c.holders[k].loading
    ensures Accounted(Deliver(c, k).0)
    ensures Deliver(c, k).0.holders == c.holders[k := c.holders[k].(lockCount := c.holders[k].lockCount - 1)]
  {
    CountingKeepsAccounts(c, k, c.holders[k].lockCount - 1);
    ItemUsedKeepsAccounts(Release(c, k), k);
  }

  lemma HolderLocking<K(!new), V>(c: Cache<K, V>, k: K)
    requires Accounted(c)
    ensures Accounted(LockAndGetHolder(c, k).0)
    ensures var (r, starts) := LockAndGetHolder(c, k);
            && (starts <==> k !in c.holders)
            && r.holders == c.holders[k := if starts then Holder(None, None, 1, 0, true, false)
                                          else c.holders[k].(lockCount := c.holders[k].lockCount + 1)]
  {
    if k in c.holders {
      CountingKeepsAccounts(c, k, c.holders[k].lockCount + 1);
    } else {
      InsertionKeepsAccounts(c, k);
    }
  }

  lemma GetKeepsInv<K(!new), V>(w: World<K, V>, k: K)
    requires Inv(w)
    ensures Inv(Get(w, k))
  {
    HolderLocking(w.cache, k);
    var (c, starts) := LockAndGetHolder(w.cache, k);
    assert Present(w, k);
    assert k in w.cache.holders ==> HolderOK(w, k);
    if !c.holders[k].loading {
      DeliverKeepsAccounts(c, k);
    }
    var r := Get(w, k);
    hide Accounted;
    forall a | a in r.cache.holders
      ensures HolderOK(r, a)
    {
      assert a != k ==> HolderOK(w, a);
    }
    forall a
      ensures Present(r, a)
    {
      assert Present(w, a);
    }
  }

  lemma LockKeepsInv<K(!new), V>(w: World<K, V>, k: K)
    requires Inv(w) && Enabled(w, LockStep(k))
    ensures Inv(Next(w, LockStep(k)))
  {
    HolderLocking(w.cache, k);
    var (c, starts) := LockAndGetHolder(w.cache, k);
    assert Present(w, k);
    assert k in w.cache.holders ==> HolderOK(w, k);
    if !c.holders[k].loading {
      ItemUsedKeepsAccounts(c, k);
    }
    var r := Next(w, LockStep(k));
    hide Accounted;
    forall a | a in r.cache.holders
      ensures HolderOK(r, a)
    {
      assert a != k ==> HolderOK(w, a);
    }
    forall a
      ensures Present(r, a)
    {
      assert Present(w, a);
    }
  }

  /** A waiting Get finds its item: the entry cannot have been evicted. */
  lemma WakeKeepsInv<K(!new), V>(w: World<K, V>, k: K)
    requires Inv(w) && Enabled(w, WakeStep(k))
    ensures Inv(Wake(w, k))
  {
    assert Present(w, k) && HolderOK(w, k);
    DeliverKeepsAccounts(w.cache, k);
    var r := Wake(w, k);
    hide Accounted;
    forall a | a in r.cache.holders
      ensures HolderOK(r, a)
    {
      assert a != k ==> HolderOK(w, a);
    }
    forall a
      ensures Present(r, a)
    {
      assert Present(w, a);
    }
  }

  /** Evicting unlocked loaded items takes nothing from anybody. */
  lemma EvictionKeepsInv<K(!new), V>(w: World<K, V>)
    requires Inv(w)
    ensures Visitable(w.cache.holders, w.cache.recentRank)
    ensures Inv(w.(cache := RemoveItemsIfNeeded(w.cache)))
  {
    EvictionRestoresTheBound(w.cache);
    var c := w.cache;
    var unlocked := UnlockedKeys(c.holders, c.recentRank);
    var gone := Victims(c.holders, c.totalSize - c.sizeBound, c.recentRank);
    var r := w.(cache := RemoveItemsIfNeeded(c));
    forall k | k in gone
      ensures k in unlocked && Loads(c, k)
    {
      var i :| 0 <= i < |gone| && gone[i] == k;
      assert unlocked[i] == k;
    }
    hide Accounted, RemoveItemsIfNeeded, Victims, SizeOf, Minus;
    forall k | k in r.cache.holders
      ensures HolderOK(r, k)
    {
      assert HolderOK(w, k);
    }
    forall k
      ensures Present(r, k)
    {
      assert Present(w, k);
      assert k in gone ==> HolderOK(w, k);
    }
  }

  lemma UnlockKeepsInv<K(!new), V>(w: World<K, V>, k: K)
    requires Inv(w) && Enabled(w, UnlockStep(k)) && Fair(w, UnlockStep(k))
    ensures Inv(Next(w, UnlockStep(k)))
  {
    if k in w.cache.holders && w.cache.holders[k].lockCount > 0 {
      assert HolderOK(w, k);
      CountingKeepsAccounts(w.cache, k, w.cache.holders[k].lockCount - 1);
      var released := w.(cache := Release(w.cache, k), locks := w.locks - multiset{k});
      hide Accounted;
      forall a | a in released.cache.holders
        ensures HolderOK(released, a)
      {
        assert a != k ==> HolderOK(w, a);
      }
      forall a
        ensures Present(released, a)
      {
        assert Present(w, a);
      }
      hide RemoveItemsIfNeeded;
      EvictionKeepsInv(released);
    }
  }

  lemma LoadKeepsInv<K(!new), V>(w: World<K, V>, k: K, l: Loaded<V>)
    requires Inv(w) && Enabled(w, LoadStep(k, l))
    ensures Inv(Load(w, k, l))
  {
    assert Present(w, k) && HolderOK(w, k) && Loads(w.cache, k);
    FirstUseKeepsAccounts(w.cache, k, Filled(w.cache.holders[k], l));
    var filled := w.(cache := Fill(w.cache, k, l), loads := w.loads - multiset{k}, last := w.last[k := l]);
    AccountedIsVisitable(filled.cache);
    hide Accounted;
    forall a | a in filled.cache.holders
      ensures HolderOK(filled, a)
    {
      assert a != k ==> HolderOK(w, a);
    }
    forall a
      ensures Present(filled, a)
    {
      assert Present(w, a);
    }
    hide RemoveItemsIfNeeded;
    EvictionKeepsInv(filled);
  }

  lemma StepKeepsInv<K(!new), V>(w: World<K, V>, s: Step<K, V>)
    requires Inv(w) && Enabled(w, s) && Fair(w, s)
    ensures Inv(Next(w, s))
  {
    hide Inv, Get, Wake, Load, Unlock, Lock;
    match s
    case GetStep(k) => GetKeepsInv(w, k);
    case WakeStep(k) => WakeKeepsInv(w, k);
    case LockStep(k) => LockKeepsInv(w, k);
    case UnlockStep(k) => UnlockKeepsInv(w, k);
    case LoadStep(k, l) => LoadKeepsInv(w, k, l);
  }

  // ---------- every run ----------

  function Empty<K(!new), V>(sizeBound: nat): World<K, V> {
    World(Cache(map[], sizeBound, 0, []), multiset{}, multiset{}, multiset{}, map[], false)
  }

  ghost predicate Run<K(!new), V>(w: World<K, V>, steps: seq<Step<K, V>>, r: World<K, V>)
    decreases |steps|
  {
    if steps == [] then w == r
    else Enabled(w, steps[0]) && Fair(w, steps[0]) && Run(Next(w, steps[0]), steps[1..], r)
  }

  lemma {:induction false} RunKeepsInv<K(!new), V>(w: World<K, V>, steps: seq<Step<K, V>>, r: World<K, V>)
    requires Inv(w) && Run(w, steps, r)
    ensures Inv(r)
    decreases |steps|
  {
    hide Inv, Enabled, Fair, Next;
    if steps != [] {
      StepKeepsInv(w, steps[0]);
      RunKeepsInv(Next(w, steps[0]), steps[1..], r);
    }
  }

  lemma EmptyIsInv<K(!new), V>(sizeBound: nat)
    ensures Inv(Empty<K, V>(sizeBound))
  {
    var w := Empty<K, V>(sizeBound);
    forall k
      ensures Present(w, k)
    {
    }
  }

  /** In every run nothing panics, lock counts are the open locks plus the waiting Gets, and the list is the loaded
      keys. */
  lemma CacheIsConsistent<K(!new), V>(sizeBound: nat, steps: seq<Step<K, V>>, w: World<K, V>, k: K)
    requires Run(Empty<K, V>(sizeBound), steps, w)
    ensures !w.faulted
    ensures k in w.cache.holders ==> w.cache.holders[k].lockCount == w.locks[k] + w.waiting[k]
    ensures w.locks[k] + w.waiting[k] > 0 ==> k in w.cache.holders
    ensures Distinct(w.cache.recentRank)
    ensures k in w.cache.recentRank <==> k in w.cache.holders && !w.cache.holders[k].loading
    ensures forall a :: a in w.cache.recentRank ==> a in w.cache.holders
    ensures w.cache.totalSize == SizeOf(w.cache.holders, w.cache.recentRank)
  {
    EmptyIsInv<K, V>(sizeBound);
    RunKeepsInv(Empty<K, V>(sizeBound), steps, w);
    assert Present(w, k);
    if k in w.cache.holders {
      assert HolderOK(w, k) && Loads(w.cache, k);
    }
  }

  /** Every Get returns what the loader returned for its key, whether it waited or not; it waits exactly if the key is
      not loaded. */
  lemma GetReturnsWhatWasLoaded<K(!new), V>(
      sizeBound: nat, steps: seq<Step<K, V>>, w: World<K, V>, s: Step<K, V>)
    requires Run(Empty<K, V>(sizeBound), steps, w) && Enabled(w, s)
    ensures s.WakeStep? ==> Returned(w, s).Some?
    ensures s.GetStep? ==> (Returned(w, s).Some? <==> s.key in w.cache.recentRank)
    ensures Returned(w, s).Some? ==>
              s.key in w.last && Returned(w, s).value == (w.last[s.key].value, w.last[s.key].error)
  {
    EmptyIsInv<K, V>(sizeBound);
    RunKeepsInv(Empty<K, V>(sizeBound), steps, w);
    assert Present(w, s.key);
    if s.key in w.cache.holders {
      assert HolderOK(w, s.key) && Loads(w.cache, s.key);
    }
  }

  /** In every run Unlock finds nothing exactly if the key is neither loaded nor being loaded, and nothing locked
      exactly if no caller holds a lock on it or waits for it. */
  lemma UnlockAnswersRightly<K(!new), V>(sizeBound: nat, steps: seq<Step<K, V>>, w: World<K, V>, k: K)
    requires Run(Empty<K, V>(sizeBound), steps, w) && Enabled(w, UnlockStep(k))
    ensures var result := Unlock(w.cache, k).1;
            && (result == NotFound <==> k !in w.cache.recentRank && w.loads[k] == 0)
            && (result == NotLocked <==> result != NotFound && w.locks[k] + w.waiting[k] == 0)
            && (result == Unlocked <==> w.locks[k] + w.waiting[k] > 0)
  {
    EmptyIsInv<K, V>(sizeBound);
    RunKeepsInv(Empty<K, V>(sizeBound), steps, w);
    assert Present(w, k);
    if k in w.cache.holders {
      assert HolderOK(w, k) && Loads(w.cache, k);
    }
  }

  /** The loader is a function of the key. */
  ghost predicate LoadedBy<K(!new), V>(steps: seq<Step<K, V>>, f: K -> Loaded<V>) {
    forall i :: 0 <= i < |steps| && steps[i].LoadStep? ==> steps[i].loaded == f(steps[i].key)
  }

  lemma {:induction false} LastIsTheLoader<K(!new), V>(
      w: World<K, V>, steps: seq<Step<K, V>>, r: World<K, V>, f: K -> Loaded<V>)
    requires Run(w, steps, r) && LoadedBy(steps, f)
    requires forall k :: k in w.last ==> w.last[k] == f(k)
    ensures forall k :: k in r.last ==> r.last[k] == f(k)
    decreases |steps|
  {
    if steps != [] {
      hide Unlock, Lock, LockAndGetHolder, Deliver, LoadDone, Visitable, Fill;
      LastIsTheLoader(Next(w, steps[0]), steps[1..], r, f);
    }
  }

  /** With a loader that is a function of the key, a Get is that function, however the calls interleave. */
  lemma GetIsTheLoader<K(!new), V>(
      sizeBound: nat, steps: seq<Step<K, V>>, w: World<K, V>, s: Step<K, V>, f: K -> Loaded<V>)
    requires Run(Empty<K, V>(sizeBound), steps, w) && Enabled(w, s) && LoadedBy(steps, f) && Returned(w, s).Some?
    ensures Returned(w, s).value == (f(s.key).value, f(s.key).error)
  {
    GetReturnsWhatWasLoaded(sizeBound, steps, w, s);
    LastIsTheLoader(Empty<K, V>(sizeBound), steps, w, f);
  }

  // ---------- the bound ----------

  predicate WithinBound<K(!new), V>(c: Cache<K, V>) {
    c.totalSize <= c.sizeBound || forall k :: k in c.recentRank ==> k in c.holders && c.holders[k].lockCount > 0
  }

  /** After a load and after a successful Unlock the total size is within the bound, or all loaded items are locked. */
  lemma LoadsAndUnlocksRestoreTheBound<K(!new), V>(w: World<K, V>, s: Step<K, V>)
    requires Inv(w) && Enabled(w, s) && Fair(w, s)
    requires s.LoadStep? || (s.UnlockStep? && Unlock(w.cache, s.key).1 == Unlocked)
    ensures WithinBound(Next(w, s).cache)
  {
    var k := s.key;
    assert Present(w, k);
    assert HolderOK(w, k) && Loads(w.cache, k);
    if s.UnlockStep? {
      CountingKeepsAccounts(w.cache, k, w.cache.holders[k].lockCount - 1);
      EvictionRestoresTheBound(Release(w.cache, k));
    } else {
      FirstUseKeepsAccounts(w.cache, k, Filled(w.cache.holders[k], s.loaded));
      EvictionRestoresTheBound(Fill(w.cache, k, s.loaded));
    }
  }

  /** A Get that waited for its load gives up the last lock of its item while the cache is too large. */
  predicate Overflows<K(!new), V>(w: World<K, V>, s: Step<K, V>) {
    && s.WakeStep? && w.cache.totalSize > w.cache.sizeBound
    && s.key in w.cache.holders && w.cache.holders[s.key].lockCount == 1
  }

  /** Every step keeps the bound, but exactly such a Get, which does not evict. */
  lemma StepKeepsTheBoundExactly<K(!new), V>(w: World<K, V>, s: Step<K, V>)
    requires Inv(w) && Enabled(w, s) && Fair(w, s) && WithinBound(w.cache)
    ensures WithinBound(Next(w, s).cache) <==> !Overflows(w, s)
  {
    var k := s.key;
    assert Present(w, k) && (k in w.cache.holders ==> HolderOK(w, k) && Loads(w.cache, k));
    match s
    case GetStep(_) => GetKeepsTheBound(w, k);
    case LockStep(_) =>
      HolderLocking(w.cache, k);
      var c := LockAndGetHolder(w.cache, k).0;
      WithoutIsRemoval(c.recentRank, k);
    case WakeStep(_) => WakeKeepsTheBoundExactly(w, k);
    case LoadStep(_, _) => LoadsAndUnlocksRestoreTheBound(w, s);
    case UnlockStep(_) =>
      if Unlock(w.cache, k).1 == Unlocked {
        LoadsAndUnlocksRestoreTheBound(w, s);
      }
  }

  lemma GetKeepsTheBound<K(!new), V>(w: World<K, V>, k: K)
    requires Inv(w) && WithinBound(w.cache)
    ensures WithinBound(Get(w, k).cache)
  {
    assert Present(w, k) && (k in w.cache.holders ==> HolderOK(w, k) && Loads(w.cache, k));
    HolderLocking(w.cache, k);
    var c := LockAndGetHolder(w.cache, k).0;
    if !c.holders[k].loading {
      DeliverKeepsAccounts(c, k);
      WithoutIsRemoval(c.recentRank, k);
    }
  }

  lemma WakeKeepsTheBoundExactly<K(!new), V>(w: World<K, V>, k: K)
    requires Inv(w) && Enabled(w, WakeStep(k)) && WithinBound(w.cache)
    ensures WithinBound(Wake(w, k).cache) <==> !Overflows(w, WakeStep(k))
  {
    assert Present(w, k) && HolderOK(w, k) && Loads(w.cache, k);
    DeliverKeepsAccounts(w.cache, k);
    WithoutIsRemoval(w.cache.recentRank, k);
    var c := Wake(w, k).cache;
    assert k in c.recentRank;
    assert forall a :: a in c.recentRank <==> a in w.cache.recentRank;
  }

  ghost predicate NeverOverflows<K(!new), V>(w: World<K, V>, steps: seq<Step<K, V>>, r: World<K, V>)
    requires Run(w, steps, r)
    decreases |steps|
  {
    steps == [] || (!Overflows(w, steps[0]) && NeverOverflows(Next(w, steps[0]), steps[1..], r))
  }

  lemma {:induction false} RunKeepsTheBound<K(!new), V>(w: World<K, V>, steps: seq<Step<K, V>>, r: World<K, V>)
    requires Inv(w) && WithinBound(w.cache) && Run(w, steps, r) && NeverOverflows(w, steps, r)
    ensures WithinBound(r.cache)
    decreases |steps|
  {
    hide Inv, Enabled, Fair, Next, Overflows, WithinBound;
    if steps != [] {
      StepKeepsInv(w, steps[0]);
      StepKeepsTheBoundExactly(w, steps[0]);
      RunKeepsTheBound(Next(w, steps[0]), steps[1..], r);
    }
  }

  /** From the empty cache on, the bound holds whenever no Get in the run has given up the last lock of
      an item in a cache that is too large. */
  lemma BoundHoldsWithoutOverflow<K(!new), V>(sizeBound: nat, steps: seq<Step<K, V>>, w: World<K, V>)
    requires Run(Empty<K, V>(sizeBound), steps, w) && NeverOverflows(Empty<K, V>(sizeBound), steps, w)
    ensures WithinBound(w.cache)
  {
    EmptyIsInv<K, V>(sizeBound);
    RunKeepsTheBound(Empty<K, V>(sizeBound), steps, w);
  }

  const One: Loaded<int> := Loaded(Some(1), None, 1)

  function AfterGet(): World<int, int> {
    World(Cache(map[7 := Holder(None, None, 1, 0, true, false)], 0, 0, []),
          multiset{7}, multiset{7}, multiset{}, map[], false)
  }

  function AfterLoad(): World<int, int> {
    World(Cache(map[7 := Holder(Some(1), None, 1, 1, false, true)], 0, 1, [7]),
          multiset{}, multiset{7}, multiset{}, map[7 := One], false)
  }

  function AfterWake(): World<int, int> {
    World(Cache(map[7 := Holder(Some(1), None, 0, 1, false, true)], 0, 1, [7]),
          multiset{}, multiset{}, multiset{}, map[7 := One], false)
  }

  lemma LoadingStep()
    ensures Enabled(AfterGet(), LoadStep(7, One)) && Next(AfterGet(), LoadStep(7, One)) == AfterLoad()
  {
    var w := AfterGet();
    var filled := Fill(w.cache, 7, One);
    assert filled == AfterLoad().cache;
    assert Evict(filled, [7]) == filled;
    assert w.last[7 := One] == AfterLoad().last;
  }

  lemma WakingStep()
    ensures Enabled(AfterLoad(), WakeStep(7)) && Next(AfterLoad(), WakeStep(7)) == AfterWake()
  {
    assert Without([7], 7) == [];
    assert Deliver(AfterLoad().cache, 7).0 == AfterWake().cache;
  }

  /** This happens: the bound is not an invariant. */
  lemma AGetCanExceedTheBound()
    ensures Run(Empty<int, int>(0), [GetStep(7), LoadStep(7, One), WakeStep(7)], AfterWake())
    ensures !WithinBound(AfterWake().cache)
  {
    var start := Empty<int, int>(0);
    assert Next(start, GetStep(7)) == AfterGet();
    LoadingStep();
    WakingStep();
    assert 7 in AfterWake().cache.recentRank;
    hide Next;
    var steps := [GetStep(7), LoadStep(7, One), WakeStep(7)];
    var wake: seq<Step<int, int>> := [WakeStep(7)];
    assert steps[1..][1..] == wake && wake[1..] == [];
    assert Run(AfterWake(), [], AfterWake());
    assert Run(AfterLoad(), wake, AfterWake());
    assert Run(AfterGet(), steps[1..], AfterWake());
  }

  // ---------- why callers must unlock only what they locked ----------

  /** Exactly the unfair unlocks break the accounting of locks. */
  lemma OnlyFairUnlocksKeepInv<K(!new), V>(w: World<K, V>, s: Step<K, V>)
    requires Inv(w) && Enabled(w, s)
    ensures Inv(Next(w, s)) <==> Fair(w, s)
  {
    if Fair(w, s) {
      StepKeepsInv(w, s);
    } else {
      var k := s.key;
      assert HolderOK(w, k);
      var r := Next(w, s);
      CountingKeepsAccounts(w.cache, k, w.cache.holders[k].lockCount - 1);
      EvictionRestoresTheBound(Release(w.cache, k));
      hide Accounted;
      assert !Present(r, k) || (k in r.cache.holders && !HolderOK(r, k));
    }
  }

  /** An item that stays locked stays, with its value. */
  lemma LockedItemsStay<K(!new), V>(w: World<K, V>, s: Step<K, V>, k: K)
    requires Inv(w) && Enabled(w, s) && Fair(w, s)
    requires k in w.cache.holders && !w.cache.holders[k].loading && w.cache.holders[k].lockCount > 0
    requires s.key == k ==> !s.UnlockStep? && !s.WakeStep?
    ensures k in Next(w, s).cache.holders && !Next(w, s).cache.holders[k].loading
    ensures Next(w, s).cache.holders[k].value == w.cache.holders[k].value
    ensures Next(w, s).cache.holders[k].error == w.cache.holders[k].error
  {
    hide Evict, Visitable, SizeOf, Distinct;
    var r := Next(w, s);
    StepKeepsInv(w, s);
    assert HolderOK(w, k) && Present(r, k);
    assert r.locks[k] + r.waiting[k] > 0 && r.loads[k] == 0 && k in w.last by {
      hide Accounted, Inv, RemoveItemsIfNeeded, LoadDone;
      assert LockAndGetHolder(w.cache, s.key).1 ==> s.key != k;
    }
    assert k in r.last && r.last[k] == w.last[k] by {
      hide Accounted, Inv, RemoveItemsIfNeeded, LoadDone;
    }
    assert HolderOK(r, k);
  }
}
