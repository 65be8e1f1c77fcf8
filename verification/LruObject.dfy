/** The cache as an object updated in place, proved to do what the state machine says. */
module LruObject {
  import opened Models
  import opened Lists
  import Spec = LruCache

  class LRUSizeCache<K(==, !new), V> {
    const sizeBound: nat
    var valueHolders: map<K, Spec.Holder<V>>
    var totalSize: int
    var recentRank: seq<K>

    ghost function View(): Spec.Cache<K, V> reads this {
      Spec.Cache(valueHolders, sizeBound, totalSize, recentRank)
    }

    /** The accounts are right. */
    ghost predicate Valid() reads this {
      Spec.Accounted(View())
    }

    constructor (sizeBound: nat)
      ensures this.sizeBound == sizeBound && Valid() && View() == Spec.Cache(map[], sizeBound, 0, [])
    {
      this.sizeBound := sizeBound;
      valueHolders := map[];
      totalSize := 0;
      recentRank := [];
    }

    /** container/list removal of the element of a key. */
    method RemoveFromRank(key: K)
      modifies this`recentRank
      ensures recentRank == Without(old(recentRank), key)
    {
      var done, rest := [], recentRank;
      while rest != []
        invariant Without(recentRank, key) == done + Without(rest, key)
        decreases |rest|
      {
        if rest[0] != key {
          done := done + [rest[0]];
        }
        rest := rest[1..];
      }
      recentRank := done;
    }

    method ItemUsed(key: K)
      requires key in valueHolders
      modifies this
      ensures View() == Spec.ItemUsed(old(View()), key)
    {
      if valueHolders[key].listed {
        RemoveFromRank(key);
        recentRank := recentRank + [key];
      } else {
        recentRank := recentRank + [key];
        valueHolders := valueHolders[key := valueHolders[key].(listed := true)];
      }
    }

    method LockAndGetHolder(key: K) returns (startLoad: bool)
      modifies this
      ensures (View(), startLoad) == Spec.LockAndGetHolder(old(View()), key)
    {
      if key in valueHolders {
        var holder := valueHolders[key];
        valueHolders := valueHolders[key := holder.(lockCount := holder.lockCount + 1)];
        return false;
      }
      valueHolders := valueHolders[key := Spec.Holder(None, None, 1, 0, true, false)];
      return true;
    }

    /** The part of Get before its wait; without an answer the caller has to wait for the load. */
    method GetBegin(key: K) returns (answer: Option<(Option<V>, Option<string>)>, startLoad: bool)
      requires Valid()
      modifies this
      ensures Valid()
      ensures var (locked, starts) := Spec.LockAndGetHolder(old(View()), key);
              && startLoad == starts
              && if locked.holders[key].loading then View() == locked && answer == None
                 else locked.holders[key].lockCount > 0
                      && var (c, value, error) := Spec.Deliver(locked, key);
                         View() == c && answer == Some((value, error))
      ensures answer ==
              if key in old(valueHolders) && !old(valueHolders)[key].loading
              then Some((old(valueHolders)[key].value, old(valueHolders)[key].error)) else None
    {
      ghost var before := View();
      if key in valueHolders {
        Spec.CountingKeepsAccounts(before, key, valueHolders[key].lockCount + 1);
      } else {
        Spec.InsertionKeepsAccounts(before, key);
      }
      startLoad := LockAndGetHolder(key);
      if valueHolders[key].loading {
        return None, startLoad;
      }
      var value, error := GetEnd(key);
      return Some((value, error)), startLoad;
    }

    /** The part of Get after its wait. */
    method GetEnd(key: K) returns (value: Option<V>, error: Option<string>)
      requires Valid() && key in valueHolders && valueHolders[key].lockCount > 0 && !valueHolders[key].loading
      modifies this
      ensures Valid()
      ensures (View(), value, error) == Spec.Deliver(old(View()), key)
      ensures value == old(valueHolders[key].value) && error == old(valueHolders[key].error)
    {
      ghost var released := Spec.Release(View(), key);
      Spec.CountingKeepsAccounts(View(), key, valueHolders[key].lockCount - 1);
      Spec.ItemUsedKeepsAccounts(released, key);
      hide Spec.Accounted;
      var holder := valueHolders[key];
      valueHolders := valueHolders[key := holder.(lockCount := holder.lockCount - 1)];
      ItemUsed(key);
      return holder.value, holder.error;
    }

    method Lock(key: K) returns (startLoad: bool)
      requires Valid()
      modifies this
      ensures Valid()
      ensures View() == Spec.Lock(old(View()), key) && startLoad == (key !in old(valueHolders))
    {
      ghost var before := View();
      if key in valueHolders {
        Spec.CountingKeepsAccounts(before, key, valueHolders[key].lockCount + 1);
      } else {
        Spec.InsertionKeepsAccounts(before, key);
      }
      startLoad := LockAndGetHolder(key);
      if !valueHolders[key].loading {
        Spec.ItemUsedKeepsAccounts(View(), key);
        hide Spec.Accounted;
        ItemUsed(key);
      }
    }

    /** `calls` are the calls of the remover. */
    method Unlock(key: K) returns (result: Spec.UnlockResult, calls: seq<(K, Option<V>)>)
      requires Valid()
      modifies this
      ensures Valid() && Spec.Visitable(old(valueHolders), old(recentRank))
      ensures (View(), result) == Spec.Unlock(old(View()), key)
      ensures calls ==
              if result == Spec.Unlocked then Spec.EvictCalls(Spec.Release(old(View()), key), old(recentRank)) else []
    {
      Spec.AccountedIsVisitable(View());
      if key !in valueHolders {
        return Spec.NotFound, [];
      }
      var holder := valueHolders[key];
      if holder.lockCount == 0 {
        return Spec.NotLocked, [];
      }
      Spec.CountingKeepsAccounts(View(), key, holder.lockCount - 1);
      hide Spec.Accounted;
      valueHolders := valueHolders[key := holder.(lockCount := holder.lockCount - 1)];
      calls := RemoveItemsIfNeeded();
      return Spec.Unlocked, calls;
    }

    /** What a load does once the getter has returned. The original panics when the key is loaded already. */
    method FinishLoad(key: K, loaded: Spec.Loaded<V>) returns (calls: seq<(K, Option<V>)>)
      requires Valid() && key in valueHolders && valueHolders[key].loading
      modifies this
      ensures Valid()
      ensures var filled := Spec.Fill(old(View()), key, loaded); Spec.Visitable(filled.holders, filled.recentRank)
      ensures View() == Spec.LoadDone(old(View()), key, loaded)
      ensures var filled := Spec.Fill(old(View()), key, loaded); calls == Spec.EvictCalls(filled, filled.recentRank)
    {
      assert Spec.Loads(View(), key);
      Spec.FirstUseKeepsAccounts(View(), key, Spec.Filled(valueHolders[key], loaded));
      Spec.AccountedIsVisitable(Spec.Fill(View(), key, loaded));
      hide Spec.Accounted, Spec.RemoveItemsIfNeeded;
      totalSize := totalSize + loaded.size;
      valueHolders := valueHolders[key :=
        valueHolders[key].(value := loaded.value, error := loaded.error, size := loaded.size, loading := false)];
      ItemUsed(key);
      calls := RemoveItemsIfNeeded();
    }

    /** The original panics on a locked item. */
    method RemoveSingleItem(key: K) returns (calls: seq<(K, Option<V>)>)
      requires key in valueHolders && valueHolders[key].lockCount == 0
      modifies this
      ensures View() == Spec.RemoveSingleItem(old(View()), key)
      ensures calls == Spec.RemoverCall(old(View()), key)
    {
      calls := if valueHolders[key].error == None then [(key, valueHolders[key].value)] else [];
      totalSize := totalSize - valueHolders[key].size;
      valueHolders := valueHolders - {key};
      RemoveFromRank(key);
    }

    /** Walks the recency list from its front; the next element is taken before the current one is removed. */
    method RemoveItemsIfNeeded() returns (calls: seq<(K, Option<V>)>)
      requires Valid()
      modifies this
      ensures Valid() && Spec.Visitable(old(valueHolders), old(recentRank))
      ensures View() == Spec.RemoveItemsIfNeeded(old(View()))
      ensures calls == Spec.EvictCalls(old(View()), old(recentRank))
    {
      Spec.AccountedIsVisitable(View());
      Spec.EvictKeepsAccounts(View(), recentRank);
      hide Spec.Accounted;
      var rest := recentRank;
      calls := [];
      while totalSize > sizeBound && rest != []
        invariant Spec.Visitable(valueHolders, rest)
        invariant Spec.Evict(View(), rest) == Spec.Evict(old(View()), old(recentRank))
        invariant calls + Spec.EvictCalls(View(), rest) == Spec.EvictCalls(old(View()), old(recentRank))
        decreases |rest|
      {
        var key := rest[0];
        Spec.VisitableTail(valueHolders, rest);
        rest := rest[1..];
        if valueHolders[key].lockCount == 0 {
          var removed := RemoveSingleItem(key);
          calls := calls + removed;
        }
      }
    }
  }
}
