/** The pool itself, and contiguous caches beside it, run by a caller. */
module CacheReplay {
  import opened CacheAgreement
  import opened ContiguousCaches
  import opened Multiples
  import opened PageBudget
  import opened PageContents
  import opened Pages
  import PagedKVPool

  /** An operation with both tensors. */
  datatype Call<K, V> =
    | RegisterBoth(slot: nat, blankKeys: seq<seq<K>>, blankValues: seq<seq<V>>)
    | WriteBoth(slot: nat, keys: seq<seq<K>>, values: seq<seq<V>>, length: nat, prefix: nat)
    | ReorderBoth(slot: nat, hypo: seq<nat>)
    | DropBoth(slot: nat)
  {
    function Keys(): Op<K>
    {
      match this
      case RegisterBoth(slot, blankKeys, _) => Register(slot, blankKeys)
      case WriteBoth(slot, keys, _, length, prefix) => Write(slot, keys, length, prefix)
      case ReorderBoth(slot, hypo) => Reorder(slot, hypo)
      case DropBoth(slot) => Drop(slot)
    }

    function Values(): Op<V>
    {
      match this
      case RegisterBoth(slot, _, blankValues) => Register(slot, blankValues)
      case WriteBoth(slot, _, values, length, prefix) => Write(slot, values, length, prefix)
      case ReorderBoth(slot, hypo) => Reorder(slot, hypo)
      case DropBoth(slot) => Drop(slot)
    }

    predicate Even()
    {
      RegisterBoth? ==> |blankKeys| == |blankValues|
    }
  }

  ghost function PoolLayout<K, V>(pool: PagedKVPool.PagedKVPool<K, V>): Layout
    reads pool
  {
    LayoutOf(|pool.freePages|, pool.blockTables)
  }

  /** One operation on the pool. It succeeds exactly when it finds its pages; then it changes what the pool holds and
      how many pages are free as specified. If it fails it leaves what the pool holds. Only a failed reorder loses
      pages. */
  method Perform<K, V>(pool: PagedKVPool.PagedKVPool<K, V>, call: Call<K, V>, ghost maxLength: nat) returns (ok: bool)
    requires pool.Valid() && call.Even()
    requires Allowed(pool.keys, call.Keys(), maxLength) && Allowed(pool.values, call.Values(), maxLength)
    modifies pool, pool.keyPool, pool.valuePool
    ensures pool.Valid() && Named(old(PoolLayout(pool)), call.Keys())
    ensures ok <==> FindsPages(old(PoolLayout(pool)), call.Keys(), pool.pageSize)
    ensures ok ==> PoolLayout(pool) == LayoutAfter(old(PoolLayout(pool)), call.Keys(), pool.pageSize)
    ensures ok ==> pool.keys == StoredAfter(old(pool.keys), call.Keys(), maxLength)
    ensures ok ==> pool.values == StoredAfter(old(pool.values), call.Values(), maxLength)
    ensures !ok ==> pool.keys == old(pool.keys) && pool.values == old(pool.values) && pool.freePages == []
    ensures ok || !call.ReorderBoth? ==> NoneLost(old(pool.owner), pool.owner)
  {
    ghost var free, tables := |pool.freePages|, pool.blockTables;
    AllowedIsNamed(pool.pageSize, free, tables, pool.keys, call.Keys(), maxLength);
    match call {
      case RegisterBoth(slot, blankKeys, _) =>
        pool.RegisterSlot(slot, |blankKeys|);
        LayoutOfRegistered(free, tables, slot, |blankKeys|);
        ok := true;
      case WriteBoth(slot, keys, values, length, prefix) =>
        ok := pool.Scatter(slot, keys, values, length, prefix);
        if ok && prefix < length {
          LayoutOfFilled(|pool.freePages|, tables, pool.blockTables, slot, PagesFor(length, pool.pageSize));
        }
      case ReorderBoth(slot, hypo) =>
        ok := pool.Reorder(slot, hypo);
        if ok {
          LayoutOfReordered(|pool.freePages|, tables, pool.blockTables, slot, hypo);
        }
      case DropBoth(slot) =>
        pool.FreeSlot(slot);
        LayoutOfDropped(|pool.freePages|, tables, slot);
        ok := true;
    }
  }

  function KeyOps<K, V>(calls: seq<Call<K, V>>): (ops: seq<Op<K>>)
  {
    seq(|calls|, i requires 0 <= i < |calls| => calls[i].Keys())
  }

  function ValueOps<K, V>(calls: seq<Call<K, V>>): (ops: seq<Op<V>>)
  {
    seq(|calls|, i requires 0 <= i < |calls| => calls[i].Values())
  }

  lemma {:induction false} AllowedPrefix<T>(ops: seq<Op<T>>, maxLength: nat, i: nat)
    requires AllowedRun(ops, maxLength) && i <= |ops|
    ensures AllowedRun(ops[..i], maxLength)
    ensures i < |ops| ==> Allowed(StoredRun(ops[..i], maxLength), ops[i], maxLength)
    ensures i < |ops| ==> StoredRun(ops[..i + 1], maxLength)
                          == StoredAfter(StoredRun(ops[..i], maxLength), ops[i], maxLength)
    decreases |ops| - i
  {
    if i == |ops| {
      assert ops[..i] == ops;
    } else {
      AllowedPrefix(ops, maxLength, i + 1);
      assert ops[..i + 1][..i] == ops[..i];
    }
  }

  lemma StoredNext<T>(ops: seq<Op<T>>, maxLength: nat, i: nat, stored: Stored<T>)
    requires AllowedRun(ops, maxLength) && i < |ops| && stored == StoredRun(ops[..i], maxLength)
    ensures Allowed(stored, ops[i], maxLength)
    ensures StoredRun(ops[..i + 1], maxLength) == StoredAfter(stored, ops[i], maxLength)
  {
    AllowedPrefix(ops, maxLength, i);
  }

  /** `rows` is the first `p` entries of each row of `cache`. */
  ghost predicate FirstEntries<T>(rows: seq<seq<T>>, cache: seq<seq<T>>, p: nat)
  {
    |rows| == |cache| && forall r | 0 <= r < |rows| :: p <= |cache[r]| && rows[r] == cache[r][..p]
  }

  ghost predicate Reaches<T>(stored: Stored<T>, slot: nat, p: nat)
  {
    slot in stored && forall r | 0 <= r < |stored[slot]| :: p <= |stored[slot][r]|
  }

  lemma GatheredAgrees<T>(ops: seq<Op<T>>, maxLength: nat, slot: nat, p: nat, rows: seq<seq<T>>)
    requires AllowedRun(ops, maxLength)
    requires Reaches(StoredRun(ops, maxLength), slot, p) && |rows| == |StoredRun(ops, maxLength)[slot]|
    requires forall r | 0 <= r < |rows| :: PagedKVPool.Shows(rows[r], StoredRun(ops, maxLength)[slot][r], p)
    ensures slot in CacheRun(ops, maxLength) && FirstEntries(rows, CacheRun(ops, maxLength)[slot], p)
  {
    var stored, caches := StoredRun(ops, maxLength), CacheRun(ops, maxLength);
    assert SlotAgrees(stored[slot], caches[slot], maxLength);
    forall r | 0 <= r < |rows| ensures p <= |caches[slot][r]| && rows[r] == caches[slot][r][..p] {
      assert rows[r] == stored[slot][r][..p];
    }
  }

  lemma EnoughPages<T>(size: nat, tables: Tables, stored: Stored<T>, slot: nat, p: nat)
    requires size > 0 && Fits(size, tables, stored) && Reaches(stored, slot, p)
    ensures forall r | 0 <= r < |tables[slot]| :: PagesFor(p, size) <= |tables[slot][r]|
  {
    forall r | 0 <= r < |tables[slot]| ensures PagesFor(p, size) <= |tables[slot][r]| {
      assert HasRow(tables, slot, r);
      PagesForBounds(p, size);
      if PagesFor(p, size) > |tables[slot][r]| {
        TimesAfter(|tables[slot][r]|, PagesFor(p, size), size);
      }
    }
  }

  /** Any run on an empty pool succeeds exactly when every operation finds its pages, which the operations and the
      number of free pages decide. Then no page is lost, the number of free pages is the one foreseen, and a gather of
      any prefix that has been written yields what the contiguous caches hold after the same run. */
  method Replay<K, V>(pool: PagedKVPool.PagedKVPool<K, V>, calls: seq<Call<K, V>>, slot: nat, p: nat,
                      ghost maxLength: nat)
    returns (ok: bool, ks: seq<seq<K>>, vs: seq<seq<V>>)
    requires pool.Valid() && pool.keys == map[] && pool.values == map[]
    requires forall i | 0 <= i < |calls| :: calls[i].Even()
    requires AllowedRun(KeyOps(calls), maxLength) && AllowedRun(ValueOps(calls), maxLength)
    requires Reaches(StoredRun(KeyOps(calls), maxLength), slot, p)
             && Reaches(StoredRun(ValueOps(calls), maxLength), slot, p)
    modifies pool, pool.keyPool, pool.valuePool
    ensures pool.Valid()
    ensures ok <==> RunFindsPages(KeyOps(calls), |old(pool.freePages)|, pool.pageSize)
    ensures ok ==> PoolLayout(pool) == LayoutRun(KeyOps(calls), |old(pool.freePages)|, pool.pageSize)
    ensures ok || (forall i | 0 <= i < |calls| :: !calls[i].ReorderBoth?) ==> NoneLost(old(pool.owner), pool.owner)
    ensures ok ==> slot in CacheRun(KeyOps(calls), maxLength)
                   && FirstEntries(ks, CacheRun(KeyOps(calls), maxLength)[slot], p)
    ensures ok ==> slot in CacheRun(ValueOps(calls), maxLength)
                   && FirstEntries(vs, CacheRun(ValueOps(calls), maxLength)[slot], p)
  {
    ghost var keyOps, valueOps := KeyOps(calls), ValueOps(calls);
    ks, vs := [], [];
    ok := PerformAll(pool, calls, maxLength);
    if ok {
      assert keyOps[..|calls|] == keyOps && valueOps[..|calls|] == valueOps;
      EnoughPages(pool.pageSize, pool.blockTables, pool.keys, slot, p);
      ks, vs := pool.Gather(slot, p);
      GatheredAgrees(keyOps, maxLength, slot, p, ks);
      GatheredAgrees(valueOps, maxLength, slot, p, vs);
    }
  }

  /** The first `i` calls have been made on a pool that was empty, had `free` pages and the given owners of its
      pages. */
  ghost predicate Made<K, V>(pool: PagedKVPool.PagedKVPool<K, V>, calls: seq<Call<K, V>>, free: nat, owner: seq<Owner>,
                             maxLength: nat, i: nat)
    requires i <= |calls|
    reads pool, pool.keyPool, pool.valuePool
  {
    && pool.Valid() && NoneLost(owner, pool.owner)
    && pool.keys == StoredRun(KeyOps(calls)[..i], maxLength)
    && pool.values == StoredRun(ValueOps(calls)[..i], maxLength)
    && PoolLayout(pool) == LayoutRun(KeyOps(calls)[..i], free, pool.pageSize)
    && FirstFindPages(KeyOps(calls), free, pool.pageSize, i)
  }

  method PerformNext<K, V>(pool: PagedKVPool.PagedKVPool<K, V>, calls: seq<Call<K, V>>, ghost free: nat,
                           ghost owner: seq<Owner>, ghost maxLength: nat, i: nat)
    returns (ok: bool)
    requires i < |calls| && calls[i].Even() && Made(pool, calls, free, owner, maxLength, i)
    requires AllowedRun(KeyOps(calls), maxLength) && AllowedRun(ValueOps(calls), maxLength)
    modifies pool, pool.keyPool, pool.valuePool
    ensures pool.Valid()
    ensures ok <==> StepFindsPages(KeyOps(calls), free, pool.pageSize, i)
    ensures ok ==> Made(pool, calls, free, owner, maxLength, i + 1)
    ensures !ok ==> !RunFindsPages(KeyOps(calls), free, pool.pageSize)
    ensures ok || !calls[i].ReorderBoth? ==> NoneLost(owner, pool.owner)
  {
    ghost var keyOps, valueOps, before := KeyOps(calls), ValueOps(calls), pool.owner;
    AllowedPrefix(keyOps, maxLength, i);
    AllowedPrefix(valueOps, maxLength, i);
    ok := Perform(pool, calls[i], maxLength);
    if ok || !calls[i].ReorderBoth? {
      NoneLostTwice(owner, before, pool.owner);
    }
    if ok {
      FoundNext(keyOps, free, pool.pageSize, i);
    } else {
      NotFound(keyOps, free, pool.pageSize, i);
    }
  }

  /** The calls of a run, one after the other, until one fails. */
  method PerformAll<K, V>(pool: PagedKVPool.PagedKVPool<K, V>, calls: seq<Call<K, V>>, ghost maxLength: nat)
    returns (ok: bool)
    requires pool.Valid() && pool.keys == map[] && pool.values == map[]
    requires forall i | 0 <= i < |calls| :: calls[i].Even()
    requires AllowedRun(KeyOps(calls), maxLength) && AllowedRun(ValueOps(calls), maxLength)
    modifies pool, pool.keyPool, pool.valuePool
    ensures pool.Valid()
    ensures ok <==> RunFindsPages(KeyOps(calls), |old(pool.freePages)|, pool.pageSize)
    ensures ok ==> Made(pool, calls, |old(pool.freePages)|, old(pool.owner), maxLength, |calls|)
    ensures ok || (forall i | 0 <= i < |calls| :: !calls[i].ReorderBoth?) ==> NoneLost(old(pool.owner), pool.owner)
  {
    ghost var free, owner := |pool.freePages|, pool.owner;
    LayoutOfEmpty(pool.pageSize, free, pool.blockTables, pool.keys, KeyOps(calls));
    assert ValueOps(calls)[..0] == [];
    ok := true;
    for i := 0 to |calls|
      invariant ok && Made(pool, calls, free, owner, maxLength, i)
    {
      ok := PerformNext(pool, calls, free, owner, maxLength, i);
      if !ok { return; }
    }
  }

  // ----- both caches side by side -----

  /** Up to its high-water marks the pool's slot holds what the contiguous cache holds. */
  ghost predicate SideBySide<K, V>(pool: PagedKVPool.PagedKVPool<K, V>, slot: nat, cache: ContiguousCache<K, V>)
    reads pool, cache.keyCache, cache.valueCache
  {
    && slot in pool.keys && SlotAgrees(pool.keys[slot], cache.keyCache[..], cache.maxLength)
    && slot in pool.values && SlotAgrees(pool.values[slot], cache.valueCache[..], cache.maxLength)
  }

  ghost predicate Separate<K, V>(pool: PagedKVPool.PagedKVPool<K, V>, cache: ContiguousCache<K, V>)
  {
    {pool.keyPool as object, pool.valuePool as object} !! {cache.keyCache as object, cache.valueCache as object}
  }

  /** What a write or a reorder of the slot does to the contiguous cache. */
  method PerformOnCache<K, V>(cache: ContiguousCache<K, V>, call: Call<K, V>, ghost keys: Stored<K>,
                              ghost values: Stored<V>)
    requires cache.Valid() && !call.DropBoth?
    requires Allowed(keys, call.Keys(), cache.maxLength) && Allowed(values, call.Values(), cache.maxLength)
    requires call.slot in keys && SlotAgrees(keys[call.slot], cache.keyCache[..], cache.maxLength)
    requires call.slot in values && SlotAgrees(values[call.slot], cache.valueCache[..], cache.maxLength)
    modifies cache.keyCache, cache.valueCache
    ensures cache.Valid()
    ensures SlotAgrees(StoredAfter(keys, call.Keys(), cache.maxLength)[call.slot], cache.keyCache[..], cache.maxLength)
    ensures SlotAgrees(StoredAfter(values, call.Values(), cache.maxLength)[call.slot], cache.valueCache[..],
                       cache.maxLength)
  {
    match call {
      case WriteBoth(slot, newKeys, newValues, length, prefix) =>
        if prefix < length {
          WriteKeepsAgreement(keys[slot], cache.keyCache[..], newKeys, prefix, length, cache.maxLength);
          WriteKeepsAgreement(values[slot], cache.valueCache[..], newValues, prefix, length, cache.maxLength);
        }
        cache.UpdateCache(newKeys, newValues, length, prefix);
      case ReorderBoth(slot, hypo) =>
        ReorderKeepsAgreement(keys[slot], cache.keyCache[..], hypo, cache.maxLength);
        ReorderKeepsAgreement(values[slot], cache.valueCache[..], hypo, cache.maxLength);
        cache.ReorderInPlace(hypo);
      case RegisterBoth(_, _, _) =>
    }
  }

  /** The next call of a run on the pool, and on the contiguous cache when it is about the slot. */
  method PerformBeside<K, V>(pool: PagedKVPool.PagedKVPool<K, V>, cache: ContiguousCache<K, V>, slot: nat,
                             calls: seq<Call<K, V>>, ghost free: nat, ghost owner: seq<Owner>, i: nat)
    returns (ok: bool)
    requires i < |calls| && calls[i].Even() && Made(pool, calls, free, owner, cache.maxLength, i)
    requires AllowedRun(KeyOps(calls), cache.maxLength) && AllowedRun(ValueOps(calls), cache.maxLength)
    requires calls[i].DropBoth? ==> calls[i].slot != slot
    requires cache.Valid() && Separate(pool, cache) && SideBySide(pool, slot, cache)
    modifies pool, pool.keyPool, pool.valuePool, cache.keyCache, cache.valueCache
    ensures pool.Valid() && cache.Valid()
    ensures ok ==> Made(pool, calls, free, owner, cache.maxLength, i + 1) && SideBySide(pool, slot, cache)
    ensures !ok ==> !RunFindsPages(KeyOps(calls), free, pool.pageSize)
  {
    ghost var keys, values := pool.keys, pool.values;
    StoredNext(KeyOps(calls), cache.maxLength, i, keys);
    StoredNext(ValueOps(calls), cache.maxLength, i, values);
    ok := PerformNext(pool, calls, free, owner, cache.maxLength, i);
    if ok {
      if calls[i].slot == slot {
        PerformOnCache(cache, calls[i], keys, values);
      } else {
        OtherSlotStays(keys, calls[i].Keys(), cache.maxLength, slot);
        OtherSlotStays(values, calls[i].Values(), cache.maxLength, slot);
      }
    }
  }

  /** Announces the slot to the pool and sets up its contiguous cache. */
  method StartBeside<K, V>(pool: PagedKVPool.PagedKVPool<K, V>, calls: seq<Call<K, V>>, slot: nat, maxLength: nat)
    returns (cache: ContiguousCache<K, V>)
    requires pool.Valid() && pool.keys == map[] && pool.values == map[]
    requires |calls| > 0 && calls[0].RegisterBoth? && calls[0].slot == slot && calls[0].Even()
    requires AllowedRun(KeyOps(calls), maxLength) && AllowedRun(ValueOps(calls), maxLength)
    modifies pool, pool.keyPool, pool.valuePool
    ensures cache.Valid() && Separate(pool, cache) && fresh(cache.keyCache) && fresh(cache.valueCache)
            && cache.maxLength == maxLength
    ensures Made(pool, calls, |old(pool.freePages)|, old(pool.owner), maxLength, 1) && SideBySide(pool, slot, cache)
  {
    ghost var free, owner := |pool.freePages|, pool.owner;
    LayoutOfEmpty(pool.pageSize, free, pool.blockTables, pool.keys, KeyOps(calls));
    StoredNext(KeyOps(calls), maxLength, 0, map[]);
    StoredNext(ValueOps(calls), maxLength, 0, map[]);
    var ok := PerformNext(pool, calls, free, owner, maxLength, 0);
    cache := new ContiguousCache(maxLength, calls[0].blankKeys, calls[0].blankValues);
    RegisteredBeside(pool, cache, calls[0]);
  }

  lemma RegisteredBeside<K, V>(pool: PagedKVPool.PagedKVPool<K, V>, cache: ContiguousCache<K, V>, call: Call<K, V>)
    requires call.RegisterBoth? && cache.Valid()
    requires cache.keyCache[..] == call.blankKeys && cache.valueCache[..] == call.blankValues
    requires Allowed(map[], call.Keys(), cache.maxLength) && Allowed(map[], call.Values(), cache.maxLength)
    requires pool.keys == StoredAfter(map[], call.Keys(), cache.maxLength)
    requires pool.values == StoredAfter(map[], call.Values(), cache.maxLength)
    ensures SideBySide(pool, call.slot, cache)
  {
    RegisteredAgrees(call.Keys(), cache.maxLength);
    RegisteredAgrees(call.Values(), cache.maxLength);
  }

  /** The same calls made on the pool and, as far as they are about one slot, on a contiguous cache: whatever prefix has
      been written, both return the same keys and values. */
  method CompareBeside<K, V>(pool: PagedKVPool.PagedKVPool<K, V>, calls: seq<Call<K, V>>, slot: nat, p: nat,
                             maxLength: nat)
    returns (ok: bool, gathered: (seq<seq<K>>, seq<seq<V>>), selected: (seq<seq<K>>, seq<seq<V>>))
    requires pool.Valid() && pool.keys == map[] && pool.values == map[]
    requires |calls| > 0 && calls[0].RegisterBoth? && calls[0].slot == slot
    requires forall i | 0 <= i < |calls| :: calls[i].Even() && (calls[i].DropBoth? ==> calls[i].slot != slot)
    requires AllowedRun(KeyOps(calls), maxLength) && AllowedRun(ValueOps(calls), maxLength)
    requires p <= maxLength
    requires Reaches(StoredRun(KeyOps(calls), maxLength), slot, p)
             && Reaches(StoredRun(ValueOps(calls), maxLength), slot, p)
    modifies pool, pool.keyPool, pool.valuePool
    ensures pool.Valid()
    ensures ok <==> RunFindsPages(KeyOps(calls), |old(pool.freePages)|, pool.pageSize)
    ensures ok ==> gathered == selected
                   && FirstOf(gathered.0, StoredRun(KeyOps(calls), maxLength)[slot], p)
                   && FirstOf(gathered.1, StoredRun(ValueOps(calls), maxLength)[slot], p)
  {
    ghost var free, owner := |pool.freePages|, pool.owner;
    gathered, selected, ok := ([], []), ([], []), true;
    var cache := StartBeside(pool, calls, slot, maxLength);
    for i := 1 to |calls|
      invariant ok && Made(pool, calls, free, owner, maxLength, i)
      invariant cache.Valid() && SideBySide(pool, slot, cache)
    {
      ok := PerformBeside(pool, cache, slot, calls, free, owner, i);
      if !ok { return; }
    }
    assert KeyOps(calls)[..|calls|] == KeyOps(calls) && ValueOps(calls)[..|calls|] == ValueOps(calls);
    gathered, selected := GatherBeside(pool, cache, slot, p);
  }

  method GatherBeside<K, V>(pool: PagedKVPool.PagedKVPool<K, V>, cache: ContiguousCache<K, V>, slot: nat, p: nat)
    returns (gathered: (seq<seq<K>>, seq<seq<V>>), selected: (seq<seq<K>>, seq<seq<V>>))
    requires pool.Valid() && cache.Valid() && SideBySide(pool, slot, cache) && p <= cache.maxLength
    requires Reaches(pool.keys, slot, p) && Reaches(pool.values, slot, p)
    ensures gathered == selected && FirstOf(gathered.0, pool.keys[slot], p) && FirstOf(gathered.1, pool.values[slot], p)
  {
    EnoughPages(pool.pageSize, pool.blockTables, pool.keys, slot, p);
    var ks, vs := pool.Gather(slot, p);
    var ks', vs' := cache.SelectLayerPast(p);
    SamePrefixes(ks, pool.keys[slot], cache.keyCache[..], ks', p, cache.maxLength);
    SamePrefixes(vs, pool.values[slot], cache.valueCache[..], vs', p, cache.maxLength);
    gathered, selected := (ks, vs), (ks', vs');
  }

  /** The first `p` entries of every row. */
  ghost predicate FirstOf<T>(shown: seq<seq<T>>, stored: seq<seq<T>>, p: nat)
  {
    |shown| == |stored| && forall r | 0 <= r < |stored| :: p <= |stored[r]| && shown[r] == stored[r][..p]
  }

  lemma SamePrefixes<T>(shown: seq<seq<T>>, stored: seq<seq<T>>, cache: seq<seq<T>>, selected: seq<seq<T>>, p: nat,
                        maxLength: nat)
    requires |shown| == |stored| && |selected| == |cache| && SlotAgrees(stored, cache, maxLength) && p <= maxLength
    requires forall r | 0 <= r < |stored| :: p <= |stored[r]| && PagedKVPool.Shows(shown[r], stored[r], p)
    requires forall r | 0 <= r < |cache| :: selected[r] == cache[r][..p]
    ensures shown == selected && FirstOf(shown, stored, p)
  {
    forall r | 0 <= r < |shown| ensures shown[r] == selected[r] == stored[r][..p] {
      assert shown[r] == stored[r][..p];
    }
  }
}
