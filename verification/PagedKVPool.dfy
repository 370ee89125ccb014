/** The paged key/value pool: a free list, block tables and one array of pages per tensor, all updated in place. */
module PagedKVPool {
  import opened Multiples
  import opened PageCounts
  import opened Pages
  import opened PageContents
  import opened Reordering

  /** Pages were appended to the rows [from, to) of `slot`, and nothing else changed. */
  ghost predicate RowsGrown(tables: Tables, tables': Tables, slot: int, from: nat, to: nat)
    requires slot in tables
  {
    && slot in tables' && tables' == tables[slot := tables'[slot]] && |tables'[slot]| == |tables[slot]|
    && forall r | 0 <= r < |tables[slot]| :: if from <= r < to then tables[slot][r] <= tables'[slot][r]
                                             else tables'[slot][r] == tables[slot][r]
  }

  ghost predicate RowsFilled(tables: Tables, tables': Tables, slot: int, want: nat, to: nat)
    requires slot in tables
  {
    && to <= |tables[slot]| && RowsGrown(tables, tables', slot, 0, to)
    && forall q | 0 <= q < to :: |tables'[slot][q]| == Needed(|tables[slot][q]|, want)
  }

  lemma FillNext(tables: Tables, mid: Tables, tables': Tables, slot: int, want: nat, r: nat)
    requires slot in tables && RowsFilled(tables, mid, slot, want, r) && r < |tables[slot]|
    requires RowsGrown(mid, tables', slot, r, r + 1) && |tables'[slot][r]| == Needed(|mid[slot][r]|, want)
    ensures RowsFilled(tables, tables', slot, want, r + 1)
  {
  }

  /** One page more in row `r`. */
  lemma GrowNext(tables: Tables, mid: Tables, tables': Tables, slot: int, r: nat, page: nat)
    requires slot in tables && RowsGrown(tables, mid, slot, r, r + 1) && r < |tables[slot]|
    requires tables' == WithPages(mid, slot, r, [page])
    ensures RowsGrown(tables, tables', slot, r, r + 1) && |tables'[slot][r]| == |mid[slot][r]| + 1
  {
  }

  lemma FillStops(tables: Tables, mid: Tables, tables': Tables, slot: int, want: nat, r: nat)
    requires slot in tables && RowsFilled(tables, mid, slot, want, r) && r < |tables[slot]|
    requires RowsGrown(mid, tables', slot, r, r + 1)
    ensures RowsGrown(tables, tables', slot, 0, |tables[slot]|)
  {
  }

  lemma PagesAreDistinct(n: nat, free: seq<nat>, tables: Tables, owner: seq<Owner>, slot: int, k: nat)
    requires Partitioned(n, free, tables, owner) && slot in tables && forall r | 0 <= r < |tables[slot]| ::
               k < |tables[slot][r]|
    ensures forall r | 0 <= r < |tables[slot]| :: tables[slot][r][k] < n && owner[tables[slot][r][k]] == Row(slot, r, k)
  {
    forall r | 0 <= r < |tables[slot]| ensures tables[slot][r][k] < n && owner[tables[slot][r][k]] == Row(slot, r, k) {
      assert Holds(tables, slot, r, k);
    }
  }

  /** Writing the pages of column `k` of a slot's table is a write of tile `k`. */
  lemma ColumnIsTile<T>(size: nat, pool: seq<seq<T>>, pool': seq<seq<T>>, free: seq<nat>, tables: Tables,
                        owner: seq<Owner>, slot: int, pages: seq<nat>, entries: seq<seq<T>>, k: nat, mid: nat, to: nat)
    requires |pool| == |pool'| && Partitioned(|pool|, free, tables, owner) && slot in tables
    requires |pages| == |tables[slot]| == |entries| && forall r | 0 <= r < |entries| :: to <= |entries[r]|
    requires Times(k, size) <= mid <= to <= Times(k, size) + size
    requires forall r | 0 <= r < |pages| :: k < |tables[slot][r]| && pages[r] == tables[slot][r][k] && pages[r] < |pool|
    requires forall q | 0 <= q < |pool| :: |pool[q]| == size
    requires forall r | 0 <= r < |pages| :: pool'[pages[r]]
                                            == PageAfterWrite(pool[pages[r]], entries[r], Times(k, size), mid, to)
    requires forall q | 0 <= q < |pool| && q !in pages :: pool'[q] == pool[q]
    ensures TileWritten(size, pool, pool', owner, slot, entries, k, mid, to)
  {
    PagesAreDistinct(|pool|, free, tables, owner, slot, k);
    forall q | 0 <= q < |pool| ensures pool'[q] == PageAfter(size, pool[q], owner[q], slot, entries, k, mid, to) {
      var o := owner[q];
      if o.Row? && o.slot == slot && o.index == k && o.row < |entries| {
        assert OwnedBy(tables, o, q);
        assert pages[o.row] == q;
      } else {
        assert q !in pages;
      }
    }
  }

  /** How far a write of [from, to) has come when page `k` is next. */
  function Reached(size: nat, from: nat, to: nat, k: nat): nat
    requires from <= to
  {
    var start := Times(k, size);
    if start <= from then from else if start <= to then start else to
  }

  /** The share of page `k` lies within the page and is not empty; the shares of the pages cover [from, to). */
  lemma ShareOfPage(size: nat, from: nat, to: nat, k: nat)
    requires size > 0 && from < to && PagesBefore(from, size) <= k < PagesFor(to, size)
    ensures Times(k, size) <= Reached(size, from, to, k) < Reached(size, from, to, k + 1) <= Times(k, size) + size
  {
    PagesBeforeBounds(from, size);
    PagesForBounds(to, size);
    if PagesBefore(from, size) < k { TimesAfter(PagesBefore(from, size), k, size); }
    if k < PagesFor(to, size) - 1 { TimesAfter(k, PagesFor(to, size) - 1, size); }
    TimesNext(k, size);
  }

  lemma SharesCover(size: nat, from: nat, to: nat)
    requires size > 0 && from < to
    ensures Reached(size, from, to, PagesBefore(from, size)) == from
            && Reached(size, from, to, PagesFor(to, size)) == to
    ensures PagesBefore(from, size) <= PagesFor(to, size)
  {
    PagesBeforeBounds(from, size);
    PagesForBounds(to, size);
    if PagesFor(to, size) < PagesBefore(from, size) { TimesAfter(PagesFor(to, size), PagesBefore(from, size), size); }
  }

  /** Writes each row's entries [from, to) into the row's page; `start` is the position at which the page begins. */
  method WriteTile<T>(pool: array<seq<T>>, pages: seq<nat>, entries: seq<seq<T>>, start: nat, from: nat, to: nat)
    requires |entries| == |pages| && start <= from <= to
    requires forall r | 0 <= r < |pages| :: pages[r] < pool.Length && |pool[pages[r]]| >= to - start
                                            && |entries[r]| >= to
    requires forall i, j | 0 <= i < j < |pages| :: pages[i] != pages[j]
    modifies pool
    ensures forall r | 0 <= r < |pages| :: pool[pages[r]]
                                           == PageAfterWrite(old(pool[pages[r]]), entries[r], start, from, to)
    ensures forall q | 0 <= q < pool.Length && q !in pages :: pool[q] == old(pool[q])
  {
    for r := 0 to |pages|
      invariant forall i | 0 <= i < r :: pool[pages[i]] == PageAfterWrite(old(pool[pages[i]]), entries[i], start, from,
                                                                          to)
      invariant forall i | r <= i < |pages| :: pool[pages[i]] == old(pool[pages[i]])
      invariant forall q | 0 <= q < pool.Length && q !in pages :: pool[q] == old(pool[q])
    {
      var page := pool[pages[r]];
      pool[pages[r]] := page[..from - start] + entries[r][from..to] + page[to - start..];
    }
  }

  /** The pages show what is stored, with the entries [from, to) written over every row of `slot`. */
  ghost predicate WrittenUpTo<T>(size: nat, pool: seq<seq<T>>, owner: seq<Owner>, stored: Stored<T>, slot: int,
                                 entries: seq<seq<T>>, from: nat, to: nat)
  {
    && slot in stored && |entries| == |stored[slot]| && from <= to
    && (forall r | 0 <= r < |entries| :: to <= |entries[r]|)
    && Backs(size, pool, owner, stored[slot := Scattered(stored[slot], entries, from, to)])
  }

  lemma NothingWritten<T>(size: nat, pool: seq<seq<T>>, owner: seq<Owner>, stored: Stored<T>, slot: int,
                          entries: seq<seq<T>>, from: nat)
    requires Backs(size, pool, owner, stored)
    requires slot in stored && |entries| == |stored[slot]| && forall r | 0 <= r < |entries| :: from <= |entries[r]|
    ensures WrittenUpTo(size, pool, owner, stored, slot, entries, from, from)
  {
    var base := stored[slot];
    forall r | 0 <= r < |base| ensures Scattered(base, entries, from, from)[r] == base[r] {
      WriteNothing(base[r], entries[r], from);
    }
    assert Scattered(base, entries, from, from) == base;
    assert stored[slot := base] == stored;
  }

  lemma ScatteredFits<T>(size: nat, tables: Tables, stored: Stored<T>, slot: int, entries: seq<seq<T>>, from: nat,
                         to: nat)
    requires size > 0 && Fits(size, tables, stored) && slot in tables && from < to && |entries| == |tables[slot]|
    requires forall r | 0 <= r < |entries| :: to <= |entries[r]| && PagesFor(to, size) <= |tables[slot][r]|
    ensures Fits(size, tables, stored[slot := Scattered(stored[slot], entries, from, to)])
  {
    var stored' := stored[slot := Scattered(stored[slot], entries, from, to)];
    forall s, r: nat | HasRow(tables, s, r) ensures |stored'[s][r]| <= Times(|tables[s][r]|, size) {
      if s == slot {
        PagesForBounds(to, size);
        if PagesFor(to, size) < |tables[s][r]| { TimesAfter(PagesFor(to, size), |tables[s][r]|, size); }
      }
    }
  }

  class PagedKVPool<K, V> {
    const numPages: nat
    const pageSize: nat
    const keyPool: array<seq<K>>
    const valuePool: array<seq<V>>
    var freePages: seq<nat>
    var blockTables: Tables

    ghost var owner: seq<Owner>
    /** What has been written for each row of each slot, up to its high-water mark. */
    ghost var keys: Stored<K>
    ghost var values: Stored<V>

    ghost predicate Valid()
      reads this, keyPool, valuePool
    {
      && Shaped()
      && Partitioned(numPages, freePages, blockTables, owner)
      && Backs(pageSize, keyPool[..], owner, keys) && Backs(pageSize, valuePool[..], owner, values)
      && Fits(pageSize, blockTables, keys) && Fits(pageSize, blockTables, values)
    }

    ghost predicate Shaped()
      reads this
    {
      && pageSize > 0 && keyPool.Length == numPages == valuePool.Length && (keyPool as object) != (valuePool as object)
      && forall s | s in blockTables :: s >= 0
    }

    constructor (numPages: nat, pageSize: nat, zeroKey: K, zeroValue: V)
      requires pageSize > 0
      ensures Valid() && fresh(keyPool) && fresh(valuePool)
      ensures this.numPages == numPages && this.pageSize == pageSize
      ensures blockTables == map[] && keys == map[] && values == map[] && |freePages| == numPages && Lost !in owner
    {
      this.numPages := numPages;
      this.pageSize := pageSize;
      keyPool := new seq<K>[numPages](_ => seq(pageSize, _ => zeroKey));
      valuePool := new seq<V>[numPages](_ => seq(pageSize, _ => zeroValue));
      freePages := seq(numPages, i => i);
      blockTables := map[];
      owner := seq(numPages, _ => Free);
      keys, values := map[], map[];
      new;
      StartPartitioned(numPages);
    }

    /** Announces a slot; announcing it again changes nothing. */
    method RegisterSlot(slot: nat, batch: nat)
      requires Valid()
      modifies this
      ensures Valid()
      ensures owner == old(owner)
      ensures freePages == old(freePages)
      ensures slot in old(blockTables) ==> blockTables == old(blockTables) && keys == old(keys) && values == old(values)
      ensures slot !in old(blockTables) ==>
                && blockTables == old(blockTables)[slot := EmptyRows(batch)]
                && keys == old(keys)[slot := seq(batch, _ => [])] && values == old(values)[slot := seq(batch, _ => [])]
    {
      if slot in blockTables { return; }
      AddSlot(numPages, freePages, blockTables, owner, slot, batch);
      AddedSlotKeeps(pageSize, keyPool[..], blockTables, owner, keys, slot, batch);
      AddedSlotKeeps(pageSize, valuePool[..], blockTables, owner, values, slot, batch);
      blockTables := blockTables[slot := seq(batch, _ => [])];
      assert blockTables[slot] == EmptyRows(batch);
      keys := keys[slot := seq(batch, _ => [])];
      values := values[slot := seq(batch, _ => [])];
    }

    method AcquirePage() returns (page: nat, ok: bool)
      modifies `freePages
      ensures ok <==> old(freePages) != []
      ensures ok ==> page == old(freePages)[|old(freePages)| - 1] && freePages == old(freePages)[..|old(freePages)| - 1]
      ensures !ok ==> freePages == old(freePages)
    {
      if |freePages| == 0 { return 0, false; }
      page, freePages, ok := freePages[|freePages| - 1], freePages[..|freePages| - 1], true;
    }

    /** Appends one page to a row. */
    method GrowRow(slot: int, r: nat) returns (ok: bool)
      requires Valid() && slot in blockTables && r < |blockTables[slot]|
      modifies this
      ensures Valid() && keys == old(keys) && values == old(values)
      ensures NoneLost(old(owner), owner)
      ensures ok <==> old(freePages) != []
      ensures !ok ==> freePages == old(freePages) && blockTables == old(blockTables)
      ensures ok ==> |freePages| == |old(freePages)| - 1
      ensures ok ==> blockTables == WithPages(old(blockTables), slot, r, [old(freePages)[|old(freePages)| - 1]])
    {
      ghost var free, tables := freePages, blockTables;
      var page;
      page, ok := AcquirePage();
      if !ok { return; }
      Pages.AcquirePage(numPages, free, tables, owner, slot, r);
      GrownRowKeeps(pageSize, keyPool[..], tables, owner, keys, slot, r, page);
      GrownRowKeeps(pageSize, valuePool[..], tables, owner, values, slot, r, page);
      blockTables := blockTables[slot := blockTables[slot][r := blockTables[slot][r] + [page]]];
      owner := owner[page := Row(slot, r, |tables[slot][r]|)];
    }

    /** Appends pages to a row until it has `want`. */
    method GrowRowTo(slot: int, r: nat, want: nat) returns (ok: bool)
      requires Valid() && slot in blockTables && r < |blockTables[slot]|
      modifies this
      ensures Valid() && keys == old(keys) && values == old(values)
      ensures NoneLost(old(owner), owner)
      ensures RowsGrown(old(blockTables), blockTables, slot, r, r + 1)
      ensures ok <==> Needs(|old(blockTables)[slot][r]|, want) <= |old(freePages)|
      ensures ok ==> |freePages| == |old(freePages)| - Needs(|old(blockTables)[slot][r]|, want)
                     && |blockTables[slot][r]| == Needed(|old(blockTables)[slot][r]|, want)
      ensures !ok ==> freePages == []
    {
      ghost var tables, have := blockTables, |blockTables[slot][r]|;
      ok := true;
      while |blockTables[slot][r]| < want
        invariant Valid() && keys == old(keys) && values == old(values) && NoneLost(old(owner), owner)
        invariant RowsGrown(tables, blockTables, slot, r, r + 1) && have <= |blockTables[slot][r]| <= Needed(have, want)
        invariant |freePages| + |blockTables[slot][r]| == |old(freePages)| + have
        decreases want - |blockTables[slot][r]|
      {
        ghost var mid, free := blockTables, freePages;
        ok := GrowRow(slot, r);
        if !ok { return; }
        GrowNext(tables, mid, blockTables, slot, r, free[|free| - 1]);
      }
    }

    /** Gives every row of a slot at least `want` pages. */
    method GrowTo(slot: int, want: nat) returns (ok: bool)
      requires Valid() && slot in blockTables
      modifies this
      ensures Valid() && keys == old(keys) && values == old(values)
      ensures NoneLost(old(owner), owner)
      ensures slot in blockTables && RowsGrown(old(blockTables), blockTables, slot, 0, |old(blockTables)[slot]|)
      ensures ok ==> RowsFilled(old(blockTables), blockTables, slot, want, |old(blockTables)[slot]|)
      ensures ok <==> MissingFrom(RowSizes(old(blockTables)[slot]), want, 0) <= |old(freePages)|
      ensures ok ==> |freePages| == |old(freePages)| - MissingFrom(RowSizes(old(blockTables)[slot]), want, 0)
      ensures !ok ==> freePages == []
    {
      ghost var tables, sizes := blockTables, RowSizes(blockTables[slot]);
      ok := true;
      var r := 0;
      while r < |blockTables[slot]|
        invariant Valid() && keys == old(keys) && values == old(values) && NoneLost(old(owner), owner)
        invariant slot in blockTables && RowsFilled(tables, blockTables, slot, want, r)
        invariant |freePages| - MissingFrom(sizes, want, r) == |old(freePages)| - MissingFrom(sizes, want, 0)
      {
        ghost var mid := blockTables;
        assert |mid[slot][r]| == sizes[r];
        ok := GrowRowTo(slot, r, want);
        FillStops(tables, mid, blockTables, slot, want, r);
        if !ok { return; }
        FillNext(tables, mid, blockTables, slot, want, r);
        r := r + 1;
      }
    }

    /** Writes one column of pages of one tensor. */
    method WriteColumn<T>(pool: array<seq<T>>, slot: int, entries: seq<seq<T>>, k: nat, mid: nat, to: nat,
                          ghost stored: Stored<T>, ghost from: nat)
      requires Partitioned(pool.Length, freePages, blockTables, owner) && slot in blockTables && slot in stored
      requires |entries| == |blockTables[slot]| == |stored[slot]| && from <= mid < to
      requires forall r | 0 <= r < |entries| :: to <= |entries[r]| && k < |blockTables[slot][r]|
      requires Times(k, pageSize) <= mid && to <= Times(k, pageSize) + pageSize
      requires WrittenUpTo(pageSize, pool[..], owner, stored, slot, entries, from, mid)
      modifies pool
      ensures WrittenUpTo(pageSize, pool[..], owner, stored, slot, entries, from, to)
    {
      ghost var before := pool[..];
      var table := blockTables[slot];
      PagesAreDistinct(pool.Length, freePages, blockTables, owner, slot, k);
      var pages: seq<nat> := seq(|table|, r requires 0 <= r < |table| && k < |table[r]| => table[r][k]);
      forall r | 0 <= r < |pages| ensures pages[r] < pool.Length && |pool[pages[r]]| == pageSize {
        assert |before[pages[r]]| == pageSize;
      }
      WriteTile(pool, pages, entries, Times(k, pageSize), mid, to);
      ColumnIsTile(pageSize, before, pool[..], freePages, blockTables, owner, slot, pages, entries, k, mid, to);
      TileBacks(pageSize, before, pool[..], owner, stored, slot, stored[slot], entries, k, from, mid, to);
    }

    /** Writes the entries [prefix, newLength) of every row of a slot into its pages, page by page. */
    method WritePages(slot: int, newKeys: seq<seq<K>>, newValues: seq<seq<V>>, prefix: nat, newLength: nat)
      requires Valid() && slot in blockTables && prefix < newLength
      requires Complete(newKeys, |blockTables[slot]|, newLength) && Complete(newValues, |blockTables[slot]|, newLength)
      requires forall r | 0 <= r < |blockTables[slot]| :: PagesFor(newLength, pageSize) <= |blockTables[slot][r]|
      modifies keyPool, valuePool
      ensures WrittenUpTo(pageSize, keyPool[..], owner, keys, slot, newKeys, prefix, newLength)
      ensures WrittenUpTo(pageSize, valuePool[..], owner, values, slot, newValues, prefix, newLength)
    {
      SharesCover(pageSize, prefix, newLength);
      var k, reached := PagesBefore(prefix, pageSize), prefix;
      NothingWritten(pageSize, keyPool[..], owner, keys, slot, newKeys, prefix);
      NothingWritten(pageSize, valuePool[..], owner, values, slot, newValues, prefix);
      while k < PagesFor(newLength, pageSize)
        invariant PagesBefore(prefix, pageSize) <= k <= PagesFor(newLength, pageSize)
                  && reached == Reached(pageSize, prefix, newLength, k)
        invariant WrittenUpTo(pageSize, keyPool[..], owner, keys, slot, newKeys, prefix, reached)
        invariant WrittenUpTo(pageSize, valuePool[..], owner, values, slot, newValues, prefix, reached)
      {
        reached := WriteBothColumns(slot, newKeys, newValues, prefix, newLength, k, reached);
        k := k + 1;
      }
      assert reached == newLength;
    }

    /** Writes the share of page `k` of both tensors and returns how far the write has come. */
    method WriteBothColumns(slot: int, newKeys: seq<seq<K>>, newValues: seq<seq<V>>, prefix: nat, newLength: nat,
                            k: nat, from: nat)
      returns (to: nat)
      requires Shaped() && Partitioned(numPages, freePages, blockTables, owner) && slot in blockTables
      requires prefix < newLength && PagesBefore(prefix, pageSize) <= k < PagesFor(newLength, pageSize)
      requires Complete(newKeys, |blockTables[slot]|, newLength) && Complete(newValues, |blockTables[slot]|, newLength)
      requires forall r | 0 <= r < |blockTables[slot]| :: k < |blockTables[slot][r]|
      requires from == Reached(pageSize, prefix, newLength, k)
      requires WrittenUpTo(pageSize, keyPool[..], owner, keys, slot, newKeys, prefix, from)
      requires WrittenUpTo(pageSize, valuePool[..], owner, values, slot, newValues, prefix, from)
      modifies keyPool, valuePool
      ensures to == Reached(pageSize, prefix, newLength, k + 1)
      ensures WrittenUpTo(pageSize, keyPool[..], owner, keys, slot, newKeys, prefix, to)
      ensures WrittenUpTo(pageSize, valuePool[..], owner, values, slot, newValues, prefix, to)
    {
      ShareOfPage(pageSize, prefix, newLength, k);
      to := Reached(pageSize, prefix, newLength, k + 1);
      WriteColumn(keyPool, slot, newKeys, k, from, to, keys, prefix);
      WriteColumn(valuePool, slot, newValues, k, from, to, values, prefix);
    }

    ghost method RecordWrite(slot: int, newKeys: seq<seq<K>>, newValues: seq<seq<V>>, prefix: nat, newLength: nat)
      requires Shaped() && Partitioned(numPages, freePages, blockTables, owner) && slot in blockTables
               && prefix < newLength
      requires Fits(pageSize, blockTables, keys) && Fits(pageSize, blockTables, values)
      requires WrittenUpTo(pageSize, keyPool[..], owner, keys, slot, newKeys, prefix, newLength)
      requires WrittenUpTo(pageSize, valuePool[..], owner, values, slot, newValues, prefix, newLength)
      requires forall r | 0 <= r < |blockTables[slot]| :: PagesFor(newLength, pageSize) <= |blockTables[slot][r]|
      modifies `keys, `values
      ensures Valid()
      ensures keys == old(keys)[slot := Scattered(old(keys)[slot], newKeys, prefix, newLength)]
      ensures values == old(values)[slot := Scattered(old(values)[slot], newValues, prefix, newLength)]
    {
      ScatteredFits(pageSize, blockTables, keys, slot, newKeys, prefix, newLength);
      ScatteredFits(pageSize, blockTables, values, slot, newValues, prefix, newLength);
      keys := keys[slot := Scattered(keys[slot], newKeys, prefix, newLength)];
      values := values[slot := Scattered(values[slot], newValues, prefix, newLength)];
    }

    /** Stores the entries [prefix, newLength) of every row; fails, with nothing written, when the pages run out. */
    method Scatter(slot: nat, newKeys: seq<seq<K>>, newValues: seq<seq<V>>, newLength: nat, prefix: nat)
      returns (ok: bool)
      requires Valid() && slot in blockTables
      requires Complete(newKeys, |blockTables[slot]|, newLength) && Complete(newValues, |blockTables[slot]|, newLength)
      modifies this, keyPool, valuePool
      ensures Valid()
      ensures NoneLost(old(owner), owner)
      ensures newLength <= prefix ==> ok && freePages == old(freePages) && blockTables == old(blockTables)
      ensures newLength <= prefix || !ok ==> keys == old(keys) && values == old(values)
      ensures prefix < newLength ==> (ok <==> MissingFrom(RowSizes(old(blockTables)[slot]),
                                                          PagesFor(newLength, pageSize), 0) <= |old(freePages)|)
      ensures prefix < newLength && ok ==>
                && keys == old(keys)[slot := Scattered(old(keys)[slot], newKeys, prefix, newLength)]
                && values == old(values)[slot := Scattered(old(values)[slot], newValues, prefix, newLength)]
                && RowsFilled(old(blockTables), blockTables, slot, PagesFor(newLength, pageSize),
                              |old(blockTables)[slot]|)
                && |freePages| == |old(freePages)| - MissingFrom(RowSizes(old(blockTables)[slot]),
                                                                 PagesFor(newLength, pageSize), 0)
      ensures !ok ==> freePages == [] && slot in blockTables
                      && RowsGrown(old(blockTables), blockTables, slot, 0, |old(blockTables)[slot]|)
    {
      if newLength <= prefix { return true; }
      ok := GrowTo(slot, PagesFor(newLength, pageSize));
      if ok {
        WritePages(slot, newKeys, newValues, prefix, newLength);
        RecordWrite(slot, newKeys, newValues, prefix, newLength);
      }
    }

    /** Puts the pages of the rows outside `kept` back on the free list. */
    method ReclaimRows(table: Table, kept: set<nat>)
      modifies `freePages
      ensures freePages == old(freePages) + JoinedUpTo(table, kept, |table|)
    {
      for r := 0 to |table|
        invariant freePages == old(freePages) + JoinedUpTo(table, kept, r)
      {
        if r !in kept {
          freePages := freePages + table[r];
        }
      }
    }

    /** Gives all pages of a slot back; an unknown slot is ignored. */
    method FreeSlot(slot: nat)
      requires Valid()
      modifies this
      ensures Valid()
      ensures NoneLost(old(owner), owner)
      ensures blockTables == old(blockTables) - {slot} && keys == old(keys) - {slot} && values == old(values) - {slot}
      ensures slot !in old(blockTables) ==> freePages == old(freePages)
      ensures slot in old(blockTables) ==>
                freePages == old(freePages) + JoinedUpTo(old(blockTables[slot]), {}, |old(blockTables[slot])|)
    {
      if slot in blockTables {
        var table := blockTables[slot];
        SlotReleased(pageSize, keyPool[..], freePages, blockTables, owner, keys, slot);
        SlotReleased(pageSize, valuePool[..], freePages, blockTables, owner, values, slot);
        owner := FreedRows(owner, slot, {}, |table|);
        keys, values := keys - {slot}, values - {slot};
        blockTables := blockTables - {slot};
        ReclaimRows(table, {});
      } else {
        assert blockTables - {slot} == blockTables && keys - {slot} == keys && values - {slot} == values;
      }
    }

    method CopyPage(page: nat, source: nat)
      requires Shaped() && page < numPages && source < numPages
      modifies keyPool, valuePool
      ensures keyPool[..] == old(keyPool[..])[page := old(keyPool[..])[source]]
      ensures valuePool[..] == old(valuePool[..])[page := old(valuePool[..])[source]]
    {
      keyPool[page] := keyPool[source];
      valuePool[page] := valuePool[source];
    }

    /** Copies the pages of a row to newly acquired pages. */
    method CopyRow(source: seq<nat>) returns (copies: seq<nat>, ok: bool)
      requires Shaped() && FreeListIsProper() && PagesSized(pageSize, keyPool[..])
               && PagesSized(pageSize, valuePool[..])
      requires forall k | 0 <= k < |source| :: source[k] < numPages && source[k] !in freePages
      modifies `freePages, keyPool, valuePool
      ensures ok <==> |source| <= |old(freePages)|
      ensures ok ==> freePages == old(freePages)[..|old(freePages)| - |source|]
                     && copies == Popped(old(freePages), |source|)
      ensures ok ==> Copied(pageSize, old(keyPool[..]), keyPool[..], source, copies)
                     && Copied(pageSize, old(valuePool[..]), valuePool[..], source, copies)
      ensures !ok ==> freePages == []
      ensures KeptOutside(pageSize, old(keyPool[..]), keyPool[..], old(freePages))
      ensures KeptOutside(pageSize, old(valuePool[..]), valuePool[..], old(freePages))
    {
      copies, ok := [], true;
      ghost var kp, vp, free := keyPool[..], valuePool[..], freePages;
      while |copies| < |source|
        invariant |copies| <= |source| && |copies| <= |free|
        invariant freePages == free[..|free| - |copies|] && copies == Popped(free, |copies|)
        invariant Copied(pageSize, kp, keyPool[..], source[..|copies|], copies)
                  && Copied(pageSize, vp, valuePool[..], source[..|copies|], copies)
      {
        var k := |copies|;
        var page;
        page, ok := AcquirePage();
        if !ok {
          CopiedKeeps(pageSize, kp, keyPool[..], source[..k], copies, free);
          CopiedKeeps(pageSize, vp, valuePool[..], source[..k], copies, free);
          return;
        }
        CopyNext(pageSize, kp, keyPool[..], source, copies, free);
        CopyNext(pageSize, vp, valuePool[..], source, copies, free);
        CopyPage(page, source[k]);
        copies := copies + [page];
      }
      assert source[..|source|] == source;
      CopiedKeeps(pageSize, kp, keyPool[..], source, copies, free);
      CopiedKeeps(pageSize, vp, valuePool[..], source, copies, free);
    }

    /** The first `j` rows of the new table are made; `kp` and `vp` are the pools before, `own` the owners now. */
    ghost predicate Reordering(slot: nat, hypo: seq<nat>, j: nat, claimed: set<nat>, result: Table, own: seq<Owner>,
                               kp: seq<seq<K>>, vp: seq<seq<V>>)
      reads this, keyPool, valuePool
    {
      && Shaped() && |owner| == numPages && TablesOwn(numPages, blockTables, owner) && j <= |hypo|
      && Midway(numPages, freePages, blockTables, slot, hypo, j, claimed, result, own)
      && Backs(pageSize, kp, owner, keys) && Intact(pageSize, kp, keyPool[..], owner, own)
      && Backs(pageSize, vp, owner, values) && Intact(pageSize, vp, valuePool[..], owner, own)
      && MidwayBacks(pageSize, keyPool[..], own, keys, slot, hypo, j)
      && MidwayBacks(pageSize, valuePool[..], own, values, slot, hypo, j)
    }

    /** Entry `j` of the new table: the source row itself, or copies of its pages. */
    method ReorderRow(slot: nat, hypo: seq<nat>, j: nat, claimed: set<nat>, result: Table, ghost own: seq<Owner>,
                      ghost kp: seq<seq<K>>, ghost vp: seq<seq<V>>)
      returns (claimed': set<nat>, result': Table, ok: bool, ghost own': seq<Owner>)
      requires j < |hypo| && Reordering(slot, hypo, j, claimed, result, own, kp, vp)
      modifies `freePages, keyPool, valuePool
      ensures ok <==> CopiesFrom(RowSizes(blockTables[slot]), hypo, j) - CopiesFrom(RowSizes(blockTables[slot]), hypo,
                                                                                    j + 1) <= |old(freePages)|
      ensures ok ==> |freePages| - CopiesFrom(RowSizes(blockTables[slot]), hypo, j + 1)
                     == |old(freePages)| - CopiesFrom(RowSizes(blockTables[slot]), hypo, j)
      ensures !ok ==> freePages == []
      ensures Intact(pageSize, kp, keyPool[..], owner, own') && Intact(pageSize, vp, valuePool[..], owner, own')
      ensures ok ==> Reordering(slot, hypo, j + 1, claimed', result', own', kp, vp)
    {
      CopiesNext(RowSizes(blockTables[slot]), hypo, j, claimed);
      if hypo[j] !in claimed {
        ReuseRow(numPages, freePages, blockTables, slot, hypo, j, claimed, result, own);
        ReuseBacks(pageSize, keyPool[..], own, keys, slot, hypo, j);
        ReuseBacks(pageSize, valuePool[..], own, values, slot, hypo, j);
        claimed', result', ok := claimed + {hypo[j]}, result + [blockTables[slot][hypo[j]]], true;
        own' := MovedRow(own, slot, hypo[j], RESULT, j);
      } else {
        claimed' := claimed;
        result', ok, own' := AppendCopies(slot, hypo, j, claimed, result, own, kp, vp);
      }
    }

    /** The source row was used before: entry `j` gets copies of its pages. */
    method AppendCopies(slot: nat, hypo: seq<nat>, j: nat, ghost claimed: set<nat>, result: Table,
                        ghost own: seq<Owner>, ghost kp: seq<seq<K>>, ghost vp: seq<seq<V>>)
      returns (result': Table, ok: bool, ghost own': seq<Owner>)
      requires j < |hypo| && hypo[j] in claimed && Reordering(slot, hypo, j, claimed, result, own, kp, vp)
      modifies `freePages, keyPool, valuePool
      ensures ok <==> |blockTables[slot][hypo[j]]| <= |old(freePages)|
      ensures ok ==> |freePages| == |old(freePages)| - |blockTables[slot][hypo[j]]|
      ensures !ok ==> freePages == []
      ensures Intact(pageSize, kp, keyPool[..], owner, own') && Intact(pageSize, vp, valuePool[..], owner, own')
      ensures ok ==> Reordering(slot, hypo, j + 1, claimed, result', own', kp, vp)
    {
      ghost var free, kq, vq := freePages, keyPool[..], valuePool[..];
      var source := blockTables[slot][hypo[j]];
      SourceIntact(pageSize, kp, kq, blockTables, owner, own, keys, slot, hypo[j]);
      SourceIntact(pageSize, vp, vq, blockTables, owner, own, values, slot, hypo[j]);
      var copies;
      copies, ok := CopyRow(source);
      result', own' := result + [copies], own;
      if ok {
        own' := CopyRowPages(numPages, free, blockTables, slot, hypo, j, claimed, result, own);
      }
      CopiesIntact(pageSize, kp, kq, keyPool[..], owner, own, own', free);
      CopiesIntact(pageSize, vp, vq, valuePool[..], owner, own, own', free);
      if ok {
        ghost var between := Between(blockTables, slot, claimed, result');
        CopyBacks(pageSize, kq, keyPool[..], freePages, between, own, own', keys, slot, hypo, j, source, copies);
        CopyBacks(pageSize, vq, valuePool[..], freePages, between, own, own', values, slot, hypo, j, source, copies);
      }
    }

    /** Makes the rows of the new table one after the other, until the pages for the copies run out. */
    method ReorderRows(slot: nat, hypo: seq<nat>) returns (claimed: set<nat>, result: Table, ok: bool,
                                                           ghost own: seq<Owner>)
      requires Valid() && slot in blockTables && Sources(blockTables[slot], hypo)
      modifies `freePages, keyPool, valuePool
      ensures ok <==> CopiesFrom(RowSizes(blockTables[slot]), hypo, 0) <= |old(freePages)|
      ensures ok ==> |freePages| == |old(freePages)| - CopiesFrom(RowSizes(blockTables[slot]), hypo, 0)
      ensures !ok ==> freePages == []
      ensures Intact(pageSize, old(keyPool[..]), keyPool[..], owner, own)
              && Intact(pageSize, old(valuePool[..]), valuePool[..], owner, own)
      ensures ok ==> Reordering(slot, hypo, |hypo|, claimed, result, own, old(keyPool[..]), old(valuePool[..]))
    {
      result, claimed, own, ok := [], {}, owner, true;
      ghost var kp, vp := keyPool[..], valuePool[..];
      StartMidway(numPages, freePages, blockTables, slot, hypo, own);
      StartBacks(pageSize, kp, own, keys, slot, hypo);
      StartBacks(pageSize, vp, own, values, slot, hypo);
      var j := 0;
      while j < |hypo|
        invariant ok && j <= |hypo| && Reordering(slot, hypo, j, claimed, result, own, kp, vp)
        invariant |freePages| - CopiesFrom(RowSizes(blockTables[slot]), hypo, j)
                  == |old(freePages)| - CopiesFrom(RowSizes(blockTables[slot]), hypo, 0)
      {
        claimed, result, ok, own := ReorderRow(slot, hypo, j, claimed, result, own, kp, vp);
        if !ok { return; }
        j := j + 1;
      }
    }

    /** Replaces the rows of a slot by the rows that `hypo` names; fails when the pages for the copies run out. */
    method Reorder(slot: nat, hypo: seq<nat>) returns (ok: bool)
      requires Valid() && slot in blockTables && Sources(blockTables[slot], hypo)
      modifies this, keyPool, valuePool
      ensures Valid()
      ensures ok ==> NoneLost(old(owner), owner)
      ensures ok <==> CopiesFrom(RowSizes(old(blockTables)[slot]), hypo, 0) <= |old(freePages)|
      ensures ok ==>
                && keys == old(keys)[slot := Permuted(old(keys)[slot], hypo)]
                && values == old(values)[slot := Permuted(old(values)[slot], hypo)]
      ensures ok ==>
                && slot in blockTables && blockTables == old(blockTables)[slot := blockTables[slot]]
                && |blockTables[slot]| == |hypo|
                && forall j | 0 <= j < |hypo| :: |blockTables[slot][j]| == |old(blockTables)[slot][hypo[j]]|
      ensures ok ==>
                |freePages| == |old(freePages)| - CopiesFrom(RowSizes(old(blockTables)[slot]), hypo, 0)
                + Released(RowSizes(old(blockTables)[slot]), hypo)
      ensures !ok ==> freePages == [] && blockTables == old(blockTables) && keys == old(keys) && values == old(values)
    {
      ghost var kp, vp := keyPool[..], valuePool[..];
      var claimed, result;
      ghost var own;
      claimed, result, ok, own := ReorderRows(slot, hypo);
      if !ok {
        RecordLoss(kp, vp, own, old(freePages));
        return;
      }
      var table := blockTables[slot];
      RecordReorder(slot, hypo, claimed, result, own);
      blockTables := blockTables[slot := result];
      JoinedSize(table, claimed, |table|);
      ReclaimRows(table, claimed);
    }

    /** The pages taken by a reorder that failed are in no table and not free. */
    ghost method RecordLoss(kp: seq<seq<K>>, vp: seq<seq<V>>, own: seq<Owner>, free: seq<nat>)
      requires Shaped() && Partitioned(numPages, free, blockTables, owner) && freePages == []
      requires Backs(pageSize, kp, owner, keys) && Intact(pageSize, kp, keyPool[..], owner, own)
      requires Backs(pageSize, vp, owner, values) && Intact(pageSize, vp, valuePool[..], owner, own)
      requires Fits(pageSize, blockTables, keys) && Fits(pageSize, blockTables, values)
      modifies `owner
      ensures Valid() && owner == LostPages(old(owner))
    {
      LosePages(numPages, free, blockTables, owner);
      FailedReorderBacks(pageSize, kp, keyPool[..], owner, keys);
      FailedReorderBacks(pageSize, vp, valuePool[..], owner, values);
      owner := LostPages(owner);
    }

    ghost method RecordReorder(slot: nat, hypo: seq<nat>, claimed: set<nat>, result: Table, own: seq<Owner>)
      requires Midway(numPages, freePages, blockTables, slot, hypo, |hypo|, claimed, result, own)
      requires MidwayBacks(pageSize, keyPool[..], own, keys, slot, hypo, |hypo|)
               && MidwayBacks(pageSize, valuePool[..], own, values, slot, hypo, |hypo|)
      requires Fits(pageSize, blockTables, keys) && Fits(pageSize, blockTables, values)
      modifies `owner, `keys, `values
      ensures NoneLost(own, owner)
      ensures Partitioned(numPages, freePages + JoinedUpTo(blockTables[slot], claimed, |blockTables[slot]|),
                          blockTables[slot := result], owner)
      ensures keys == old(keys)[slot := Permuted(old(keys)[slot], hypo)]
              && values == old(values)[slot := Permuted(old(values)[slot], hypo)]
      ensures Backs(pageSize, keyPool[..], owner, keys) && Backs(pageSize, valuePool[..], owner, values)
      ensures Fits(pageSize, blockTables[slot := result], keys) && Fits(pageSize, blockTables[slot := result], values)
    {
      FinishReorder(numPages, freePages, blockTables, slot, hypo, claimed, result, own);
      FinishPool(numPages, freePages, blockTables, slot, hypo, claimed, result, own, pageSize, keyPool[..], keys);
      FinishPool(numPages, freePages, blockTables, slot, hypo, claimed, result, own, pageSize, valuePool[..], values);
      ReorderedNoneLost(own, slot, claimed, |blockTables[slot]|);
      owner := ReorderedOwner(own, slot, claimed, |blockTables[slot]|);
      keys, values := keys[slot := Permuted(keys[slot], hypo)], values[slot := Permuted(values[slot], hypo)];
    }

    ghost predicate FreeListIsProper()
      reads this
    {
      && (forall i | 0 <= i < |freePages| :: freePages[i] < numPages)
      && (forall i, j | 0 <= i < j < |freePages| :: freePages[i] != freePages[j])
    }

    /** The first `prefix` entries of every row of a slot, as contiguous rows. */
    method Gather(slot: nat, prefix: nat) returns (ks: seq<seq<K>>, vs: seq<seq<V>>)
      requires Valid() && slot in blockTables
      requires forall r | 0 <= r < |blockTables[slot]| :: PagesFor(prefix, pageSize) <= |blockTables[slot][r]|
      ensures |ks| == |vs| == |blockTables[slot]| == |keys[slot]| == |values[slot]|
      ensures forall r | 0 <= r < |ks| :: Shows(ks[r], keys[slot][r], prefix) && Shows(vs[r], values[slot][r], prefix)
      ensures forall r | 0 <= r < |ks| :: FromPages(ks[r], pageSize, keyPool[..], blockTables[slot][r])
      ensures forall r | 0 <= r < |vs| :: FromPages(vs[r], pageSize, valuePool[..], blockTables[slot][r])
    {
      RowPagesShow(pageSize, keyPool[..], freePages, blockTables, owner, keys, slot);
      RowPagesShow(pageSize, valuePool[..], freePages, blockTables, owner, values, slot);
      ks := GatherRows(keyPool, pageSize, blockTables[slot], prefix, keys[slot]);
      vs := GatherRows(valuePool, pageSize, blockTables[slot], prefix, values[slot]);
    }
  }

  predicate PagesSized<T>(size: nat, pool: seq<seq<T>>)
  {
    forall q | 0 <= q < |pool| :: |pool[q]| == size
  }

  /** Pages outside `free` are as they were. */
  ghost predicate KeptOutside<T>(size: nat, pool: seq<seq<T>>, pool': seq<seq<T>>, free: seq<nat>)
  {
    |pool'| == |pool| && PagesSized(size, pool') && forall q | 0 <= q < |pool| && q !in free :: pool'[q] == pool[q]
  }

  lemma CopiedKeeps<T>(size: nat, pool: seq<seq<T>>, pool': seq<seq<T>>, source: seq<nat>, copies: seq<nat>,
                       free: seq<nat>)
    requires Copied(size, pool, pool', source, copies) && |copies| <= |free| && copies == Popped(free, |copies|)
    ensures KeptOutside(size, pool, pool', free)
  {
    assert forall k | 0 <= k < |copies| :: copies[k] in free;
  }

  lemma CopiesIntact<T>(size: nat, pool0: seq<seq<T>>, pool: seq<seq<T>>, pool': seq<seq<T>>, owner: seq<Owner>,
                        own: seq<Owner>, own': seq<Owner>, free: seq<nat>)
    requires Intact(size, pool0, pool, owner, own) && KeptOutside(size, pool, pool', free) && |own'| == |own|
    requires forall i | 0 <= i < |free| :: free[i] < |own| && own[free[i]] == Free
    requires forall p | 0 <= p < |own| && own'[p] != own[p] :: own[p] == Free && own'[p].Row?
    ensures Intact(size, pool0, pool', owner, own')
  {
  }

  lemma CopyNext<T>(size: nat, pool: seq<seq<T>>, pool': seq<seq<T>>, source: seq<nat>, copies: seq<nat>,
                    free: seq<nat>)
    requires |copies| < |source| && |copies| < |free| && copies == Popped(free, |copies|)
    requires (forall i | 0 <= i < |free| :: free[i] < |pool|)
             && (forall i, j | 0 <= i < j < |free| :: free[i] != free[j])
    requires forall k | 0 <= k < |source| :: source[k] < |pool| && source[k] !in free
    requires Copied(size, pool, pool', source[..|copies|], copies)
    ensures var page := free[|free| - 1 - |copies|];
            && copies + [page] == Popped(free, |copies| + 1)
            && pool'[source[|copies|]] == pool[source[|copies|]]
            && Copied(size, pool, pool'[page := pool'[source[|copies|]]], source[..|copies| + 1], copies + [page])
  {
    var page := free[|free| - 1 - |copies|];
    assert page !in copies;
    assert source[|copies|] !in copies;
  }

  // ----- gathering -----

  /** `row` has `prefix` entries, and those below the high-water mark are the stored ones. */
  ghost predicate Shows<T>(row: seq<T>, stored: seq<T>, prefix: nat)
  {
    |row| == prefix && forall t | 0 <= t < prefix && t < |stored| :: row[t] == stored[t]
  }

  method GatherRows<T>(pool: array<seq<T>>, size: nat, table: Table, prefix: nat, ghost stored: seq<seq<T>>)
    returns (rows: seq<seq<T>>)
    requires size > 0 && |stored| == |table|
    requires forall r | 0 <= r < |table| :: PagesFor(prefix, size) <= |table[r]|
                                            && RowShown(size, pool[..], table[r], stored[r])
    ensures |rows| == |table| && forall r | 0 <= r < |table| :: Shows(rows[r], stored[r], prefix)
    ensures forall r | 0 <= r < |table| :: FromPages(rows[r], size, pool[..], table[r])
  {
    rows := [];
    while |rows| < |table|
      invariant |rows| <= |table| && forall r | 0 <= r < |rows| :: Shows(rows[r], stored[r], prefix)
      invariant forall r | 0 <= r < |rows| :: FromPages(rows[r], size, pool[..], table[r])
    {
      var row := GatherRow(pool, size, table[|rows|], prefix, stored[|rows|]);
      rows := rows + [row];
    }
  }

  /** Puts the first pages of a row one after the other and cuts the result to `prefix` entries. */
  method GatherRow<T>(pool: array<seq<T>>, size: nat, pages: seq<nat>, prefix: nat, ghost stored: seq<T>)
    returns (row: seq<T>)
    requires size > 0 && PagesFor(prefix, size) <= |pages| && RowShown(size, pool[..], pages, stored)
    ensures Shows(row, stored, prefix) && FromPages(row, size, pool[..], pages)
  {
    var padded := [];
    var k := 0;
    while k < PagesFor(prefix, size)
      invariant k <= PagesFor(prefix, size) && Shows(padded, stored, Times(k, size))
                && FromPages(padded, size, pool[..], pages)
    {
      assert PageShows(size, pool[..][pages[k]], stored, k);
      OnePageMore(size, padded, pool[pages[k]], stored, k);
      NextFromPages(padded, size, pool[..], pages, k);
      padded := padded + pool[pages[k]];
      k := k + 1;
    }
    PagesForBounds(prefix, size);
    FirstFromPages(padded, size, pool[..], pages, prefix);
    row := padded[..prefix];
  }

  /** The row is the beginning of the pages put one after the other, whatever they hold. */
  ghost predicate FromPages<T>(row: seq<T>, size: nat, pool: seq<seq<T>>, pages: seq<nat>)
  {
    forall k, off | 0 <= k < |pages| && 0 <= off < size :: EntryFromPage(row, size, pool, pages[k], k, off)
  }

  ghost predicate EntryFromPage<T>(row: seq<T>, size: nat, pool: seq<seq<T>>, page: nat, k: nat, off: nat)
  {
    Times(k, size) + off < |row| ==>
      page < |pool| && off < |pool[page]| && row[Times(k, size) + off] == pool[page][off]
  }

  lemma NextFromPages<T>(row: seq<T>, size: nat, pool: seq<seq<T>>, pages: seq<nat>, n: nat)
    requires FromPages(row, size, pool, pages) && |row| == Times(n, size)
    requires n < |pages| && pages[n] < |pool| && |pool[pages[n]]| == size
    ensures FromPages(row + pool[pages[n]], size, pool, pages)
  {
    forall k, off | 0 <= k < |pages| && 0 <= off < size
      ensures EntryFromPage(row + pool[pages[n]], size, pool, pages[k], k, off)
    {
      assert EntryFromPage(row, size, pool, pages[k], k, off);
      if k > n {
        TimesAfter(n, k, size);
      } else if k < n {
        TimesAfter(k, n, size);
      } else {
        assert (row + pool[pages[n]])[|row| + off] == pool[pages[n]][off];
      }
    }
  }

  lemma FirstFromPages<T>(row: seq<T>, size: nat, pool: seq<seq<T>>, pages: seq<nat>, prefix: nat)
    requires FromPages(row, size, pool, pages) && prefix <= |row|
    ensures FromPages(row[..prefix], size, pool, pages)
  {
    forall k, off | 0 <= k < |pages| && 0 <= off < size
      ensures EntryFromPage(row[..prefix], size, pool, pages[k], k, off)
    {
      assert EntryFromPage(row, size, pool, pages[k], k, off);
    }
  }

  lemma OnePageMore<T>(size: nat, row: seq<T>, page: seq<T>, stored: seq<T>, k: nat)
    requires Shows(row, stored, Times(k, size)) && PageShows(size, page, stored, k)
    ensures Shows(row + page, stored, Times(k + 1, size))
  {
    TimesNext(k, size);
    forall t | Times(k, size) <= t < Times(k + 1, size) && t < |stored| ensures (row + page)[t] == stored[t] {
      assert page[t - Times(k, size)] == stored[Times(k, size) + (t - Times(k, size))];
    }
  }

  lemma AddedSlotKeeps<T>(size: nat, pool: seq<seq<T>>, tables: Tables, owner: seq<Owner>, stored: Stored<T>,
                          slot: int, batch: nat)
    requires Backs(size, pool, owner, stored) && Fits(size, tables, stored) && slot !in tables
    ensures Backs(size, pool, owner, stored[slot := seq(batch, _ => [])])
    ensures Fits(size, tables[slot := EmptyRows(batch)], stored[slot := seq(batch, _ => [])])
  {
    var tables', stored' := tables[slot := EmptyRows(batch)], stored[slot := seq(batch, _ => [])];
    forall q | 0 <= q < |pool| ensures OwnerShows(size, pool[q], owner[q], stored') {
      assert OwnerShows(size, pool[q], owner[q], stored);
    }
    forall s, r: nat | HasRow(tables', s, r) ensures |stored'[s][r]| <= Times(|tables'[s][r]|, size) {
      assert s != slot ==> HasRow(tables, s, r);
    }
  }

  lemma GrownRowKeeps<T>(size: nat, pool: seq<seq<T>>, tables: Tables, owner: seq<Owner>, stored: Stored<T>, slot: int,
                         r: nat, page: nat)
    requires Backs(size, pool, owner, stored) && Fits(size, tables, stored) && HasRow(tables, slot, r) && page < |owner|
    ensures Backs(size, pool, owner[page := Row(slot, r, |tables[slot][r]|)], stored)
    ensures Fits(size, WithPages(tables, slot, r, [page]), stored)
  {
    var first := |tables[slot][r]|;
    TakePagesBacks(size, pool, owner, owner[page := Row(slot, r, first)], stored, slot, r, first);
    var tables' := WithPages(tables, slot, r, [page]);
    forall s, q: nat | HasRow(tables', s, q) ensures |stored[s][q]| <= Times(|tables'[s][q]|, size) {
      assert HasRow(tables, s, q);
      TimesNext(first, size);
    }
  }
}
