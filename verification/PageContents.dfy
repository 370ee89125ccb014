/**
 What the pages of a paged store hold.

 `pool[q]` is physical page `q`, a row of `size` token entries (the keys, or the values, of all heads at one
 position count as one entry). `stored[slot][row]` is what has been written for that row so far, position by
 position: its length is the row's high-water mark. Page `k` of a row shows the positions
 [k * size, (k + 1) * size) of what is stored for it.
 */
module PageContents {
  import opened Multiples
  import opened PageCounts
  import opened Pages

  /** The number of whole pages before position `n`: the quotient rounded down. */
  function PagesBefore(n: nat, size: nat): (k: nat)
    requires size > 0
  {
    if n < size then 0 else 1 + PagesBefore(n - size, size)
  }

  /** The number of pages that `n` positions need: the quotient rounded up. */
  function PagesFor(n: nat, size: nat): (k: nat)
    requires size > 0
  {
    if n == 0 then 0 else if n <= size then 1 else 1 + PagesFor(n - size, size)
  }

  lemma {:induction false} TimesNext(k: nat, size: nat)
    ensures Times(k + 1, size) == size + Times(k, size)
  {
  }

  lemma {:induction false} PagesBeforeBounds(n: nat, size: nat)
    requires size > 0
    ensures Times(PagesBefore(n, size), size) <= n < Times(PagesBefore(n, size), size) + size
  {
    if n >= size {
      PagesBeforeBounds(n - size, size);
    }
  }

  lemma {:induction false} PagesForBounds(n: nat, size: nat)
    requires size > 0
    ensures n <= Times(PagesFor(n, size), size) < n + size
  {
    if n > size {
      PagesForBounds(n - size, size);
    }
  }

  /** A row that is filled for `length` positions has the least number of pages that holds them, or more if it had
      more. */
  lemma FilledWithLeast(have: nat, length: nat, size: nat)
    requires size > 0
    ensures var n := Needed(have, PagesFor(length, size));
            && n >= have && n == have + Needs(have, PagesFor(length, size)) && length <= Times(n, size)
            && forall fewer | have <= fewer < n :: Times(fewer, size) < length
  {
    var want := PagesFor(length, size);
    PagesForBounds(length, size);
    if want < have { TimesAfter(want, have, size); }
    forall fewer | have <= fewer < Needed(have, want) ensures Times(fewer, size) < length {
      TimesAfter(fewer, want, size);
    }
  }

  // ----- what is stored -----

  type Stored<T> = map<int, seq<seq<T>>>

  ghost predicate PageShows<T>(size: nat, page: seq<T>, row: seq<T>, k: nat)
  {
    && |page| == size
    && forall off | 0 <= off < size && Times(k, size) + off < |row| :: page[off] == row[Times(k, size) + off]
  }

  ghost predicate OwnerShows<T>(size: nat, page: seq<T>, o: Owner, stored: Stored<T>)
  {
    o.Row? ==> o.slot in stored && o.row < |stored[o.slot]| && PageShows(size, page, stored[o.slot][o.row], o.index)
  }

  /** Every page that belongs to a row shows its share of what is stored for the row. */
  ghost predicate Backs<T>(size: nat, pool: seq<seq<T>>, owner: seq<Owner>, stored: Stored<T>)
  {
    && |pool| == |owner|
    && forall q | 0 <= q < |pool| :: |pool[q]| == size && OwnerShows(size, pool[q], owner[q], stored)
  }

  predicate HasRow(tables: Tables, s: int, r: nat)
  {
    s in tables && r < |tables[s]|
  }

  /** The pages of every row have room for what is stored for it. */
  ghost predicate Fits<T>(size: nat, tables: Tables, stored: Stored<T>)
  {
    && tables.Keys == stored.Keys
    && (forall s | s in tables :: |tables[s]| == |stored[s]|)
    && (forall s, r: nat | HasRow(tables, s, r) :: |stored[s][r]| <= Times(|tables[s][r]|, size))
  }

  // ----- writing tokens -----

  /** A full-length tensor of new entries: `length` entries for each of `batch` rows. */
  predicate Complete<T>(entries: seq<seq<T>>, batch: nat, length: nat)
  {
    |entries| == batch && forall r | 0 <= r < batch :: |entries[r]| == length
  }

  /** `row` after the entries [from, to) of `entries` were written over it; a write that would leave a gap is
      beyond the high-water mark and stores nothing below it. */
  function AfterWrite<T>(row: seq<T>, entries: seq<T>, from: nat, to: nat): seq<T>
    requires from <= to <= |entries|
  {
    if from > |row| then row
    else row[..from] + entries[from..to] + (if to <= |row| then row[to..] else [])
  }

  lemma WriteNothing<T>(row: seq<T>, entries: seq<T>, from: nat)
    requires from <= |entries|
    ensures AfterWrite(row, entries, from, from) == row
  {
    if from <= |row| {
      assert row[..from] + row[from..] == row;
    }
  }

  /** One page's share of a write. */
  function PageAfterWrite<T>(page: seq<T>, entries: seq<T>, start: nat, from: nat, to: nat): (p: seq<T>)
    requires start <= from <= to <= |entries| && to - start <= |page|
  {
    page[..from - start] + entries[from..to] + page[to - start..]
  }

  /** `row` holds the entries [from, to) and the rest of `base`. */
  ghost predicate Overlaid<T>(row: seq<T>, base: seq<T>, entries: seq<T>, from: nat, to: nat)
    requires from <= to <= |entries|
  {
    && |row| == (if to <= |base| then |base| else to)
    && forall t | 0 <= t < |row| :: (from <= t < to || t < |base|)
                                    && row[t] == if from <= t < to then entries[t] else base[t]
  }

  lemma AfterWriteOverlays<T>(base: seq<T>, entries: seq<T>, from: nat, to: nat)
    requires from <= to <= |entries| && from <= |base|
    ensures Overlaid(AfterWrite(base, entries, from, to), base, entries, from, to)
  {
  }

  /** Two writes from the same place differ only between their ends. */
  lemma OverlaysAgree<T>(row: seq<T>, row': seq<T>, base: seq<T>, entries: seq<T>, from: nat, mid: nat, to: nat)
    requires from <= mid <= to <= |entries| && from <= |base|
    requires row == AfterWrite(base, entries, from, mid) && row' == AfterWrite(base, entries, from, to)
    ensures forall t | 0 <= t < |row'| && !(mid <= t < to) :: t < |row| && row'[t] == row[t]
    ensures forall t | mid <= t < to :: t < |row'| && row'[t] == entries[t]
  {
    AfterWriteOverlays(base, entries, from, mid);
    AfterWriteOverlays(base, entries, from, to);
  }

  lemma PageAfterWriteAt<T>(page: seq<T>, entries: seq<T>, start: nat, from: nat, to: nat, off: nat)
    requires start <= from <= to <= |entries| && to - start <= |page| && off < |page|
    ensures |PageAfterWrite(page, entries, start, from, to)| == |page|
    ensures PageAfterWrite(page, entries, start, from, to)[off] == if from <= start + off < to
            then entries[start + off] else page[off]
  {
  }

  /** Writing the share [mid, to) of page `k` makes the page show the row written up to `to`. */
  lemma WrittenPageShows<T>(size: nat, page: seq<T>, base: seq<T>, entries: seq<T>, k: nat, from: nat, mid: nat,
                            to: nat)
    requires Times(k, size) <= mid <= to <= |entries| && to <= Times(k, size) + size
    requires from <= mid
    requires PageShows(size, page, AfterWrite(base, entries, from, mid), k)
    ensures PageShows(size, PageAfterWrite(page, entries, Times(k, size), mid, to),
                      AfterWrite(base, entries, from, to), k)
  {
    var row, row' := AfterWrite(base, entries, from, mid), AfterWrite(base, entries, from, to);
    var start := Times(k, size);
    if from <= |base| {
      OverlaysAgree(row, row', base, entries, from, mid, to);
    }
    var page' := PageAfterWrite(page, entries, start, mid, to);
    assert |page'| == size;
    forall off | 0 <= off < size && start + off < |row'| ensures page'[off] == row'[start + off] {
      PageAfterWriteAt(page, entries, start, mid, to, off);
    }
  }

  /** Writing page `k`'s share leaves what the row's other pages show as it was. */
  lemma OtherPagesShow<T>(size: nat, page: seq<T>, base: seq<T>, entries: seq<T>, k: nat, j: nat, from: nat, mid: nat,
                          to: nat)
    requires Times(k, size) <= mid < to <= |entries| && to <= Times(k, size) + size
    requires from <= mid && j != k
    requires PageShows(size, page, AfterWrite(base, entries, from, mid), j)
    ensures PageShows(size, page, AfterWrite(base, entries, from, to), j)
  {
    if j < k { TimesAfter(j, k, size); } else { TimesAfter(k, j, size); }
    if from <= |base| {
      OverlaysAgree(AfterWrite(base, entries, from, mid), AfterWrite(base, entries, from, to), base, entries, from,
                    mid, to);
    }
  }

  // ----- what the moves of pages keep -----

  function HadRow(o: Owner, slot: int, r: nat): bool
  {
    o.Row? && o.slot == slot && o.row == r
  }

  /** New pages lie above the high-water mark of their row, so they may hold anything. */
  lemma TakePagesBacks<T>(size: nat, pool: seq<seq<T>>, owner: seq<Owner>, owner': seq<Owner>, stored: Stored<T>,
                          slot: int, r: nat, first: nat)
    requires Backs(size, pool, owner, stored) && slot in stored && r < |stored[slot]| && |owner'| == |owner|
    requires |stored[slot][r]| <= Times(first, size)
    requires forall p | 0 <= p < |owner| && owner'[p] != owner[p] ::
               HadRow(owner'[p], slot, r) && owner'[p].index >= first
    ensures Backs(size, pool, owner', stored)
  {
    forall q | 0 <= q < |pool| ensures OwnerShows(size, pool[q], owner'[q], stored) {
      if owner'[q] != owner[q] && owner'[q].index > first {
        TimesAfter(first, owner'[q].index, size);
      }
    }
  }

  lemma MovedRowBacks<T>(size: nat, pool: seq<seq<T>>, owner: seq<Owner>, stored: Stored<T>, slot: int, r: nat,
                         target: int)
    requires Backs(size, pool, owner, stored) && slot in stored && r < |stored[slot]| && target in stored
             && target != slot
    ensures Backs(size, pool, MovedRow(owner, slot, r, target, |stored[target]|),
                  stored[target := stored[target] + [stored[slot][r]]])
  {
    var owner' := MovedRow(owner, slot, r, target, |stored[target]|);
    var stored' := stored[target := stored[target] + [stored[slot][r]]];
    forall q | 0 <= q < |pool| ensures OwnerShows(size, pool[q], owner'[q], stored') {
      assert OwnerShows(size, pool[q], owner[q], stored);
    }
  }

  lemma RenamedBacks<T>(size: nat, pool: seq<seq<T>>, owner: seq<Owner>, stored: Stored<T>, from: int, to: int)
    requires Backs(size, pool, owner, stored) && from in stored && to in stored && from != to
    requires forall q | 0 <= q < |owner| && owner[q].Row? :: owner[q].slot != to
    ensures Backs(size, pool, Renamed(owner, from, to), stored[to := stored[from]] - {from})
  {
    forall q | 0 <= q < |pool| ensures OwnerShows(size, pool[q], Renamed(owner, from, to)[q],
                                                  stored[to := stored[from]] - {from}) {
      assert OwnerShows(size, pool[q], owner[q], stored);
    }
  }

  lemma DroppedSlotBacks<T>(size: nat, pool: seq<seq<T>>, owner: seq<Owner>, stored: Stored<T>, slot: int)
    requires Backs(size, pool, owner, stored)
    requires forall q | 0 <= q < |owner| && owner[q].Row? :: owner[q].slot != slot
    ensures Backs(size, pool, owner, stored - {slot})
  {
    forall q | 0 <= q < |pool| ensures OwnerShows(size, pool[q], owner[q], stored - {slot}) {
      assert OwnerShows(size, pool[q], owner[q], stored);
    }
  }

  /** Every row of `base` written over [from, to). */
  function Scattered<T>(base: seq<seq<T>>, entries: seq<seq<T>>, from: nat, to: nat): (rows: seq<seq<T>>)
    requires |entries| == |base| && from <= to && forall r | 0 <= r < |entries| :: to <= |entries[r]|
    ensures |rows| == |base|
  {
    seq(|base|, r requires 0 <= r < |base| => AfterWrite(base[r], entries[r], from, to))
  }

  /** `pool'` is `pool` after page `k` of every row of `slot` received its share [mid, to). */
  ghost predicate TileWritten<T>(size: nat, pool: seq<seq<T>>, pool': seq<seq<T>>, owner: seq<Owner>, slot: int,
                                 entries: seq<seq<T>>, k: nat, mid: nat, to: nat)
    requires Times(k, size) <= mid <= to <= Times(k, size) + size && forall r | 0 <= r < |entries| :: to <= |entries[r]|
  {
    && |pool| == |pool'| == |owner|
    && forall q | 0 <= q < |pool| :: |pool[q]| == size && pool'[q]
                                     == PageAfter(size, pool[q], owner[q], slot, entries, k, mid, to)
  }

  ghost function PageAfter<T>(size: nat, page: seq<T>, o: Owner, slot: int, entries: seq<seq<T>>, k: nat, mid: nat,
                              to: nat): seq<T>
    requires Times(k, size) <= mid <= to <= Times(k, size) + size && forall r | 0 <= r < |entries| :: to <= |entries[r]|
    requires |page| == size
  {
    if o.Row? && o.slot == slot && o.index == k && o.row < |entries|
    then PageAfterWrite(page, entries[o.row], Times(k, size), mid, to) else page
  }

  lemma TileBacks<T>(size: nat, pool: seq<seq<T>>, pool': seq<seq<T>>, owner: seq<Owner>, stored: Stored<T>, slot: int,
                     base: seq<seq<T>>, entries: seq<seq<T>>, k: nat, from: nat, mid: nat, to: nat)
    requires |entries| == |base| && from <= mid < to && forall r | 0 <= r < |entries| :: to <= |entries[r]|
    requires Times(k, size) <= mid && to <= Times(k, size) + size
    requires Backs(size, pool, owner, stored[slot := Scattered(base, entries, from, mid)])
    requires TileWritten(size, pool, pool', owner, slot, entries, k, mid, to)
    ensures Backs(size, pool', owner, stored[slot := Scattered(base, entries, from, to)])
  {
    var before, after := stored[slot := Scattered(base, entries, from, mid)],
        stored[slot := Scattered(base, entries, from, to)];
    forall q | 0 <= q < |pool|
      ensures |pool'[q]| == size && OwnerShows(size, pool'[q], owner[q], after)
    {
      assert OwnerShows(size, pool[q], owner[q], before);
      TilePageShows(size, pool[q], owner[q], stored, slot, base, entries, k, from, mid, to);
    }
  }

  lemma TilePageShows<T>(size: nat, page: seq<T>, o: Owner, stored: Stored<T>, slot: int, base: seq<seq<T>>,
                         entries: seq<seq<T>>, k: nat, from: nat, mid: nat, to: nat)
    requires |entries| == |base| && from <= mid < to && forall r | 0 <= r < |entries| :: to <= |entries[r]|
    requires Times(k, size) <= mid && to <= Times(k, size) + size && |page| == size
    requires OwnerShows(size, page, o, stored[slot := Scattered(base, entries, from, mid)])
    ensures |PageAfter(size, page, o, slot, entries, k, mid, to)| == size
    ensures OwnerShows(size, PageAfter(size, page, o, slot, entries, k, mid, to), o,
                       stored[slot := Scattered(base, entries, from, to)])
  {
    if o.Row? && o.slot == slot {
      var r := o.row;
      if o.index == k {
        WrittenPageShows(size, page, base[r], entries[r], k, from, mid, to);
      } else {
        OtherPagesShow(size, page, base[r], entries[r], k, o.index, from, mid, to);
      }
    }
  }

  /** The rows named by `hypo`, in that order. */
  function Permuted<T>(rows: seq<seq<T>>, hypo: seq<nat>): (permuted: seq<seq<T>>)
    requires forall j | 0 <= j < |hypo| :: hypo[j] < |rows|
  {
    seq(|hypo|, j requires 0 <= j < |hypo| => rows[hypo[j]])
  }

  // ----- releasing rows -----

  /** The pages of the first `r` rows, without the rows in `kept`. */
  function JoinedUpTo(table: Table, kept: set<nat>, r: nat): seq<nat>
    requires r <= |table|
  {
    if r == 0 then []
    else if r - 1 in kept then JoinedUpTo(table, kept, r - 1)
    else JoinedUpTo(table, kept, r - 1) + table[r - 1]
  }

  lemma {:induction false} JoinedSize(table: Table, kept: set<nat>, r: nat)
    requires r <= |table|
    ensures |JoinedUpTo(table, kept, r)| == SumOutside(RowSizes(table), kept, r)
  {
    if r > 0 {
      JoinedSize(table, kept, r - 1);
    }
  }

  function EmptiedRows(table: Table, kept: set<nat>, r: nat): (left: Table)
    ensures |left| == |table|
  {
    seq(|table|, q requires 0 <= q < |table| => if q < r && q !in kept then [] else table[q])
  }

  ghost function FreedRows(owner: seq<Owner>, slot: int, kept: set<nat>, r: nat): (o: seq<Owner>)
    ensures |o| == |owner|
  {
    seq(|owner|, p requires 0 <= p < |owner| => FreedUpTo(owner[p], slot, kept, r))
  }

  ghost function FreedUpTo(o: Owner, slot: int, kept: set<nat>, r: nat): Owner
  {
    if o.Row? && o.slot == slot && o.row < r && o.row !in kept then Free else o
  }

  ghost predicate Releasing(n: nat, free: seq<nat>, tables: Tables, owner: seq<Owner>, slot: int, kept: set<nat>,
                            r: nat)
    requires slot in tables && r <= |tables[slot]|
  {
    Partitioned(n, free + JoinedUpTo(tables[slot], kept, r), tables[slot := EmptiedRows(tables[slot], kept, r)],
                FreedRows(owner, slot, kept, r))
  }

  lemma {:induction false} ReleaseRows(n: nat, free: seq<nat>, tables: Tables, owner: seq<Owner>, slot: int,
                                       kept: set<nat>, r: nat)
    requires Partitioned(n, free, tables, owner) && slot in tables && r <= |tables[slot]|
    ensures Releasing(n, free, tables, owner, slot, kept, r)
  {
    if r == 0 {
      ReleaseNone(n, free, tables, owner, slot, kept);
    } else {
      ReleaseRows(n, free, tables, owner, slot, kept, r - 1);
      ReleaseNext(n, free, tables, owner, slot, kept, r - 1, r);
    }
  }

  lemma ReleaseNone(n: nat, free: seq<nat>, tables: Tables, owner: seq<Owner>, slot: int, kept: set<nat>)
    requires Partitioned(n, free, tables, owner) && slot in tables
    ensures Releasing(n, free, tables, owner, slot, kept, 0)
  {
    assert free + JoinedUpTo(tables[slot], kept, 0) == free;
    assert tables[slot := EmptiedRows(tables[slot], kept, 0)] == tables by {
      assert EmptiedRows(tables[slot], kept, 0) == tables[slot];
    }
    assert FreedRows(owner, slot, kept, 0) == owner;
  }

  lemma ReleaseNext(n: nat, free: seq<nat>, tables: Tables, owner: seq<Owner>, slot: int, kept: set<nat>, r: nat,
                    r': nat)
    requires slot in tables && r < r' == r + 1 <= |tables[slot]| && Releasing(n, free, tables, owner, slot, kept, r)
    ensures Releasing(n, free, tables, owner, slot, kept, r')
  {
    var table, joined, left := tables[slot], JoinedUpTo(tables[slot], kept, r), EmptiedRows(tables[slot], kept, r);
    if r in kept {
      assert EmptiedRows(table, kept, r + 1) == left;
      assert FreedRows(owner, slot, kept, r + 1) == FreedRows(owner, slot, kept, r);
    } else {
      assert left[r] == table[r];
      ReleaseRow(n, free + joined, tables[slot := left], FreedRows(owner, slot, kept, r), slot, r);
      assert free + joined + left[r] == free + JoinedUpTo(table, kept, r + 1);
      assert Emptied(tables[slot := left], slot, r) == tables[slot := EmptiedRows(table, kept, r + 1)] by {
        assert left[r := []] == EmptiedRows(table, kept, r + 1);
      }
      assert FreedRow(FreedRows(owner, slot, kept, r), slot, r) == FreedRows(owner, slot, kept, r + 1);
    }
  }

  lemma FreedRowsBacks<T>(size: nat, pool: seq<seq<T>>, owner: seq<Owner>, stored: Stored<T>, slot: int,
                          kept: set<nat>, r: nat)
    requires Backs(size, pool, owner, stored)
    ensures Backs(size, pool, FreedRows(owner, slot, kept, r), stored)
  {
    forall q | 0 <= q < |pool| ensures OwnerShows(size, pool[q], FreedRows(owner, slot, kept, r)[q], stored) {
      assert OwnerShows(size, pool[q], owner[q], stored);
    }
  }

  lemma SlotReleased<T>(size: nat, pool: seq<seq<T>>, free: seq<nat>, tables: Tables, owner: seq<Owner>,
                        stored: Stored<T>, slot: int)
    requires Backs(size, pool, owner, stored) && Fits(size, tables, stored) && slot in tables
             && Partitioned(|owner|, free, tables, owner)
    ensures Backs(size, pool, FreedRows(owner, slot, {}, |tables[slot]|), stored - {slot})
            && Fits(size, tables - {slot}, stored - {slot})
    ensures Partitioned(|owner|, free + JoinedUpTo(tables[slot], {}, |tables[slot]|), tables - {slot},
                        FreedRows(owner, slot, {}, |tables[slot]|))
  {
    var table := tables[slot];
    var freed, left := FreedRows(owner, slot, {}, |table|), tables[slot := EmptiedRows(table, {}, |table|)];
    ReleaseRows(|owner|, free, tables, owner, slot, {}, |table|);
    FreedRowsBacks(size, pool, owner, stored, slot, {}, |table|);
    NoPagesLeft(left, freed, slot);
    DropEmptySlot(|owner|, free + JoinedUpTo(table, {}, |table|), left, freed, slot);
    assert left - {slot} == tables - {slot};
    DroppedSlotBacks(size, pool, freed, stored, slot);
    DroppedSlotFits(size, tables, stored, slot);
  }

  lemma DroppedSlotFits<T>(size: nat, tables: Tables, stored: Stored<T>, slot: int)
    requires Fits(size, tables, stored)
    ensures Fits(size, tables - {slot}, stored - {slot})
  {
    forall s, r: nat | HasRow(tables - {slot}, s, r) ensures |stored[s][r]| <= Times(|tables[s][r]|, size) {
      assert HasRow(tables, s, r);
    }
  }

  lemma NoPagesLeft(tables: Tables, owner: seq<Owner>, slot: int)
    requires TablesOwn(|owner|, tables, owner) && slot in tables
    requires forall r | 0 <= r < |tables[slot]| :: tables[slot][r] == []
    ensures forall q | 0 <= q < |owner| && owner[q].Row? :: owner[q].slot != slot
  {
    forall q | 0 <= q < |owner| && owner[q].Row? ensures owner[q].slot != slot {
      assert OwnedBy(tables, owner[q], q);
    }
  }

  ghost predicate RowShown<T>(size: nat, pool: seq<seq<T>>, pages: seq<nat>, stored: seq<T>)
  {
    forall k | 0 <= k < |pages| :: pages[k] < |pool| && PageShows(size, pool[pages[k]], stored, k)
  }

  lemma RowPagesShow<T>(size: nat, pool: seq<seq<T>>, free: seq<nat>, tables: Tables, owner: seq<Owner>,
                        stored: Stored<T>, slot: int)
    requires |pool| == |owner| && Partitioned(|pool|, free, tables, owner) && Backs(size, pool, owner, stored)
    requires slot in tables && slot in stored && |tables[slot]| == |stored[slot]|
    ensures forall r | 0 <= r < |tables[slot]| :: RowShown(size, pool, tables[slot][r], stored[slot][r])
  {
    forall r, k | 0 <= r < |tables[slot]| && 0 <= k < |tables[slot][r]|
      ensures tables[slot][r][k] < |pool| && PageShows(size, pool[tables[slot][r][k]], stored[slot][r], k)
    {
      assert Holds(tables, slot, r, k);
      assert OwnerShows(size, pool[tables[slot][r][k]], owner[tables[slot][r][k]], stored);
    }
  }
}
