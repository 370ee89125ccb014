/**
 Who owns which page of the paged key/value store.

 A page is free, or it is entry `index` of row `row` of the block table of `slot`, or it was lost: taken
 from the free list by an operation that failed before it put the page into a table.
 */
module Pages {

  datatype Owner = Free | Row(slot: int, row: nat, index: nat) | Lost

  type Table = seq<seq<nat>>
  type Tables = map<int, Table>

  predicate Holds(tables: Tables, slot: int, row: nat, index: nat)
  {
    slot in tables && row < |tables[slot]| && index < |tables[slot][row]|
  }

  ghost predicate FreeListed(n: nat, free: seq<nat>, owner: seq<Owner>)
    requires |owner| == n
  {
    && (forall i | 0 <= i < |free| :: free[i] < n && owner[free[i]] == Free)
    && (forall i, j | 0 <= i < j < |free| :: free[i] != free[j])
    && (forall p | 0 <= p < n && owner[p] == Free :: p in free)
  }

  ghost predicate TablesOwn(n: nat, tables: Tables, owner: seq<Owner>)
    requires |owner| == n
  {
    && (forall s, r: nat, k: nat | Holds(tables, s, r, k) ::
        tables[s][r][k] < n && owner[tables[s][r][k]] == Row(s, r, k))
    && (forall p | 0 <= p < n && owner[p].Row? :: OwnedBy(tables, owner[p], p))
  }

  predicate OwnedBy(tables: Tables, o: Owner, p: nat)
  {
    o.Row? && Holds(tables, o.slot, o.row, o.index) && tables[o.slot][o.row][o.index] == p
  }

  /** The free list and the rows of all block tables hold every page that is not lost exactly once. */
  ghost predicate Partitioned(n: nat, free: seq<nat>, tables: Tables, owner: seq<Owner>)
  {
    |owner| == n && FreeListed(n, free, owner) && TablesOwn(n, tables, owner)
  }

  /** No page appears at two places. */
  lemma NoPageTwice(n: nat, free: seq<nat>, tables: Tables, owner: seq<Owner>, s: int, r: nat, k: nat, s': int,
                    r': nat, k': nat)
    requires Partitioned(n, free, tables, owner) && Holds(tables, s, r, k) && Holds(tables, s', r', k')
    ensures tables[s][r][k] == tables[s'][r'][k'] ==> s == s' && r == r' && k == k'
    ensures tables[s][r][k] !in free
  {
    assert owner[tables[s][r][k]] == Row(s, r, k);
  }

  /** Every page is free or in some row, unless it was lost. */
  lemma EveryPageIsSomewhere(n: nat, free: seq<nat>, tables: Tables, owner: seq<Owner>, p: nat)
    requires Partitioned(n, free, tables, owner) && p < n && owner[p] != Lost
    ensures p in free || exists s, r: nat, k: nat :: Holds(tables, s, r, k) && tables[s][r][k] == p
  {
    if owner[p] != Free {
      assert OwnedBy(tables, owner[p], p);
    }
  }

  /** No page was lost since. */
  ghost predicate NoneLost(owner: seq<Owner>, owner': seq<Owner>)
  {
    |owner'| == |owner| && forall p | 0 <= p < |owner| :: owner'[p] == Lost ==> owner[p] == Lost
  }

  lemma NoneLostTwice(first: seq<Owner>, second: seq<Owner>, third: seq<Owner>)
    requires NoneLost(first, second) && NoneLost(second, third)
    ensures NoneLost(first, third)
  {
  }

  // ----- the moves of pages -----

  lemma StartPartitioned(n: nat)
    ensures Partitioned(n, seq(n, i => i), map[], seq(n, _ => Free))
  {
    var free := seq(n, i => i);
    forall p | 0 <= p < n ensures p in free {
      assert free[p] == p;
    }
  }

  function EmptyRows(batch: nat): (t: Table)
    ensures |t| == batch && forall r | 0 <= r < batch :: t[r] == []
  {
    seq(batch, _ => [])
  }

  lemma AddSlot(n: nat, free: seq<nat>, tables: Tables, owner: seq<Owner>, slot: int, batch: nat)
    requires Partitioned(n, free, tables, owner) && slot !in tables
    ensures Partitioned(n, free, tables[slot := EmptyRows(batch)], owner)
  {
    var tables' := tables[slot := EmptyRows(batch)];
    forall p | 0 <= p < n && owner[p].Row? ensures OwnedBy(tables', owner[p], p) {
      assert OwnedBy(tables, owner[p], p);
    }
  }

  lemma DropEmptySlot(n: nat, free: seq<nat>, tables: Tables, owner: seq<Owner>, slot: int)
    requires Partitioned(n, free, tables, owner) && slot in tables
    requires forall r | 0 <= r < |tables[slot]| :: tables[slot][r] == []
    ensures Partitioned(n, free, tables - {slot}, owner)
  {
    var tables' := tables - {slot};
    forall p | 0 <= p < n && owner[p].Row? ensures OwnedBy(tables', owner[p], p) {
      assert OwnedBy(tables, owner[p], p);
    }
  }

  /** Row `r` of a table extended by `pages`. */
  function WithPages(tables: Tables, slot: int, r: nat, pages: seq<nat>): Tables
    requires slot in tables && r < |tables[slot]|
  {
    tables[slot := tables[slot][r := tables[slot][r] + pages]]
  }

  lemma WithPagesTwice(tables: Tables, slot: int, r: nat, first: seq<nat>, second: seq<nat>)
    requires slot in tables && r < |tables[slot]|
    ensures WithPages(WithPages(tables, slot, r, first), slot, r, second) == WithPages(tables, slot, r, first + second)
    ensures WithPages(tables, slot, r, []) == tables
  {
    var row := tables[slot][r];
    assert row + first + second == row + (first + second);
    assert tables[slot][r := row + []] == tables[slot] by { assert row + [] == row; }
    assert tables[slot][r := row + first][r := row + first + second] == tables[slot][r := row + first + second];
  }

  /** The last free page becomes the last page of row `r`. */
  lemma AcquirePage(n: nat, free: seq<nat>, tables: Tables, owner: seq<Owner>, slot: int, r: nat)
    requires Partitioned(n, free, tables, owner) && slot in tables && r < |tables[slot]| && free != []
    ensures var page := free[|free| - 1];
            && page < n && owner[page] == Free
            && Partitioned(n, free[..|free| - 1], WithPages(tables, slot, r, [page]),
                           owner[page := Row(slot, r, |tables[slot][r]|)])
  {
    var page := free[|free| - 1];
    var free', tables' := free[..|free| - 1], WithPages(tables, slot, r, [page]);
    var owner' := owner[page := Row(slot, r, |tables[slot][r]|)];
    forall p | 0 <= p < n && owner'[p] == Free ensures p in free' {
      assert p in free;
    }
    assert TablesOwn(n, tables', owner') by { AcquireOwns(n, tables, owner, slot, r, page); }
  }

  lemma AcquireOwns(n: nat, tables: Tables, owner: seq<Owner>, slot: int, r: nat, page: nat)
    requires |owner| == n && TablesOwn(n, tables, owner) && slot in tables && r < |tables[slot]|
    requires page < n && !owner[page].Row?
    ensures TablesOwn(n, WithPages(tables, slot, r, [page]), owner[page := Row(slot, r, |tables[slot][r]|)])
  {
    var tables', owner' := WithPages(tables, slot, r, [page]), owner[page := Row(slot, r, |tables[slot][r]|)];
    forall s, q: nat, k: nat | Holds(tables', s, q, k)
      ensures tables'[s][q][k] < n && owner'[tables'[s][q][k]] == Row(s, q, k)
    {
      assert Holds(tables, s, q, k) || (s == slot && q == r && k == |tables[slot][r]|);
    }
    forall p | 0 <= p < n && owner'[p].Row? ensures OwnedBy(tables', owner'[p], p) {
      if p != page { assert OwnedBy(tables, owner[p], p); }
    }
  }

  function Emptied(tables: Tables, slot: int, r: nat): Tables
    requires slot in tables && r < |tables[slot]|
  {
    tables[slot := tables[slot][r := []]]
  }

  ghost function FreedRow(owner: seq<Owner>, slot: int, r: nat): (o: seq<Owner>)
    ensures |o| == |owner|
    ensures forall p | 0 <= p < |o| ::
              o[p] == if owner[p].Row? && owner[p].slot == slot && owner[p].row == r then Free else owner[p]
  {
    seq(|owner|, p requires 0 <= p < |owner| =>
      if owner[p].Row? && owner[p].slot == slot && owner[p].row == r then Free else owner[p])
  }

  /** A whole row goes back to the free list. */
  lemma ReleaseRow(n: nat, free: seq<nat>, tables: Tables, owner: seq<Owner>, slot: int, r: nat)
    requires Partitioned(n, free, tables, owner) && slot in tables && r < |tables[slot]|
    ensures Partitioned(n, free + tables[slot][r], Emptied(tables, slot, r), FreedRow(owner, slot, r))
  {
    var row, tables', owner' := tables[slot][r], Emptied(tables, slot, r), FreedRow(owner, slot, r);
    var free' := free + row;
    forall k | 0 <= k < |row| ensures row[k] < n && owner[row[k]] == Row(slot, r, k) {
      assert Holds(tables, slot, r, k);
    }
    forall p | 0 <= p < n && owner'[p] == Free ensures p in free' {
      assert owner[p].Row? ==> OwnedBy(tables, owner[p], p);
      assert owner[p] == Free ==> p in free;
    }
    forall p | 0 <= p < n && owner'[p].Row? ensures OwnedBy(tables', owner'[p], p) {
      assert OwnedBy(tables, owner[p], p);
    }
    assert TablesOwn(n, tables', owner') by {
      forall s, q: nat, k: nat | Holds(tables', s, q, k)
        ensures tables'[s][q][k] < n && owner'[tables'[s][q][k]] == Row(s, q, k)
      {
        assert Holds(tables, s, q, k);
      }
    }
  }

  function RowMoved(tables: Tables, slot: int, r: nat, target: int): Tables
    requires slot in tables && r < |tables[slot]| && target in tables && slot != target
  {
    Emptied(tables, slot, r)[target := tables[target] + [tables[slot][r]]]
  }

  ghost function MovedRow(owner: seq<Owner>, slot: int, r: nat, target: int, row: nat): (o: seq<Owner>)
    ensures |o| == |owner|
    ensures forall p | 0 <= p < |o| :: o[p] == if owner[p].Row? && owner[p].slot == slot && owner[p].row == r
                                             then Row(target, row, owner[p].index) else owner[p]
  {
    seq(|owner|, p requires 0 <= p < |owner| =>
      if owner[p].Row? && owner[p].slot == slot && owner[p].row == r then Row(target, row, owner[p].index)
          else owner[p])
  }

  /** A row of one table becomes the last row of another. */
  lemma MoveRow(n: nat, free: seq<nat>, tables: Tables, owner: seq<Owner>, slot: int, r: nat, target: int)
    requires Partitioned(n, free, tables, owner)
    requires slot in tables && r < |tables[slot]| && target in tables && slot != target
    ensures Partitioned(n, free, RowMoved(tables, slot, r, target), MovedRow(owner, slot, r, target, |tables[target]|))
  {
    var tables', owner' := RowMoved(tables, slot, r, target), MovedRow(owner, slot, r, target, |tables[target]|);
    forall p | 0 <= p < n && owner'[p].Row? ensures OwnedBy(tables', owner'[p], p) {
      assert OwnedBy(tables, owner[p], p);
    }
    forall s, q: nat, k: nat | Holds(tables', s, q, k)
      ensures tables'[s][q][k] < n && owner'[tables'[s][q][k]] == Row(s, q, k)
    {
      if s == target && q == |tables[target]| {
        assert Holds(tables, slot, r, k);
      } else {
        assert Holds(tables, s, q, k);
      }
    }
  }

  ghost function Renamed(owner: seq<Owner>, from: int, to: int): (o: seq<Owner>)
    ensures |o| == |owner|
    ensures forall p | 0 <= p < |o| ::
              o[p] == if owner[p].Row? && owner[p].slot == from then owner[p].(slot := to) else owner[p]
  {
    seq(|owner|, p requires 0 <= p < |owner| =>
      if owner[p].Row? && owner[p].slot == from then owner[p].(slot := to) else owner[p])
  }

  /** A table takes the place of an emptied one. */
  lemma Rename(n: nat, free: seq<nat>, tables: Tables, owner: seq<Owner>, from: int, to: int)
    requires Partitioned(n, free, tables, owner) && from in tables && to in tables && from != to
    requires forall r | 0 <= r < |tables[to]| :: tables[to][r] == []
    ensures Partitioned(n, free, tables[to := tables[from]] - {from}, Renamed(owner, from, to))
  {
    var tables', owner' := tables[to := tables[from]] - {from}, Renamed(owner, from, to);
    forall p | 0 <= p < n && owner'[p].Row? ensures OwnedBy(tables', owner'[p], p) {
      assert OwnedBy(tables, owner[p], p);
    }
    forall s, q: nat, k: nat | Holds(tables', s, q, k)
      ensures tables'[s][q][k] < n && owner'[tables'[s][q][k]] == Row(s, q, k)
    {
      assert Holds(tables, if s == to then from else s, q, k);
    }
  }

  /** The pages that `m` pops take off the end of the free list, in the order in which they come off. */
  function Popped(free: seq<nat>, m: nat): (pages: seq<nat>)
    requires m <= |free|
  {
    seq(m, k requires 0 <= k < m => free[|free| - 1 - k])
  }

  /** Free pages, and only these, came to row `r`, at places from `first` on. */
  ghost predicate CameToRow(owner: seq<Owner>, owner': seq<Owner>, slot: int, r: nat, first: nat)
  {
    |owner'| == |owner|
    && forall p | 0 <= p < |owner| && owner'[p] != owner[p] ::
         owner[p] == Free && owner'[p].Row? && owner'[p].slot == slot && owner'[p].row == r && owner'[p].index >= first
  }

  /** `m` pops give row `r` its next `m` pages. */
  lemma {:induction false} TakePages(n: nat, free: seq<nat>, tables: Tables, owner: seq<Owner>, slot: int, r: nat,
                                     m: nat)
    returns (owner': seq<Owner>)
    requires Partitioned(n, free, tables, owner) && slot in tables && r < |tables[slot]| && m <= |free|
    ensures Partitioned(n, free[..|free| - m], WithPages(tables, slot, r, Popped(free, m)), owner')
    ensures CameToRow(owner, owner', slot, r, |tables[slot][r]|)
  {
    if m == 0 {
      owner' := owner;
      assert Popped(free, m) == [] && free[..|free| - m] == free;
      WithPagesTwice(tables, slot, r, [], []);
    } else {
      var before := TakePages(n, free, tables, owner, slot, r, m - 1);
      owner' := TakeOneMore(n, free, tables, owner, before, slot, r, m);
    }
  }

  lemma TakeOneMore(n: nat, free: seq<nat>, tables: Tables, owner: seq<Owner>, before: seq<Owner>, slot: int, r: nat,
                    m: nat)
    returns (owner': seq<Owner>)
    requires slot in tables && r < |tables[slot]| && 0 < m <= |free|
    requires Partitioned(n, free[..|free| - (m - 1)], WithPages(tables, slot, r, Popped(free, m - 1)), before)
    requires CameToRow(owner, before, slot, r, |tables[slot][r]|)
    ensures Partitioned(n, free[..|free| - m], WithPages(tables, slot, r, Popped(free, m)), owner')
    ensures CameToRow(owner, owner', slot, r, |tables[slot][r]|)
  {
    TakenOneMore(free, tables, slot, r, m);
    owner' := TakePage(n, free[..|free| - (m - 1)], WithPages(tables, slot, r, Popped(free, m - 1)), owner, before,
                       slot, r, |tables[slot][r]|);
  }

  lemma TakePage(n: nat, free: seq<nat>, tables: Tables, owner: seq<Owner>, before: seq<Owner>, slot: int, r: nat,
                 first: nat)
    returns (owner': seq<Owner>)
    requires Partitioned(n, free, tables, before) && slot in tables && r < |tables[slot]| && free != []
    requires CameToRow(owner, before, slot, r, first) && first <= |tables[slot][r]|
    ensures Partitioned(n, free[..|free| - 1], WithPages(tables, slot, r, [free[|free| - 1]]), owner')
    ensures CameToRow(owner, owner', slot, r, first)
  {
    AcquirePage(n, free, tables, before, slot, r);
    owner' := before[free[|free| - 1] := Row(slot, r, |tables[slot][r]|)];
  }

  lemma TakenOneMore(free: seq<nat>, tables: Tables, slot: int, r: nat, m: nat)
    requires slot in tables && r < |tables[slot]| && 0 < m <= |free|
    ensures var free' := free[..|free| - (m - 1)];
            && free'[..|free'| - 1] == free[..|free| - m]
            && WithPages(WithPages(tables, slot, r, Popped(free, m - 1)), slot, r, [free'[|free'| - 1]])
               == WithPages(tables, slot, r, Popped(free, m))
  {
    var page := free[|free| - m];
    assert Popped(free, m) == Popped(free, m - 1) + [page];
    WithPagesTwice(tables, slot, r, Popped(free, m - 1), [page]);
  }

  lemma AddRow(n: nat, free: seq<nat>, tables: Tables, owner: seq<Owner>, slot: int)
    requires Partitioned(n, free, tables, owner) && slot in tables
    ensures Partitioned(n, free, tables[slot := tables[slot] + [[]]], owner)
  {
    var tables' := tables[slot := tables[slot] + [[]]];
    forall p | 0 <= p < n && owner[p].Row? ensures OwnedBy(tables', owner[p], p) {
      assert OwnedBy(tables, owner[p], p);
    }
  }

  ghost function LostPages(owner: seq<Owner>): (o: seq<Owner>)
    ensures |o| == |owner|
    ensures forall p | 0 <= p < |o| :: o[p] == if owner[p] == Free then Lost else owner[p]
  {
    seq(|owner|, p requires 0 <= p < |owner| => if owner[p] == Free then Lost else owner[p])
  }

  /** A failed operation that popped every free page and put none into a table loses them. */
  lemma LosePages(n: nat, free: seq<nat>, tables: Tables, owner: seq<Owner>)
    requires Partitioned(n, free, tables, owner)
    ensures Partitioned(n, [], tables, LostPages(owner))
  {
    forall p | 0 <= p < n && LostPages(owner)[p].Row? ensures OwnedBy(tables, LostPages(owner)[p], p) {
      assert OwnedBy(tables, owner[p], p);
    }
  }
}
