/**
 Reordering the rows of a slot by a list of source rows. The first use of a source row takes over its pages, every
 further use gets copies, and rows that nobody uses are released.

 While the new table grows, its rows are accounted for under the key `RESULT`, which is no slot; the table of the slot
 itself still holds the rows that are not claimed yet.
 */
module Reordering {
  import opened Multiples
  import opened PageCounts
  import opened Pages
  import opened PageContents

  const RESULT := -1

  function Unclaimed(table: Table, claimed: set<nat>): (left: Table)
    ensures |left| == |table|
  {
    seq(|table|, r requires 0 <= r < |table| => if r in claimed then [] else table[r])
  }

  function Between(tables: Tables, slot: int, claimed: set<nat>, result: Table): Tables
    requires slot in tables
  {
    tables[slot := Unclaimed(tables[slot], claimed)][RESULT := result]
  }

  ghost predicate Midway(n: nat, free: seq<nat>, tables: Tables, slot: int, hypo: seq<nat>, j: nat, claimed: set<nat>,
                         result: Table, own: seq<Owner>)
  {
    && slot in tables && RESULT !in tables && j <= |hypo| && Sources(tables[slot], hypo)
    && Partitioned(n, free, Between(tables, slot, claimed, result), own)
    && claimed == Elements(hypo, j)
    && |result| == j && forall i | 0 <= i < j :: |result[i]| == |tables[slot][hypo[i]]|
  }

  lemma StartMidway(n: nat, free: seq<nat>, tables: Tables, slot: int, hypo: seq<nat>, own: seq<Owner>)
    requires Partitioned(n, free, tables, own) && slot in tables && RESULT !in tables && Sources(tables[slot], hypo)
    ensures Midway(n, free, tables, slot, hypo, 0, {}, [], own)
  {
    AddSlot(n, free, tables, own, RESULT, 0);
    assert Unclaimed(tables[slot], {}) == tables[slot];
    assert tables[slot := tables[slot]] == tables;
    assert EmptyRows(0) == [];
  }

  /** The first use of a source row takes over its pages. */
  lemma ReuseRow(n: nat, free: seq<nat>, tables: Tables, slot: int, hypo: seq<nat>, j: nat, claimed: set<nat>,
                 result: Table, own: seq<Owner>)
    requires Midway(n, free, tables, slot, hypo, j, claimed, result, own) && j < |hypo| && hypo[j] !in claimed
    ensures Midway(n, free, tables, slot, hypo, j + 1, claimed + {hypo[j]}, result + [tables[slot][hypo[j]]],
                   MovedRow(own, slot, hypo[j], RESULT, j))
  {
    var src := hypo[j];
    var between := Between(tables, slot, claimed, result);
    MoveRow(n, free, between, own, slot, src, RESULT);
    ElementsNext(hypo, j);
    MovedBetween(tables, slot, claimed, result, src);
  }

  lemma MovedBetween(tables: Tables, slot: int, claimed: set<nat>, result: Table, src: nat)
    requires slot in tables && RESULT !in tables && src < |tables[slot]| && src !in claimed
    ensures RowMoved(Between(tables, slot, claimed, result), slot, src, RESULT)
            == Between(tables, slot, claimed + {src}, result + [tables[slot][src]])
  {
    assert Unclaimed(tables[slot], claimed)[src := []] == Unclaimed(tables[slot], claimed + {src});
  }

  /** Every further use gets pages of its own. */
  lemma CopyRowPages(n: nat, free: seq<nat>, tables: Tables, slot: int, hypo: seq<nat>, j: nat, claimed: set<nat>,
                     result: Table, own: seq<Owner>)
    returns (own': seq<Owner>)
    requires Midway(n, free, tables, slot, hypo, j, claimed, result, own) && j < |hypo| && hypo[j] in claimed
    requires |tables[slot][hypo[j]]| <= |free|
    ensures var m := |tables[slot][hypo[j]]|;
            && Midway(n, free[..|free| - m], tables, slot, hypo, j + 1, claimed, result + [Popped(free, m)], own')
            && forall p | 0 <= p < n && own'[p] != own[p] :: own[p] == Free && HadRow(own'[p], RESULT, j)
  {
    var m := |tables[slot][hypo[j]]|;
    var between := Between(tables, slot, claimed, result);
    AddRow(n, free, between, own, RESULT);
    var grown := between[RESULT := result + [[]]];
    own' := TakePages(n, free, grown, own, RESULT, j, m);
    assert WithPages(grown, RESULT, j, Popped(free, m)) == Between(tables, slot, claimed,
                                                                   result + [Popped(free, m)]) by {
      assert (result + [[]])[j] + Popped(free, m) == Popped(free, m);
      assert (result + [[]])[j := Popped(free, m)] == result + [Popped(free, m)];
    }
    ElementsNext(hypo, j);
    assert Elements(hypo, j + 1) == claimed;
  }

  /** The rows nobody claimed are released and the new table takes its place. */
  lemma FinishReorder(n: nat, free: seq<nat>, tables: Tables, slot: int, hypo: seq<nat>, claimed: set<nat>,
                      result: Table, own: seq<Owner>)
    requires Midway(n, free, tables, slot, hypo, |hypo|, claimed, result, own)
    ensures Partitioned(n, free + JoinedUpTo(tables[slot], claimed, |tables[slot]|), tables[slot := result],
                        Renamed(FreedRows(own, slot, claimed, |tables[slot]|), RESULT, slot))
    ensures forall q | 0 <= q < n && FreedRows(own, slot, claimed, |tables[slot]|)[q].Row? ::
              FreedRows(own, slot, claimed, |tables[slot]|)[q].slot != slot
  {
    var table, freed := tables[slot], FreedRows(own, slot, claimed, |tables[slot]|);
    var joined := JoinedUpTo(table, claimed, |table|);
    var between := Between(tables, slot, claimed, result);
    ReleaseRows(n, free, between, own, slot, claimed, |table|);
    var left := between[slot := EmptiedRows(Unclaimed(table, claimed), claimed, |table|)];
    SameRowsJoined(table, claimed, |table|);
    AllEmpty(table, claimed);
    NoPagesLeft(left, freed, slot);
    Rename(n, free + joined, left, freed, RESULT, slot);
    assert left[slot := result] - {RESULT} == tables[slot := result];
  }

  lemma AllEmpty(table: Table, claimed: set<nat>)
    ensures forall r | 0 <= r < |table| :: EmptiedRows(Unclaimed(table, claimed), claimed, |table|)[r] == []
  {
  }

  lemma {:induction false} SameRowsJoined(table: Table, claimed: set<nat>, r: nat)
    requires r <= |table|
    ensures JoinedUpTo(Unclaimed(table, claimed), claimed, r) == JoinedUpTo(table, claimed, r)
  {
    if r > 0 {
      SameRowsJoined(table, claimed, r - 1);
      assert r - 1 !in claimed ==> Unclaimed(table, claimed)[r - 1] == table[r - 1];
    }
  }

  // ----- what the pages hold meanwhile -----

  ghost predicate MidwayBacks<T>(size: nat, pool: seq<seq<T>>, own: seq<Owner>, stored: Stored<T>, slot: int,
                                 hypo: seq<nat>, j: nat)
  {
    && slot in stored && RESULT !in stored && j <= |hypo| && (forall i | 0 <= i < |hypo| :: hypo[i] < |stored[slot]|)
    && Backs(size, pool, own, stored[RESULT := Permuted(stored[slot], hypo[..j])])
  }

  lemma StartBacks<T>(size: nat, pool: seq<seq<T>>, own: seq<Owner>, stored: Stored<T>, slot: int, hypo: seq<nat>)
    requires Backs(size, pool, own, stored) && slot in stored && RESULT !in stored
    requires forall i | 0 <= i < |hypo| :: hypo[i] < |stored[slot]|
    ensures MidwayBacks(size, pool, own, stored, slot, hypo, 0)
  {
    forall q | 0 <= q < |pool| ensures OwnerShows(size, pool[q], own[q],
                                                  stored[RESULT := Permuted(stored[slot], hypo[..0])]) {
      assert OwnerShows(size, pool[q], own[q], stored);
    }
  }

  lemma ReuseBacks<T>(size: nat, pool: seq<seq<T>>, own: seq<Owner>, stored: Stored<T>, slot: int, hypo: seq<nat>,
                      j: nat)
    requires MidwayBacks(size, pool, own, stored, slot, hypo, j) && j < |hypo|
    ensures MidwayBacks(size, pool, MovedRow(own, slot, hypo[j], RESULT, j), stored, slot, hypo, j + 1)
  {
    var rows, stored' := Permuted(stored[slot], hypo[..j]), stored[RESULT := Permuted(stored[slot], hypo[..j])];
    MovedRowBacks(size, pool, own, stored', slot, hypo[j], RESULT);
    PermutedNext(stored[slot], hypo, j);
    assert stored'[RESULT := rows + [stored[slot][hypo[j]]]] == stored[RESULT := Permuted(stored[slot], hypo[..j + 1])];
  }

  lemma PermutedNext<T>(rows: seq<seq<T>>, hypo: seq<nat>, j: nat)
    requires j < |hypo| && forall i | 0 <= i < |hypo| :: hypo[i] < |rows|
    ensures Permuted(rows, hypo[..j + 1]) == Permuted(rows, hypo[..j]) + [rows[hypo[j]]]
  {
  }

  /** `pool'` is `pool` with `copies[k]` a copy of `source[k]`. */
  ghost predicate Copied<T>(size: nat, pool: seq<seq<T>>, pool': seq<seq<T>>, source: seq<nat>, copies: seq<nat>)
  {
    && |pool'| == |pool| && |copies| == |source|
    && (forall k | 0 <= k < |source| :: source[k] < |pool| && copies[k] < |pool| && pool'[copies[k]] == pool[source[k]])
    && (forall q | 0 <= q < |pool| :: |pool'[q]| == size && (q !in copies ==> pool'[q] == pool[q]))
  }

  /** Nothing happened to the pages that were not free at the start. */
  ghost predicate Intact<T>(size: nat, pool0: seq<seq<T>>, pool: seq<seq<T>>, owner: seq<Owner>, own: seq<Owner>)
  {
    && |pool| == |pool0| == |owner| == |own|
    && forall q | 0 <= q < |pool| :: |pool[q]| == size && (owner[q] != Free ==> own[q] != Free && pool[q] == pool0[q])
                                     && (own[q] == Lost ==> owner[q] == Lost)
  }

  lemma SourceIntact<T>(size: nat, pool0: seq<seq<T>>, pool: seq<seq<T>>, tables: Tables, owner: seq<Owner>,
                        own: seq<Owner>, stored: Stored<T>, slot: int, src: nat)
    requires Intact(size, pool0, pool, owner, own) && TablesOwn(|pool|, tables, owner)
             && Backs(size, pool0, owner, stored)
    requires slot in tables && src < |tables[slot]| && slot in stored && src < |stored[slot]|
    ensures RowShown(size, pool, tables[slot][src], stored[slot][src])
    ensures forall k | 0 <= k < |tables[slot][src]| :: own[tables[slot][src][k]] != Free
  {
    forall k | 0 <= k < |tables[slot][src]|
      ensures tables[slot][src][k] < |pool| && PageShows(size, pool[tables[slot][src][k]], stored[slot][src], k)
      ensures own[tables[slot][src][k]] != Free
    {
      assert Holds(tables, slot, src, k);
      assert OwnerShows(size, pool0[tables[slot][src][k]], owner[tables[slot][src][k]], stored);
    }
  }

  lemma CopyBacks<T>(size: nat, pool: seq<seq<T>>, pool': seq<seq<T>>, free: seq<nat>, tables: Tables, own: seq<Owner>,
                     own': seq<Owner>, stored: Stored<T>, slot: int, hypo: seq<nat>, j: nat, source: seq<nat>,
                     copies: seq<nat>)
    requires MidwayBacks(size, pool, own, stored, slot, hypo, j) && j < |hypo|
             && Copied(size, pool, pool', source, copies)
    requires RowShown(size, pool, source, stored[slot][hypo[j]])
    requires Partitioned(|pool|, free, tables, own') && RESULT in tables && |tables[RESULT]| == j + 1
             && tables[RESULT][j] == copies
    requires |own| == |pool| && forall p | 0 <= p < |own| && own'[p] != own[p] ::
               own[p] == Free && HadRow(own'[p], RESULT, j)
    requires forall k | 0 <= k < |copies| :: own[copies[k]] == Free
    ensures MidwayBacks(size, pool', own', stored, slot, hypo, j + 1)
  {
    var before, after := stored[RESULT := Permuted(stored[slot], hypo[..j])],
        stored[RESULT := Permuted(stored[slot], hypo[..j + 1])];
    PermutedNext(stored[slot], hypo, j);
    forall q | 0 <= q < |pool| ensures OwnerShows(size, pool'[q], own'[q], after) {
      if own'[q] != own[q] {
        assert OwnedBy(tables, own'[q], q);
        assert copies[own'[q].index] == q;
      } else {
        assert OwnerShows(size, pool[q], own[q], before);
        assert own[q].Row? ==> q !in copies;
      }
    }
  }

  lemma FinishBacks<T>(size: nat, pool: seq<seq<T>>, own: seq<Owner>, stored: Stored<T>, slot: int, hypo: seq<nat>,
                       claimed: set<nat>, n: nat)
    requires MidwayBacks(size, pool, own, stored, slot, hypo, |hypo|)
    requires forall q | 0 <= q < |pool| && FreedRows(own, slot, claimed, n)[q].Row? ::
               FreedRows(own, slot, claimed, n)[q].slot != slot
    ensures Backs(size, pool, Renamed(FreedRows(own, slot, claimed, n), RESULT, slot),
                  stored[slot := Permuted(stored[slot], hypo)])
  {
    var after := stored[RESULT := Permuted(stored[slot], hypo)];
    assert hypo[..|hypo|] == hypo;
    FreedRowsBacks(size, pool, own, after, slot, claimed, n);
    RenamedBacks(size, pool, FreedRows(own, slot, claimed, n), after, RESULT, slot);
    assert after[slot := after[RESULT]] - {RESULT} == stored[slot := Permuted(stored[slot], hypo)];
  }

  lemma ReorderedFits<T>(size: nat, tables: Tables, stored: Stored<T>, slot: int, hypo: seq<nat>, result: Table)
    requires Fits(size, tables, stored) && slot in tables && Sources(tables[slot], hypo)
    requires |result| == |hypo| && forall i | 0 <= i < |hypo| :: |result[i]| == |tables[slot][hypo[i]]|
    ensures Fits(size, tables[slot := result], stored[slot := Permuted(stored[slot], hypo)])
  {
    var tables', stored' := tables[slot := result], stored[slot := Permuted(stored[slot], hypo)];
    forall s, r: nat | HasRow(tables', s, r) ensures |stored'[s][r]| <= Times(|tables'[s][r]|, size) {
      assert HasRow(tables, s, if s == slot then hypo[r] else r);
    }
  }

  /** The owners after a reorder. */
  ghost function ReorderedOwner(own: seq<Owner>, slot: int, claimed: set<nat>, rows: nat): seq<Owner>
  {
    Renamed(FreedRows(own, slot, claimed, rows), RESULT, slot)
  }

  lemma ReorderedNoneLost(own: seq<Owner>, slot: int, claimed: set<nat>, rows: nat)
    ensures NoneLost(own, ReorderedOwner(own, slot, claimed, rows))
  {
  }

  lemma FinishPool<T>(n: nat, free: seq<nat>, tables: Tables, slot: int, hypo: seq<nat>, claimed: set<nat>,
                      result: Table, own: seq<Owner>, size: nat, pool: seq<seq<T>>, stored: Stored<T>)
    requires Midway(n, free, tables, slot, hypo, |hypo|, claimed, result, own) && |pool| == n
    requires MidwayBacks(size, pool, own, stored, slot, hypo, |hypo|) && Fits(size, tables, stored)
    ensures Backs(size, pool, ReorderedOwner(own, slot, claimed, |tables[slot]|),
                  stored[slot := Permuted(stored[slot], hypo)])
    ensures Fits(size, tables[slot := result], stored[slot := Permuted(stored[slot], hypo)])
  {
    FinishReorder(n, free, tables, slot, hypo, claimed, result, own);
    FinishBacks(size, pool, own, stored, slot, hypo, claimed, |tables[slot]|);
    ReorderedFits(size, tables, stored, slot, hypo, result);
  }

  /** A reorder that runs out of pages has written to pages that were free, and to no others. */
  lemma FailedReorderBacks<T>(size: nat, pool: seq<seq<T>>, pool': seq<seq<T>>, owner: seq<Owner>, stored: Stored<T>)
    requires Backs(size, pool, owner, stored) && |pool'| == |pool|
    requires forall q | 0 <= q < |pool| :: |pool'[q]| == size && (owner[q] != Free ==> pool'[q] == pool[q])
    ensures Backs(size, pool', LostPages(owner), stored)
  {
    forall q | 0 <= q < |pool| ensures OwnerShows(size, pool'[q], LostPages(owner)[q], stored) {
      assert OwnerShows(size, pool[q], owner[q], stored);
    }
  }
}
