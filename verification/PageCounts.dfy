/** How many pages the rows of a slot have, lack, copy and release. Only the numbers of pages per row matter. */
module PageCounts {
  import opened Multiples
  import opened Pages

  function RowSizes(table: Table): (sizes: seq<nat>)
    ensures |sizes| == |table| && forall r | 0 <= r < |table| :: sizes[r] == |table[r]|
  {
    seq(|table|, r requires 0 <= r < |table| => |table[r]|)
  }

  // ----- growing -----

  function Needs(have: nat, want: nat): nat
  {
    if have < want then want - have else 0
  }

  function Needed(have: nat, want: nat): nat
  {
    if have < want then want else have
  }

  /** The pages that rows `r`, `r + 1`, ... still need to have `want` pages each. */
  function MissingFrom(sizes: seq<nat>, want: nat, r: nat): nat
    requires r <= |sizes|
    decreases |sizes| - r
  {
    if r == |sizes| then 0 else Needs(sizes[r], want) + MissingFrom(sizes, want, r + 1)
  }

  function Filled(sizes: seq<nat>, want: nat): (filled: seq<nat>)
  {
    seq(|sizes|, r requires 0 <= r < |sizes| => Needed(sizes[r], want))
  }

  // ----- reordering -----

  ghost predicate Sources<X>(rows: seq<X>, hypo: seq<nat>)
  {
    forall j | 0 <= j < |hypo| :: hypo[j] < |rows|
  }

  function Picked(sizes: seq<nat>, hypo: seq<nat>): (picked: seq<nat>)
    requires Sources(sizes, hypo)
    ensures |picked| == |hypo| && forall j | 0 <= j < |hypo| :: picked[j] == sizes[hypo[j]]
  {
    seq(|hypo|, j requires 0 <= j < |hypo| => sizes[hypo[j]])
  }

  /** The pages that copies for entry `j` and later take. */
  function CopiesFrom(sizes: seq<nat>, hypo: seq<nat>, j: nat): nat
    requires j <= |hypo| && Sources(sizes, hypo)
    decreases |hypo| - j
  {
    if j == |hypo| then 0
    else (if hypo[j] in hypo[..j] then sizes[hypo[j]] else 0) + CopiesFrom(sizes, hypo, j + 1)
  }

  /** The source rows that the first `j` entries use. */
  function Elements(hypo: seq<nat>, j: nat): set<nat>
    requires j <= |hypo|
  {
    set src | src in hypo[..j]
  }

  lemma ElementsNext(hypo: seq<nat>, j: nat)
    requires j < |hypo|
    ensures Elements(hypo, j + 1) == Elements(hypo, j) + {hypo[j]}
    ensures |Elements(hypo, j + 1)| == |Elements(hypo, j)| + (if hypo[j] in hypo[..j] then 0 else 1)
    ensures hypo[j] in hypo[..j] <==> hypo[j] in Elements(hypo, j)
  {
    assert hypo[..j + 1] == hypo[..j] + [hypo[j]];
    assert Elements(hypo, j + 1) == Elements(hypo, j) + {hypo[j]};
    if hypo[j] in hypo[..j] {
      assert Elements(hypo, j + 1) == Elements(hypo, j);
    }
  }

  lemma CopiesNext(sizes: seq<nat>, hypo: seq<nat>, j: nat, claimed: set<nat>)
    requires j < |hypo| && Sources(sizes, hypo) && claimed == Elements(hypo, j)
    ensures CopiesFrom(sizes, hypo, j) - CopiesFrom(sizes, hypo, j + 1) == if hypo[j] in claimed then sizes[hypo[j]]
            else 0
  {
    ElementsNext(hypo, j);
  }

  /** The pages of the first `r` rows, without the rows in `kept`. */
  function SumOutside(sizes: seq<nat>, kept: set<nat>, r: nat): nat
    requires r <= |sizes|
  {
    if r == 0 then 0 else SumOutside(sizes, kept, r - 1) + (if r - 1 in kept then 0 else sizes[r - 1])
  }

  /** The pages of the rows that no entry uses. */
  function Released(sizes: seq<nat>, hypo: seq<nat>): nat
  {
    SumOutside(sizes, Elements(hypo, |hypo|), |sizes|)
  }

  /** When all rows have the same number of pages and the number of rows stays, a reorder releases as many pages as it
      copies. */
  lemma EvenRowsKeepPages(sizes: seq<nat>, hypo: seq<nat>, pages: nat)
    requires Sources(sizes, hypo) && |hypo| == |sizes|
    requires forall r | 0 <= r < |sizes| :: sizes[r] == pages
    ensures CopiesFrom(sizes, hypo, 0) == Released(sizes, hypo)
  {
    var claimed := Elements(hypo, |hypo|);
    CopiesOfEvenRows(sizes, hypo, pages, 0);
    ReleasedEvenRows(sizes, claimed, pages, |sizes|);
    RepeatsAreNotFirst(hypo, 0);
    RowsOutsideAreUnclaimed(claimed, |sizes|);
    assert claimed == ClaimedUpTo(claimed, |sizes|);
  }

  /** The number of entries from `j` on that repeat an earlier one. */
  function RepeatsFrom(hypo: seq<nat>, j: nat): nat
    requires j <= |hypo|
    decreases |hypo| - j
  {
    if j == |hypo| then 0 else (if hypo[j] in hypo[..j] then 1 else 0) + RepeatsFrom(hypo, j + 1)
  }

  function RowsOutside(claimed: set<nat>, r: nat): nat
  {
    if r == 0 then 0 else RowsOutside(claimed, r - 1) + (if r - 1 in claimed then 0 else 1)
  }

  lemma {:induction false} CopiesOfEvenRows(sizes: seq<nat>, hypo: seq<nat>, pages: nat, j: nat)
    requires j <= |hypo| && Sources(sizes, hypo) && forall r | 0 <= r < |sizes| :: sizes[r] == pages
    ensures CopiesFrom(sizes, hypo, j) == Times(RepeatsFrom(hypo, j), pages)
    decreases |hypo| - j
  {
    if j < |hypo| {
      CopiesOfEvenRows(sizes, hypo, pages, j + 1);
    }
  }

  lemma {:induction false} ReleasedEvenRows(sizes: seq<nat>, claimed: set<nat>, pages: nat, r: nat)
    requires r <= |sizes| && forall q | 0 <= q < |sizes| :: sizes[q] == pages
    ensures SumOutside(sizes, claimed, r) == Times(RowsOutside(claimed, r), pages)
  {
    if r > 0 {
      ReleasedEvenRows(sizes, claimed, pages, r - 1);
    }
  }

  lemma {:induction false} RepeatsAreNotFirst(hypo: seq<nat>, j: nat)
    requires j <= |hypo|
    ensures RepeatsFrom(hypo, j) == |hypo| - j - (|Elements(hypo, |hypo|)| - |Elements(hypo, j)|)
    decreases |hypo| - j
  {
    if j < |hypo| {
      RepeatsAreNotFirst(hypo, j + 1);
      ElementsNext(hypo, j);
    }
  }

  /** The claimed rows among the first `r`. */
  function ClaimedUpTo(claimed: set<nat>, r: nat): set<nat>
  {
    set src | src in claimed && src < r
  }

  lemma {:induction false} RowsOutsideAreUnclaimed(claimed: set<nat>, r: nat)
    ensures RowsOutside(claimed, r) == r - |ClaimedUpTo(claimed, r)|
  {
    if r == 0 {
      assert ClaimedUpTo(claimed, 0) == {};
    } else {
      RowsOutsideAreUnclaimed(claimed, r - 1);
      assert ClaimedUpTo(claimed, r) == ClaimedUpTo(claimed, r - 1) + (if r - 1 in claimed then {r - 1} else {});
    }
  }
}
