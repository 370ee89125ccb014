/**
 What one round of AllReduce is meant to compute: the parts that arrive in any order add up to the parts
 of the element-wise sum, and the concatenated parts are that sum.
 */
module AllReduceSums {
  import opened FiniteSets
  import opened TensorSplit

  /** The tensors that the ranks pass in, one for each rank and round. */
  type Inputs = (nat, nat) -> seq<int>

  /** In every round all ranks pass in tensors of one size. */
  ghost predicate SameShapes(x: Inputs, world: nat)
  {
    forall r: nat, s: nat, k: nat | r < world && s < world :: |x(r, k)| == |x(s, k)|
  }

  function InRound(x: Inputs, world: nat, k: nat): (xs: seq<seq<int>>)
    ensures |xs| == world && forall r | 0 <= r < world :: xs[r] == x(r, k)
  {
    seq(world, r requires 0 <= r < world => x(r, k))
  }

  /** The element-wise sum of the inputs of round `k`. */
  ghost function Expected(x: Inputs, world: nat, k: nat): (r: seq<int>)
    requires 0 < world && SameShapes(x, world)
    ensures |r| == |x(0, k)|
  {
    Sum(InRound(x, world, k), |x(0, k)|)
  }

  /** One rank alone gets its own input back, and each further rank adds its input to every element. */
  lemma EachRankAddsItsInput(x: Inputs, world: nat, k: nat)
    requires 0 < world && SameShapes(x, world + 1)
    ensures SameShapes(x, 1) && Expected(x, 1, k) == x(0, k)
    ensures SameShapes(x, world) && |Expected(x, world + 1, k)| == |Expected(x, world, k)| == |x(world, k)|
    ensures forall p | 0 <= p < |x(world, k)| ::
              Expected(x, world + 1, k)[p] == Expected(x, world, k)[p] + x(world, k)[p]
  {
    assert InRound(x, world + 1, k)[..world] == InRound(x, world, k);
  }

  ghost function Reduced(x: Inputs, world: nat, k: nat, part: nat): seq<int>
    requires part < world && SameShapes(x, world)
  {
    Chunk(Expected(x, world, k), world, part)
  }

  ghost predicate Covers(who: seq<nat>, n: nat)
  {
    && (forall i, j | 0 <= i < j < |who| :: who[i] != who[j])
    && (forall i | 0 <= i < |who| :: who[i] < n)
    && (forall s: nat | s < n :: s in who)
  }

  lemma {:induction false} CoversSize(who: seq<nat>, n: nat)
    requires Covers(who, n)
    ensures |who| == n
  {
    if who == [] {
      assert n == 0 || 0 in who;
    } else {
      assert who[0] < n;
      var j := DropLast(who, n);
      CoversSize(who[..j] + who[j + 1..], n - 1);
    }
  }

  lemma DropLast(who: seq<nat>, n: nat) returns (j: nat)
    requires n > 0 && Covers(who, n)
    ensures j < |who| && who[j] == n - 1 && Covers(who[..j] + who[j + 1..], n - 1)
  {
    assert n - 1 in who;
    j :| 0 <= j < |who| && who[j] == n - 1;
    var rest := who[..j] + who[j + 1..];
    forall s: nat | s < n - 1 ensures s in rest {
      assert s in who;
      var i :| 0 <= i < |who| && who[i] == s;
      assert rest[if i < j then i else i - 1] == s;
    }
  }

  ghost function Members(who: seq<nat>): set<nat>
  {
    set s | s in who
  }

  lemma {:induction false} DistinctSize(who: seq<nat>)
    requires forall i, j | 0 <= i < j < |who| :: who[i] != who[j]
    ensures |Members(who)| == |who|
  {
    if who == [] {
      assert Members(who) == {};
    } else {
      var n := |who| - 1;
      DistinctSize(who[..n]);
      assert who == who[..n] + [who[n]];
      assert who[n] !in who[..n];
      assert Members(who) == Members(who[..n]) + {who[n]};
    }
  }

  /** `n` distinct numbers below `n` are all of them. */
  lemma DistinctCovers(who: seq<nat>, n: nat)
    requires |who| == n && forall i | 0 <= i < |who| :: who[i] < n
    requires forall i, j | 0 <= i < j < |who| :: who[i] != who[j]
    ensures Covers(who, n)
  {
    DistinctSize(who);
    SubsetSize(Members(who), Below(n));
    forall s: nat | s < n ensures s in who {
      assert s in Members(who);
    }
  }

  /** Tensors listed in any order of their ranks have the same column sums as in rank order. */
  lemma {:induction false} ColumnInAnyOrder(who: seq<nat>, values: seq<seq<int>>, xs: seq<seq<int>>, k: nat)
    requires Covers(who, |xs|) && |values| == |who|
    requires forall r | 0 <= r < |xs| :: k < |xs[r]|
    requires forall i | 0 <= i < |who| :: who[i] < |xs| && values[i] == xs[who[i]]
    ensures Column(values, k) == Column(xs, k)
    decreases |xs|
  {
    CoversSize(who, |xs|);
    if xs != [] {
      var n := |xs| - 1;
      var j := DropLast(who, n + 1);
      ColumnWithout(values, j, k);
      var who', values' := who[..j] + who[j + 1..], values[..j] + values[j + 1..];
      forall i | 0 <= i < |who'| ensures who'[i] < n && values'[i] == xs[..n][who'[i]] {
        assert who'[i] in who';
      }
      ColumnInAnyOrder(who', values', xs[..n], k);
    }
  }

  function Slices(xs: seq<seq<int>>, size: nat, lo: nat, hi: nat): (r: seq<seq<int>>)
    requires SameLength(xs, size) && lo <= hi <= size
    ensures |r| == |xs| && SameLength(r, hi - lo)
    ensures forall i | 0 <= i < |xs| :: r[i] == xs[i][lo..hi]
  {
    seq(|xs|, i requires 0 <= i < |xs| => xs[i][lo..hi])
  }

  lemma {:induction false} ColumnOfSlices(xs: seq<seq<int>>, size: nat, lo: nat, hi: nat, t: nat)
    requires SameLength(xs, size) && lo + t < hi <= size
    ensures Column(Slices(xs, size, lo, hi), t) == Column(xs, lo + t)
  {
    if xs != [] {
      ColumnOfSlices(xs[..|xs| - 1], size, lo, hi, t);
      assert Slices(xs, size, lo, hi)[..|xs| - 1] == Slices(xs[..|xs| - 1], size, lo, hi);
    }
  }

  /** `values` are the slices `lo..hi` of the tensors of the ranks in `who`. */
  ghost predicate AreSlices(xs: seq<seq<int>>, size: nat, lo: nat, hi: nat, who: seq<nat>, values: seq<seq<int>>)
  {
    && xs != [] && SameLength(xs, size) && lo <= hi <= size && |values| == |who|
    && forall i | 0 <= i < |who| :: who[i] < |xs| && values[i] == xs[who[i]][lo..hi]
  }

  lemma SlicesShape(xs: seq<seq<int>>, size: nat, lo: nat, hi: nat, who: seq<nat>, values: seq<seq<int>>)
    requires AreSlices(xs, size, lo, hi, who, values) && Covers(who, |xs|)
    ensures |values| == |xs| && SameLength(values, hi - lo)
  {
    CoversSize(who, |xs|);
  }

  lemma ArrivedSlicesAt(xs: seq<seq<int>>, size: nat, lo: nat, hi: nat, who: seq<nat>, values: seq<seq<int>>, t: nat)
    requires AreSlices(xs, size, lo, hi, who, values) && Covers(who, |xs|) && lo + t < hi
    requires values != [] && SameLength(values, hi - lo)
    ensures Sum(values, hi - lo)[t] == Sum(xs, size)[lo + t]
  {
    SumByColumn(values, hi - lo, t);
    ColumnInAnyOrder(who, values, Slices(xs, size, lo, hi), t);
    ColumnOfSlices(xs, size, lo, hi, t);
    SumByColumn(xs, size, lo + t);
  }

  lemma ArrivedSlicesAddUp(xs: seq<seq<int>>, size: nat, lo: nat, hi: nat, who: seq<nat>, values: seq<seq<int>>)
    requires AreSlices(xs, size, lo, hi, who, values) && Covers(who, |xs|)
    ensures values != [] && SameLength(values, hi - lo) && Sum(values, hi - lo) == Sum(xs, size)[lo..hi]
  {
    SlicesShape(xs, size, lo, hi, who, values);
    var sum, whole := Sum(values, hi - lo), Sum(xs, size)[lo..hi];
    forall t: nat | t < hi - lo ensures sum[t] == whole[t] {
      ArrivedSlicesAt(xs, size, lo, hi, who, values, t);
    }
  }

  /** Whatever the order in which the chunks of part `part` arrive, their sum is that part of the full sum. */
  lemma ArrivedChunksAddUp(x: Inputs, world: nat, k: nat, part: nat, who: seq<nat>, values: seq<seq<int>>)
    requires 0 < world && part < world && SameShapes(x, world)
    requires Covers(who, world) && |values| == |who|
    requires forall i | 0 <= i < |who| :: who[i] < world && values[i] == Chunk(x(who[i], k), world, part)
    ensures values != [] && SameLength(values, |values[0]|)
    ensures Sum(values, |values[0]|) == Reduced(x, world, k, part)
  {
    var size := |x(0, k)|;
    CutMonotone(size, world, part, part + 1);
    CutMonotone(size, world, part + 1, world);
    ArrivedSlicesAddUp(InRound(x, world, k), size, Cut(size, world, part), Cut(size, world, part + 1), who, values);
  }

  /** The gathered parts are the element-wise sum. */
  lemma GatheredPartsAreTheSum(x: Inputs, world: nat, k: nat, parts: seq<seq<int>>)
    requires 0 < world && SameShapes(x, world) && |parts| == world
    requires forall i | 0 <= i < world :: parts[i] == Reduced(x, world, k, i)
    ensures Cat(parts) == Expected(x, world, k)
  {
    CatOfChunks(Expected(x, world, k), world, parts);
  }
}
