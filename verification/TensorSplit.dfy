/**
 `tensor_split` along one dimension and element-wise sums, on vectors of integers.
 */
module TensorSplit {
  import opened Multiples

  function Min(a: int, b: int): int { if a <= b then a else b }

  /** Where part `i` of `n` items split into `parts` parts begins; the first n % parts parts are longer by one. */
  function Cut(n: nat, parts: nat, i: nat): (c: nat)
    requires 0 < parts && i <= parts
    ensures c == Times(i, n / parts) + Min(i, n % parts)
  {
    Times(i, n / parts) + Min(i, n % parts)
  }

  lemma CutEnds(n: nat, parts: nat)
    requires 0 < parts
    ensures Cut(n, parts, 0) == 0 && Cut(n, parts, parts) == n
  {
    TimesIsProduct(parts, n / parts);
  }

  lemma {:induction false} CutMonotone(n: nat, parts: nat, i: nat, j: nat)
    requires 0 < parts && i <= j <= parts
    ensures Cut(n, parts, i) <= Cut(n, parts, j) <= n
    decreases j - i, parts - j
  {
    CutEnds(n, parts);
    if i < j {
      CutMonotone(n, parts, i, j - 1);
      CutStep(n, parts, j - 1);
    }
    if j < parts {
      CutBelowEnd(n, parts, j);
    }
  }

  lemma CutStep(n: nat, parts: nat, i: nat)
    requires 0 < parts && i < parts
    ensures Cut(n, parts, i + 1) == Cut(n, parts, i) + n / parts + if i < n % parts then 1 else 0
  {
  }

  lemma {:induction false} CutBelowEnd(n: nat, parts: nat, i: nat)
    requires 0 < parts && i <= parts
    ensures Cut(n, parts, i) <= n
    decreases parts - i
  {
    if i == parts {
      CutEnds(n, parts);
    } else {
      CutBelowEnd(n, parts, i + 1);
      CutStep(n, parts, i);
    }
  }

  /** Part `i` of `x.tensor_split(parts)`. */
  function Chunk<T>(x: seq<T>, parts: nat, i: nat): (r: seq<T>)
    requires i < parts
    ensures |r| == Cut(|x|, parts, i + 1) - Cut(|x|, parts, i)
  {
    CutMonotone(|x|, parts, i, i + 1);
    x[Cut(|x|, parts, i)..Cut(|x|, parts, i + 1)]
  }

  /** `torch.cat` */
  function Cat<T>(parts: seq<seq<T>>): seq<T>
  {
    if parts == [] then [] else Cat(parts[..|parts| - 1]) + parts[|parts| - 1]
  }

  lemma {:induction false} CatOfChunksUpTo<T>(x: seq<T>, parts: nat, chunks: seq<seq<T>>)
    requires 0 < parts && |chunks| <= parts
    requires forall i | 0 <= i < |chunks| :: chunks[i] == Chunk(x, parts, i)
    ensures Cut(|x|, parts, |chunks|) <= |x| && Cat(chunks) == x[..Cut(|x|, parts, |chunks|)]
  {
    CutBelowEnd(|x|, parts, |chunks|);
    if chunks == [] {
      CutEnds(|x|, parts);
    } else {
      var n := |chunks| - 1;
      CatOfChunksUpTo(x, parts, chunks[..n]);
      CutMonotone(|x|, parts, n, n + 1);
      assert chunks[n] == Chunk(x, parts, n);
    }
  }

  /** Concatenating all parts gives the tensor back. */
  lemma CatOfChunks<T>(x: seq<T>, parts: nat, chunks: seq<seq<T>>)
    requires 0 < parts && |chunks| == parts
    requires forall i | 0 <= i < parts :: chunks[i] == Chunk(x, parts, i)
    ensures Cat(chunks) == x
  {
    CatOfChunksUpTo(x, parts, chunks);
    CutEnds(|x|, parts);
  }

  // ----- element-wise sums -----

  function Add(x: seq<int>, y: seq<int>): (r: seq<int>)
    requires |x| == |y|
    ensures |r| == |x| && forall k | 0 <= k < |r| :: r[k] == x[k] + y[k]
  {
    seq(|x|, k requires 0 <= k < |x| => x[k] + y[k])
  }

  predicate SameLength(xs: seq<seq<int>>, n: nat)
  {
    forall i | 0 <= i < |xs| :: |xs[i]| == n
  }

  /** `sum(tensors)`: the element-wise sum of a non-empty list of tensors of one shape. */
  function Sum(xs: seq<seq<int>>, n: nat): (r: seq<int>)
    requires xs != [] && SameLength(xs, n)
    ensures |r| == n
  {
    if |xs| == 1 then xs[0] else Add(Sum(xs[..|xs| - 1], n), xs[|xs| - 1])
  }

  function Column(xs: seq<seq<int>>, k: nat): int
    requires forall i | 0 <= i < |xs| :: k < |xs[i]|
  {
    if xs == [] then 0 else Column(xs[..|xs| - 1], k) + xs[|xs| - 1][k]
  }

  lemma {:induction false} SumByColumn(xs: seq<seq<int>>, n: nat, k: nat)
    requires xs != [] && SameLength(xs, n) && k < n
    ensures Sum(xs, n)[k] == Column(xs, k)
  {
    if |xs| > 1 {
      SumByColumn(xs[..|xs| - 1], n, k);
    }
  }

  lemma {:induction false} ColumnWithout(xs: seq<seq<int>>, j: nat, k: nat)
    requires j < |xs| && forall i | 0 <= i < |xs| :: k < |xs[i]|
    ensures Column(xs, k) == Column(xs[..j] + xs[j + 1..], k) + xs[j][k]
  {
    var n := |xs| - 1;
    var rest := xs[..j] + xs[j + 1..];
    if j == n {
      assert rest == xs[..n];
    } else {
      ColumnWithout(xs[..n], j, k);
      assert rest[..n - 1] == xs[..n][..j] + xs[..n][j + 1..];
      assert rest[n - 1] == xs[n];
    }
  }
}
