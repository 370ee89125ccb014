/**
 Head-parallel sharding of a transformer block: every rank holds some key/value heads with the query heads that use
 them, and the ranks' partial outputs are summed.

 Numbers are reals; how a weight row acts on the input, what attention does with one head and how a weight combines with
 an activation are arbitrary functions.
 */
module TensorParallel {
  import opened Multiples
  import opened TensorSplit
  import opened Wrappers

  // ----- splitting by heads -----

  /** The tensor as a list of heads of `size` entries. */
  function Blocks<T>(s: seq<T>, size: nat): seq<seq<T>>
    requires size > 0
  {
    if |s| < size then [] else [s[..size]] + Blocks(s[size..], size)
  }

  predicate IsMultiple(n: nat, size: nat)
    requires size > 0
  {
    n == 0 || (n >= size && IsMultiple(n - size, size))
  }

  /** A whole number of heads per rank; fails when the tensor is no whole number of heads. */
  function SplitHeads<T>(s: seq<T>, size: nat, rank: nat, world: nat): Option<seq<T>>
    requires size > 0 && rank < world
  {
    if !IsMultiple(|s|, size) then None else Some(Cat(Chunk(Blocks(s, size), world, rank)))
  }

  lemma {:induction false} BlockAt<T>(s: seq<T>, size: nat, n: nat, g: nat)
    requires size > 0 && |s| == Times(n, size)
    ensures |Blocks(s, size)| == n
    ensures g < n ==> Times(g, size) + size <= |s| && Blocks(s, size)[g] == s[Times(g, size)..Times(g, size) + size]
  {
    if n > 0 {
      var rest := s[size..];
      if g > 0 {
        BlockAt(rest, size, n - 1, g - 1);
        assert g < n ==> rest[Times(g - 1, size)..Times(g - 1, size) + size]
                         == s[Times(g, size)..Times(g, size) + size];
      } else {
        BlockAt(rest, size, n - 1, 0);
      }
    }
  }

  ghost predicate SameSize<T>(blocks: seq<seq<T>>, size: nat)
  {
    forall g | 0 <= g < |blocks| :: |blocks[g]| == size
  }

  lemma {:induction false} CatLength<T>(blocks: seq<seq<T>>, size: nat)
    requires SameSize(blocks, size)
    ensures |Cat(blocks)| == Times(|blocks|, size)
  {
    if |blocks| > 0 {
      CatLength(blocks[..|blocks| - 1], size);
      TimesAdd(|blocks| - 1, 1, size);
    }
  }

  lemma {:induction false} CatJoin<T>(a: seq<seq<T>>, b: seq<seq<T>>)
    ensures Cat(a + b) == Cat(a) + Cat(b)
  {
    if |b| == 0 {
      assert a + b == a;
    } else {
      CatJoin(a, b[..|b| - 1]);
      assert (a + b)[..|a + b| - 1] == a + b[..|b| - 1];
    }
  }

  lemma CatPrefix<T>(blocks: seq<seq<T>>, size: nat, b: nat)
    requires SameSize(blocks, size) && b <= |blocks|
    ensures Times(b, size) <= |Cat(blocks)| && Cat(blocks[..b]) == Cat(blocks)[..Times(b, size)]
  {
    CatJoin(blocks[..b], blocks[b..]);
    assert blocks[..b] + blocks[b..] == blocks;
    CatLength(blocks[..b], size);
  }

  /** Consecutive blocks of one size are a range of the joined tensor. */
  lemma CatRange<T>(blocks: seq<seq<T>>, size: nat, a: nat, b: nat)
    requires SameSize(blocks, size) && a <= b <= |blocks|
    ensures Times(a, size) <= Times(b, size) <= |Cat(blocks)|
    ensures Cat(blocks[a..b]) == Cat(blocks)[Times(a, size)..Times(b, size)]
  {
    CatPrefix(blocks, size, a);
    CatPrefix(blocks, size, b);
    TimesMonotone(a, b, size);
    CatOfRange(blocks, a, b);
    RangeOfPrefixes(Cat(blocks), Cat(blocks[..a]), Cat(blocks[a..b]), Cat(blocks[..b]), Times(a, size), Times(b, size));
  }

  lemma CatOfRange<T>(blocks: seq<seq<T>>, a: nat, b: nat)
    requires a <= b <= |blocks|
    ensures Cat(blocks[..b]) == Cat(blocks[..a]) + Cat(blocks[a..b])
  {
    CatJoin(blocks[..a], blocks[a..b]);
    assert blocks[..a] + blocks[a..b] == blocks[..b];
  }

  lemma RangeOfPrefixes<T>(s: seq<T>, first: seq<T>, part: seq<T>, both: seq<T>, a: nat, b: nat)
    requires a <= b <= |s| && first == s[..a] && both == s[..b] && both == first + part
    ensures part == s[a..b]
  {
    assert s[..b][a..] == s[a..b];
    assert (first + part)[a..] == part;
  }

  lemma {:induction false} CatOfBlocks<T>(s: seq<T>, size: nat, n: nat)
    requires size > 0 && |s| == Times(n, size)
    ensures Cat(Blocks(s, size)) == s && |Blocks(s, size)| == n && SameSize(Blocks(s, size), size)
  {
    BlockAt(s, size, n, 0);
    if n == 0 {
      assert s == [];
    } else {
      CatOfBlocks(s[size..], size, n - 1);
      CatJoin([s[..size]], Blocks(s[size..], size));
      assert Cat([s[..size]]) == s[..size];
    }
  }

  lemma {:induction false} WholeHeads(n: nat, size: nat)
    requires size > 0
    ensures IsMultiple(Times(n, size), size)
  {
    if n > 0 { WholeHeads(n - 1, size); }
  }

  /** What a rank gets is the range of entries of its heads. */
  lemma SplitHeadsIsRange<T>(s: seq<T>, size: nat, n: nat, rank: nat, world: nat)
    requires size > 0 && |s| == Times(n, size) && rank < world
    ensures var from, to := Cut(n, world, rank), Cut(n, world, rank + 1);
            && from <= to <= n && Times(from, size) <= Times(to, size) <= |s|
            && SplitHeads(s, size, rank, world) == Some(s[Times(from, size)..Times(to, size)])
  {
    WholeHeads(n, size);
    CatOfBlocks(s, size, n);
    CutMonotone(n, world, rank, rank + 1);
    CatRange(Blocks(s, size), size, Cut(n, world, rank), Cut(n, world, rank + 1));
  }

  /** A tensor that is no whole number of heads is not split. */
  lemma SplitHeadsFails<T>(s: seq<T>, size: nat, rank: nat, world: nat)
    requires size > 0 && rank < world
    ensures SplitHeads(s, size, rank, world).None? <==> forall n: nat :: |s| != Times(n, size)
  {
    if IsMultiple(|s|, size) {
      var n := HeadsIn(|s|, size);
    } else if n: nat :| |s| == Times(n, size) {
      WholeHeads(n, size);
    }
  }

  lemma {:induction false} HeadsIn(length: nat, size: nat) returns (n: nat)
    requires size > 0 && IsMultiple(length, size)
    ensures length == Times(n, size)
  {
    if length == 0 {
      n := 0;
    } else {
      n := HeadsIn(length - size, size);
      n := n + 1;
    }
  }

  /** With at least one head per rank, no rank is left without a head. */
  lemma EveryRankHasAHead(n: nat, world: nat, rank: nat)
    requires 0 < world <= n && rank < world
    ensures Cut(n, world, rank) < Cut(n, world, rank + 1)
  {
    CutStep(n, world, rank);
    assert n / world >= 1;
  }

  // ----- row-parallel layers -----

  /** The arithmetic of a block: `apply` is one row of a projection (with its bias) applied to the input, `attend` one
      query head against one key head, value head and their past, `combine` a weight with an activation, `gate` the two
      halves of the feed-forward layer. */
  datatype Functions<!X, !Row, !Past> = Functions(
    apply: (Row, X) -> real, attend: (seq<real>, seq<real>, seq<real>, Past) -> seq<real>,
    combine: (real, real) -> real, gate: (real, real) -> real)

  function Dot<X, Row, Past>(f: Functions<X, Row, Past>, w: seq<real>, a: seq<real>): real
    requires |w| == |a|
  {
    if |w| == 0 then 0.0 else Dot(f, w[..|w| - 1], a[..|a| - 1]) + f.combine(w[|w| - 1], a[|a| - 1])
  }

  lemma {:induction false} DotJoin<X, Row, Past>(f: Functions<X, Row, Past>, w: seq<real>, a: seq<real>, w': seq<real>,
                                                 a': seq<real>)
    requires |w| == |a| && |w'| == |a'|
    ensures Dot(f, w + w', a + a') == Dot(f, w, a) + Dot(f, w', a')
  {
    if |w'| == 0 {
      assert w + w' == w && a + a' == a;
    } else {
      var n := |w'| - 1;
      DotJoin(f, w, a, w'[..n], a'[..n]);
      assert (w + w')[..|w| + n] == w + w'[..n] && (a + a')[..|a| + n] == a + a'[..n];
    }
  }

  /** Where the share of rank `r` begins when `n` units of `size` entries are split among `world` ranks. */
  function Bound(n: nat, size: nat, world: nat, r: nat): nat
    requires r <= world && world > 0
  {
    Times(Cut(n, world, r), size)
  }

  lemma BoundsRise(n: nat, size: nat, world: nat, r: nat)
    requires r < world
    ensures Bound(n, size, world, r) <= Bound(n, size, world, r + 1) <= Times(n, size)
  {
    CutMonotone(n, world, r, r + 1);
    TimesMonotone(Cut(n, world, r), Cut(n, world, r + 1), size);
    TimesMonotone(Cut(n, world, r + 1), n, size);
  }

  lemma BoundsEnd(n: nat, size: nat, world: nat)
    requires world > 0
    ensures Bound(n, size, world, 0) == 0 && Bound(n, size, world, world) == Times(n, size)
  {
    CutEnds(n, world);
  }

  /** Rank `r`'s entries of a tensor of `n` units. */
  function Share<T>(s: seq<T>, n: nat, size: nat, world: nat, r: nat): (share: seq<T>)
    requires r < world && |s| == Times(n, size)
    ensures |share| == Bound(n, size, world, r + 1) - Bound(n, size, world, r)
  {
    BoundsRise(n, size, world, r);
    s[Bound(n, size, world, r)..Bound(n, size, world, r + 1)]
  }

  /** Rank `r`'s term of a row-parallel layer: the product over its own entries, and its share of the bias. */
  function RankTerm<X, Row, Past>(f: Functions<X, Row, Past>, w: seq<real>, a: seq<real>, bias: real, world: nat): real
    requires |w| == |a| && world > 0
  {
    Dot(f, w, a) + bias / (world as real)
  }

  /** What the all-reduce yields. */
  function Total(terms: seq<real>): real
  {
    if |terms| == 0 then 0.0 else Total(terms[..|terms| - 1]) + terms[|terms| - 1]
  }

  ghost predicate AreTerms<X, Row, Past>(f: Functions<X, Row, Past>, w: seq<real>, a: seq<real>, bias: real,
                                         world: nat, n: nat, size: nat, terms: seq<real>)
    requires |w| == |a| == Times(n, size) && world > 0 && |terms| <= world
  {
    forall r: nat | r < |terms| :: terms[r] == RankTerm(f, Share(w, n, size, world, r), Share(a, n, size, world, r),
                                                        bias, world)
  }

  lemma {:induction false} SharesAddUp<X, Row, Past>(f: Functions<X, Row, Past>, w: seq<real>, a: seq<real>,
                                                     bias: real, world: nat, n: nat, size: nat, terms: seq<real>)
    requires |w| == |a| == Times(n, size) && world > 0 && |terms| <= world
             && AreTerms(f, w, a, bias, world, n, size, terms)
    ensures Bound(n, size, world, |terms|) <= |a|
    ensures Total(terms) == Dot(f, w[..Bound(n, size, world, |terms|)], a[..Bound(n, size, world, |terms|)])
                            + Repeated(bias / (world as real), |terms|)
  {
    if |terms| == 0 {
      BoundsEnd(n, size, world);
    } else {
      var r := |terms| - 1;
      SharesAddUp(f, w, a, bias, world, n, size, terms[..r]);
      BoundsRise(n, size, world, r);
      NextShare(f, w, a, Bound(n, size, world, r), Bound(n, size, world, r + 1));
    }
  }

  lemma NextShare<X, Row, Past>(f: Functions<X, Row, Past>, w: seq<real>, a: seq<real>, lo: nat, hi: nat)
    requires |w| == |a| && lo <= hi <= |a|
    ensures Dot(f, w[..hi], a[..hi]) == Dot(f, w[..lo], a[..lo]) + Dot(f, w[lo..hi], a[lo..hi])
  {
    DotJoin(f, w[..lo], a[..lo], w[lo..hi], a[lo..hi]);
    assert w[..lo] + w[lo..hi] == w[..hi] && a[..lo] + a[lo..hi] == a[..hi];
  }

  function Repeated(y: real, r: nat): real
  {
    if r == 0 then 0.0 else Repeated(y, r - 1) + y
  }

  lemma {:induction false} RepeatedIsProduct(y: real, r: nat)
    ensures Repeated(y, r) == (r as real) * y
  {
    if r > 0 {
      RepeatedIsProduct(y, r - 1);
      assert (r as real) * y == ((r - 1) as real) * y + y;
    }
  }

  lemma SharesOfNumber(y: real, world: nat)
    requires world > 0
    ensures Repeated(y / (world as real), world) == y
  {
    RepeatedIsProduct(y / (world as real), world);
  }

  /** Summed over the ranks, the shares of the product and of the bias are the whole. */
  lemma RowParallelSum<X, Row, Past>(f: Functions<X, Row, Past>, w: seq<real>, a: seq<real>, bias: real, world: nat,
                                     n: nat, size: nat, terms: seq<real>)
    requires |w| == |a| == Times(n, size) && |terms| == world > 0 && AreTerms(f, w, a, bias, world, n, size, terms)
    ensures Total(terms) == Dot(f, w, a) + bias
  {
    SharesAddUp(f, w, a, bias, world, n, size, terms);
    SharesOfNumber(bias, world);
    BoundsEnd(n, size, world);
    assert w[..|w|] == w && a[..|a|] == a;
  }

  // ----- the feed-forward layer -----

  /** `gate` and `up` have one row per intermediate entry, every row of `down` one weight per intermediate entry. */
  datatype FeedForward<Row> = FeedForward(gate: seq<Row>, up: seq<Row>, down: seq<seq<real>>, bias: seq<real>)
  {
    ghost predicate Valid()
    {
      |up| == |gate| && |bias| == |down| && forall i | 0 <= i < |down| :: |down[i]| == |gate|
    }

    function Intermediate<X, Past>(f: Functions<X, Row, Past>, x: X): (mid: seq<real>)
      requires |up| == |gate|
      ensures |mid| == |gate|
    {
      seq(|gate|, i requires 0 <= i < |gate| => f.gate(f.apply(gate[i], x), f.apply(up[i], x)))
    }

    /** Entry `i` of the output. */
    function Output<X, Past>(f: Functions<X, Row, Past>, x: X, i: nat): real
      requires Valid() && i < |down|
    {
      Dot(f, down[i], Intermediate(f, x)) + bias[i]
    }

    /** "split 0" of the gate and up projections, "split 1" of the down projection and "scale" of its bias. */
    function Shard(rank: nat, world: nat): FeedForward<Row>
      requires Valid() && rank < world
    {
      FeedForward(Chunk(gate, world, rank), Chunk(up, world, rank),
                  seq(|down|, i requires 0 <= i < |down| => Chunk(down[i], world, rank)),
                  seq(|bias|, i requires 0 <= i < |bias| => bias[i] / (world as real)))
    }
  }

  lemma {:induction false} TimesOne(n: nat)
    ensures Times(n, 1) == n
  {
    if n > 0 { TimesOne(n - 1); }
  }

  lemma ChunkIsShare<T>(s: seq<T>, world: nat, r: nat)
    requires r < world
    ensures |s| == Times(|s|, 1) && Chunk(s, world, r) == Share(s, |s|, 1, world, r)
  {
    TimesOne(|s|);
    TimesOne(Cut(|s|, world, r));
    TimesOne(Cut(|s|, world, r + 1));
  }

  lemma ShardedIntermediate<X, Row, Past>(f: Functions<X, Row, Past>, m: FeedForward<Row>, x: X, rank: nat, world: nat)
    requires m.Valid() && rank < world
    ensures m.Shard(rank, world).Valid()
    ensures m.Shard(rank, world).Intermediate(f, x) == Chunk(m.Intermediate(f, x), world, rank)
  {
    CutMonotone(|m.gate|, world, rank, rank + 1);
  }

  /** Entry `i` of the ranks' outputs adds up to entry `i` of the unsharded layer's output. */
  lemma ShardedFeedForwardIsWhole<X, Row, Past>(f: Functions<X, Row, Past>, m: FeedForward<Row>, x: X, world: nat,
                                                i: nat, outputs: seq<real>)
    requires m.Valid() && i < |m.down| && |outputs| == world > 0
    requires forall r: nat | r < world :: m.Shard(r, world).Valid() && outputs[r] == m.Shard(r, world).Output(f, x, i)
    ensures Total(outputs) == m.Output(f, x, i)
  {
    var mid := m.Intermediate(f, x);
    TimesOne(|mid|);
    forall r: nat | r < world
      ensures outputs[r] == RankTerm(f, Share(m.down[i], |mid|, 1, world, r), Share(mid, |mid|, 1, world, r),
                                     m.bias[i], world)
    {
      ShardedIntermediate(f, m, x, r, world);
      ChunkIsShare(mid, world, r);
      ChunkIsShare(m.down[i], world, r);
    }
    RowParallelSum(f, m.down[i], mid, m.bias[i], world, |mid|, 1, outputs);
  }

  // ----- attention -----

  /** The projections of `n` key/value heads of `hd` entries, each with `groups` query heads. */
  datatype Attention<Row> = Attention(q: seq<Row>, k: seq<Row>, v: seq<Row>, o: seq<seq<real>>, bias: seq<real>)
  {
    ghost predicate Fits(n: nat, groups: nat, hd: nat)
    {
      && groups > 0 && hd > 0
      && |q| == Times(n, Times(groups, hd)) && |k| == |v| == Times(n, hd)
      && |bias| == |o| && forall i | 0 <= i < |o| :: |o[i]| == Times(n, Times(groups, hd))
    }
  }

  function Project<X, Row, Past>(f: Functions<X, Row, Past>, rows: seq<Row>, x: X): (v: seq<real>)
    ensures |v| == |rows|
  {
    seq(|rows|, i requires 0 <= i < |rows| => f.apply(rows[i], x))
  }

  function Head(v: seq<real>, j: nat, hd: nat): seq<real>
    requires Times(j, hd) + hd <= |v|
  {
    v[Times(j, hd)..Times(j, hd) + hd]
  }

  /** The key/value head that query head `j` uses: the quotient by the number of query heads per group. */
  function KvHead(j: nat, groups: nat): nat
    requires groups > 0
  {
    if j < groups then 0 else 1 + KvHead(j - groups, groups)
  }

  lemma {:induction false} KvHeadBelow(j: nat, groups: nat, n: nat)
    requires groups > 0 && j < Times(n, groups)
    ensures KvHead(j, groups) < n
  {
    if j >= groups { KvHeadBelow(j - groups, groups, n - 1); }
  }

  /** Query heads are paired in groups of `groups`: the first group uses key/value head 0, the next one head 1, and so
      on. */
  lemma {:induction false} HeadUsesItsGroup(j: nat, g: nat, groups: nat)
    requires groups > 0
    ensures KvHead(j, groups) == g <==> Times(g, groups) <= j < Times(g + 1, groups)
  {
    if j >= groups && g > 0 { HeadUsesItsGroup(j - groups, g - 1, groups); }
    if g > 0 { TimesMonotone(1, g, groups); }
    assert Times(1, groups) == groups;
  }

  /** Skipping whole groups of query heads skips as many key/value heads: the pairing is the same on every rank. */
  lemma {:induction false} PairingIsKept(c: nat, j: nat, groups: nat)
    requires groups > 0
    ensures KvHead(Times(c, groups) + j, groups) == c + KvHead(j, groups)
  {
    if c > 0 { PairingIsKept(c - 1, j, groups); }
  }

  lemma HeadInRange(n: nat, groups: nat, hd: nat, j: nat)
    requires j < Times(n, groups)
    ensures Times(j, hd) + hd <= Times(n, Times(groups, hd))
  {
    TimesTwice(n, groups, hd);
    TimesMonotone(j + 1, Times(n, groups), hd);
  }

  lemma KvHeadInRange(n: nat, groups: nat, hd: nat, j: nat)
    requires groups > 0 && j < Times(n, groups)
    ensures KvHead(j, groups) < n && Times(KvHead(j, groups), hd) + hd <= Times(n, hd)
  {
    KvHeadBelow(j, groups, n);
    TimesMonotone(KvHead(j, groups) + 1, n, hd);
  }

  /** What query head `j` attends to: its own key/value head, with that head's past. */
  function HeadOutput<X, Row, Past>(f: Functions<X, Row, Past>, a: Attention<Row>, groups: nat, hd: nat, x: X,
                                    past: seq<Past>, j: nat): seq<real>
    requires a.Fits(|past|, groups, hd) && j < Times(|past|, groups)
  {
    HeadInRange(|past|, groups, hd, j);
    KvHeadInRange(|past|, groups, hd, j);
    var g := KvHead(j, groups);
    f.attend(Head(Project(f, a.q, x), j, hd), Head(Project(f, a.k, x), g, hd), Head(Project(f, a.v, x), g, hd), past[g])
  }

  /** The outputs of the first `m` query heads, one after the other. */
  function Attended<X, Row, Past>(f: Functions<X, Row, Past>, a: Attention<Row>, groups: nat, hd: nat, x: X,
                                  past: seq<Past>, m: nat): seq<real>
    requires a.Fits(|past|, groups, hd) && m <= Times(|past|, groups)
  {
    if m == 0 then [] else Attended(f, a, groups, hd, x, past, m - 1) + HeadOutput(f, a, groups, hd, x, past, m - 1)
  }

  /** Attention yields `hd` entries per query head. */
  ghost predicate HeadSized<X, Row, Past(!new)>(f: Functions<X, Row, Past>, hd: nat)
  {
    forall q, k, v, p :: |f.attend(q, k, v, p)| == hd
  }

  lemma HeadOutputSized<X, Row, Past(!new)>(f: Functions<X, Row, Past>, a: Attention<Row>, groups: nat, hd: nat, x: X,
                                            past: seq<Past>, j: nat)
    requires a.Fits(|past|, groups, hd) && HeadSized(f, hd) && j < Times(|past|, groups)
    ensures |HeadOutput(f, a, groups, hd, x, past, j)| == hd
  {
    HeadInRange(|past|, groups, hd, j);
    KvHeadInRange(|past|, groups, hd, j);
    var g := KvHead(j, groups);
    assert HeadOutput(f, a, groups, hd, x, past, j)
        == f.attend(Head(Project(f, a.q, x), j, hd), Head(Project(f, a.k, x), g, hd), Head(Project(f, a.v, x), g, hd),
                    past[g]);
  }

  lemma {:induction false} AttendedSized<X, Row, Past(!new)>(f: Functions<X, Row, Past>, a: Attention<Row>,
                                                             groups: nat, hd: nat, x: X, past: seq<Past>, m: nat)
    requires a.Fits(|past|, groups, hd) && HeadSized(f, hd) && m <= Times(|past|, groups)
    ensures |Attended(f, a, groups, hd, x, past, m)| == Times(m, hd)
  {
    if m > 0 {
      AttendedSized(f, a, groups, hd, x, past, m - 1);
      HeadOutputSized(f, a, groups, hd, x, past, m - 1);
    }
  }

  lemma AllAttendedSized<X, Row, Past(!new)>(f: Functions<X, Row, Past>, a: Attention<Row>, groups: nat, hd: nat, x: X,
                                             past: seq<Past>)
    requires a.Fits(|past|, groups, hd) && HeadSized(f, hd)
    ensures |Attended(f, a, groups, hd, x, past, Times(|past|, groups))| == Times(|past|, Times(groups, hd))
  {
    AttendedSized(f, a, groups, hd, x, past, Times(|past|, groups));
    TimesTwice(|past|, groups, hd);
  }

  /** Entry `i` of the output projection. */
  ghost function AttentionOutput<X, Row, Past(!new)>(f: Functions<X, Row, Past>, a: Attention<Row>, groups: nat,
                                                     hd: nat, x: X, past: seq<Past>, i: nat): real
    requires a.Fits(|past|, groups, hd) && HeadSized(f, hd) && i < |a.o|
  {
    AllAttendedSized(f, a, groups, hd, x, past);
    Dot(f, a.o[i], Attended(f, a, groups, hd, x, past, Times(|past|, groups))) + a.bias[i]
  }

  /** A tensor of `n` units of `size` entries, split by whole units. */
  function SplitUnits<T>(s: seq<T>, n: nat, size: nat, rank: nat, world: nat): (part: seq<T>)
    requires size > 0 && |s| == Times(n, size) && rank < world
    ensures part == Share(s, n, size, world, rank)
  {
    SplitHeadsIsRange(s, size, n, rank, world);
    SplitHeads(s, size, rank, world).value
  }

  lemma GroupIsNotEmpty(groups: nat, hd: nat)
    requires groups > 0 && hd > 0
    ensures Times(groups, hd) > 0
  {
  }

  /** Query and output projections are split in units of `groups` heads, keys and values head by head, the bias is
      scaled. */
  function ShardAttention<Row>(a: Attention<Row>, n: nat, groups: nat, hd: nat, rank: nat,
                               world: nat): (shard: Attention<Row>)
    requires a.Fits(n, groups, hd) && rank < world
  {
    GroupIsNotEmpty(groups, hd);
    Attention(SplitUnits(a.q, n, Times(groups, hd), rank, world), SplitUnits(a.k, n, hd, rank, world),
              SplitUnits(a.v, n, hd, rank, world), seq(|a.o|, i requires 0 <= i < |a.o|
                                                       && Times(groups, hd) > 0 => SplitUnits(a.o[i], n,
                                                       Times(groups, hd), rank, world)),
                                                       seq(|a.bias|, i requires 0 <= i < |a.bias| =>
                                                           a.bias[i] / (world as real)))
  }

  lemma BoundDifference(n: nat, size: nat, world: nat, r: nat)
    requires r < world
    ensures Cut(n, world, r) <= Cut(n, world, r + 1) <= n
    ensures Bound(n, size, world, r + 1) - Bound(n, size, world, r)
            == Times(Cut(n, world, r + 1) - Cut(n, world, r), size)
  {
    CutMonotone(n, world, r, r + 1);
    TimesAdd(Cut(n, world, r), Cut(n, world, r + 1) - Cut(n, world, r), size);
  }

  lemma ShardFits<Row>(a: Attention<Row>, n: nat, groups: nat, hd: nat, rank: nat, world: nat)
    requires a.Fits(n, groups, hd) && rank < world
    ensures Cut(n, world, rank) <= Cut(n, world, rank + 1) <= n
    ensures ShardAttention(a, n, groups, hd, rank, world).Fits(Cut(n, world, rank + 1) - Cut(n, world, rank), groups,
                                                               hd)
  {
    BoundDifference(n, Times(groups, hd), world, rank);
    BoundDifference(n, hd, world, rank);
  }

  lemma SliceOfSlice<T>(v: seq<T>, lo: nat, hi: nat, a: nat, b: nat)
    requires lo <= hi <= |v| && a <= b <= hi - lo
    ensures v[lo..hi][a..b] == v[lo + a..lo + b]
  {
    var part := v[lo..hi];
    forall k | 0 <= k < b - a ensures part[a..b][k] == v[lo + a..lo + b][k] {
      assert part[a..b][k] == part[a + k];
    }
  }

  /** A head of a rank's share is the head of the whole that many units later. */
  lemma HeadOfShare(v: seq<real>, n: nat, groups: nat, hd: nat, world: nat, r: nat, j: nat)
    requires |v| == Times(n, Times(groups, hd)) && r < world
    requires Cut(n, world, r) <= Cut(n, world, r + 1) && j < Times(Cut(n, world, r + 1) - Cut(n, world, r), groups)
    ensures var share, j' := Share(v, n, Times(groups, hd), world, r), Times(Cut(n, world, r), groups) + j;
            && Times(j, hd) + hd <= |share| && Times(j', hd) + hd <= |v| && Head(share, j, hd) == Head(v, j', hd)
  {
    var c, c' := Cut(n, world, r), Cut(n, world, r + 1);
    BoundDifference(n, Times(groups, hd), world, r);
    HeadInRange(c' - c, groups, hd, j);
    TimesTwice(c, groups, hd);
    TimesAdd(Times(c, groups), j, hd);
    BoundsRise(n, Times(groups, hd), world, r);
    SliceOfSlice(v, Bound(n, Times(groups, hd), world, r), Bound(n, Times(groups, hd), world, r + 1), Times(j, hd),
                 Times(j, hd) + hd);
  }

  lemma KvHeadOfShare(v: seq<real>, n: nat, hd: nat, world: nat, r: nat, g: nat)
    requires |v| == Times(n, hd) && r < world
    requires Cut(n, world, r) <= Cut(n, world, r + 1) && g < Cut(n, world, r + 1) - Cut(n, world, r)
    ensures var share, g' := Share(v, n, hd, world, r), Cut(n, world, r) + g;
            && Times(g, hd) + hd <= |share| && Times(g', hd) + hd <= |v| && Head(share, g, hd) == Head(v, g', hd)
  {
    var c, c' := Cut(n, world, r), Cut(n, world, r + 1);
    BoundDifference(n, hd, world, r);
    TimesMonotone(g + 1, c' - c, hd);
    TimesAdd(c, g, hd);
    BoundsRise(n, hd, world, r);
    SliceOfSlice(v, Bound(n, hd, world, r), Bound(n, hd, world, r + 1), Times(g, hd), Times(g, hd) + hd);
  }

  lemma ProjectShare<X, Row, Past>(f: Functions<X, Row, Past>, rows: seq<Row>, x: X, n: nat, size: nat, world: nat,
                                   r: nat)
    requires |rows| == Times(n, size) && r < world
    ensures Project(f, Share(rows, n, size, world, r), x) == Share(Project(f, rows, x), n, size, world, r)
  {
    BoundsRise(n, size, world, r);
  }

  lemma ShardedHeadInRange(n: nat, groups: nat, world: nat, rank: nat, j: nat)
    requires groups > 0 && rank < world
    requires Cut(n, world, rank) <= Cut(n, world, rank + 1) <= n
             && j < Times(Cut(n, world, rank + 1) - Cut(n, world, rank), groups)
    ensures Times(Cut(n, world, rank), groups) + j < Times(n, groups)
    ensures KvHead(j, groups) < Cut(n, world, rank + 1) - Cut(n, world, rank)
    ensures KvHead(Times(Cut(n, world, rank), groups) + j, groups) == Cut(n, world, rank) + KvHead(j, groups)
  {
    var c, c' := Cut(n, world, rank), Cut(n, world, rank + 1);
    KvHeadBelow(j, groups, c' - c);
    PairingIsKept(c, j, groups);
    TimesAdd(c, c' - c, groups);
    TimesMonotone(c', n, groups);
  }

  lemma ProjectedQueryHead<X, Row, Past>(f: Functions<X, Row, Past>, rows: seq<Row>, x: X, n: nat, groups: nat,
                                         hd: nat, world: nat, r: nat, j: nat)
    requires |rows| == Times(n, Times(groups, hd)) && r < world
    requires Cut(n, world, r) <= Cut(n, world, r + 1) && j < Times(Cut(n, world, r + 1) - Cut(n, world, r), groups)
    ensures var local, whole := Project(f, Share(rows, n, Times(groups, hd), world, r), x), Project(f, rows, x);
            var j' := Times(Cut(n, world, r), groups) + j;
            && Times(j, hd) + hd <= |local| && Times(j', hd) + hd <= |whole|
            && Head(local, j, hd) == Head(whole, j', hd)
  {
    ProjectShare(f, rows, x, n, Times(groups, hd), world, r);
    HeadOfShare(Project(f, rows, x), n, groups, hd, world, r, j);
  }

  lemma ProjectedKvHead<X, Row, Past>(f: Functions<X, Row, Past>, rows: seq<Row>, x: X, n: nat, hd: nat, world: nat,
                                      r: nat, g: nat)
    requires |rows| == Times(n, hd) && r < world
    requires Cut(n, world, r) <= Cut(n, world, r + 1) && g < Cut(n, world, r + 1) - Cut(n, world, r)
    ensures var local, whole := Project(f, Share(rows, n, hd, world, r), x), Project(f, rows, x);
            var g' := Cut(n, world, r) + g;
            && Times(g, hd) + hd <= |local| && Times(g', hd) + hd <= |whole|
            && Head(local, g, hd) == Head(whole, g', hd)
  {
    ProjectShare(f, rows, x, n, hd, world, r);
    KvHeadOfShare(Project(f, rows, x), n, hd, world, r, g);
  }

  /** Query head `j` of a rank computes what the same head of the unsharded block does: with the same key/value head,
      and with that head's past. */
  lemma ShardedHeadIsSame<X, Row, Past>(f: Functions<X, Row, Past>, a: Attention<Row>, groups: nat, hd: nat, x: X,
                                        past: seq<Past>, rank: nat, world: nat, j: nat)
    requires a.Fits(|past|, groups, hd) && rank < world && j < Times(|Chunk(past, world, rank)|, groups)
    requires ShardAttention(a, |past|, groups, hd, rank, world).Fits(|Chunk(past, world, rank)|, groups, hd)
    requires Cut(|past|, world, rank) <= Cut(|past|, world, rank + 1) <= |past|
    ensures Times(Cut(|past|, world, rank), groups) + j < Times(|past|, groups)
    ensures HeadOutput(f, ShardAttention(a, |past|, groups, hd, rank, world), groups, hd, x, Chunk(past, world, rank),
                       j)
            == HeadOutput(f, a, groups, hd, x, past, Times(Cut(|past|, world, rank), groups) + j)
  {
    var n := |past|;
    ShardedHeadInRange(n, groups, world, rank, j);
    ProjectedQueryHead(f, a.q, x, n, groups, hd, world, rank, j);
    ProjectedKvHead(f, a.k, x, n, hd, world, rank, KvHead(j, groups));
    ProjectedKvHead(f, a.v, x, n, hd, world, rank, KvHead(j, groups));
  }

  lemma HeadBounds(n: nat, groups: nat, world: nat, r: nat)
    requires r < world && Cut(n, world, r) <= Cut(n, world, r + 1) <= n
    ensures Times(Cut(n, world, r), groups) <= Times(Cut(n, world, r + 1), groups) <= Times(n, groups)
    ensures Times(Cut(n, world, r + 1) - Cut(n, world, r), groups)
            == Times(Cut(n, world, r + 1), groups) - Times(Cut(n, world, r), groups)
  {
    TimesMonotone(Cut(n, world, r), Cut(n, world, r + 1), groups);
    TimesMonotone(Cut(n, world, r + 1), n, groups);
    TimesAdd(Cut(n, world, r), Cut(n, world, r + 1) - Cut(n, world, r), groups);
  }

  /** The heads of `shard` compute what the heads of `a` from `lo` on compute. */
  ghost predicate SameHeads<X, Row, Past>(f: Functions<X, Row, Past>, a: Attention<Row>, shard: Attention<Row>,
                                          groups: nat, hd: nat, x: X, past: seq<Past>, local: seq<Past>, lo: nat)
  {
    && a.Fits(|past|, groups, hd) && shard.Fits(|local|, groups, hd)
    && lo + Times(|local|, groups) <= Times(|past|, groups)
    && forall j: nat | j < Times(|local|, groups) ::
         HeadOutput(f, shard, groups, hd, x, local, j) == HeadOutput(f, a, groups, hd, x, past, lo + j)
  }

  lemma ShardHasSameHeads<X, Row, Past>(f: Functions<X, Row, Past>, a: Attention<Row>, groups: nat, hd: nat, x: X,
                                        past: seq<Past>, rank: nat, world: nat)
    requires a.Fits(|past|, groups, hd) && rank < world
    ensures SameHeads(f, a, ShardAttention(a, |past|, groups, hd, rank, world), groups, hd, x, past,
                      Chunk(past, world, rank), Times(Cut(|past|, world, rank), groups))
  {
    ShardFits(a, |past|, groups, hd, rank, world);
    HeadBounds(|past|, groups, world, rank);
    forall j: nat | j < Times(|Chunk(past, world, rank)|, groups)
      ensures HeadOutput(f, ShardAttention(a, |past|, groups, hd, rank, world), groups, hd, x,
                         Chunk(past, world, rank), j)
              == HeadOutput(f, a, groups, hd, x, past, Times(Cut(|past|, world, rank), groups) + j)
    {
      ShardedHeadIsSame(f, a, groups, hd, x, past, rank, world, j);
    }
  }

  /** A rank's heads continue those of the ranks before it. */
  lemma {:induction false} ShardedHeadsContinue<X, Row, Past>(f: Functions<X, Row, Past>, a: Attention<Row>,
                                                              shard: Attention<Row>, groups: nat, hd: nat, x: X,
                                                              past: seq<Past>, local: seq<Past>, lo: nat, m: nat)
    requires SameHeads(f, a, shard, groups, hd, x, past, local, lo) && m <= Times(|local|, groups)
    ensures Attended(f, a, groups, hd, x, past, lo + m)
            == Attended(f, a, groups, hd, x, past, lo) + Attended(f, shard, groups, hd, x, local, m)
  {
    if m > 0 {
      ShardedHeadsContinue(f, a, shard, groups, hd, x, past, local, lo, m - 1);
      assert HeadOutput(f, shard, groups, hd, x, local, m - 1) == HeadOutput(f, a, groups, hd, x, past, lo + (m - 1));
    }
  }

  lemma {:induction false} AttendedPrefix<X, Row, Past>(f: Functions<X, Row, Past>, a: Attention<Row>, groups: nat,
                                                        hd: nat, x: X, past: seq<Past>, m: nat, m': nat)
    requires a.Fits(|past|, groups, hd) && m <= m' <= Times(|past|, groups)
    ensures Attended(f, a, groups, hd, x, past, m) <= Attended(f, a, groups, hd, x, past, m')
  {
    if m < m' { AttendedPrefix(f, a, groups, hd, x, past, m, m' - 1); }
  }

  lemma MiddleOf<T>(whole: seq<T>, upTo: seq<T>, before: seq<T>, part: seq<T>)
    requires upTo <= whole && upTo == before + part
    ensures part == whole[|before|..|upTo|]
  {
  }

  ghost predicate IsRange<T>(part: seq<T>, whole: seq<T>, from: nat, to: nat)
  {
    from <= to <= |whole| && part == whole[from..to]
  }

  lemma HeadsAreRange<X, Row, Past(!new)>(f: Functions<X, Row, Past>, a: Attention<Row>, shard: Attention<Row>,
                                          groups: nat, hd: nat, x: X, past: seq<Past>, local: seq<Past>, lo: nat)
    requires SameHeads(f, a, shard, groups, hd, x, past, local, lo) && HeadSized(f, hd)
    ensures IsRange(Attended(f, shard, groups, hd, x, local, Times(|local|, groups)),
                    Attended(f, a, groups, hd, x, past, Times(|past|, groups)), Times(lo, hd),
                    Times(lo + Times(|local|, groups), hd))
  {
    var hi := lo + Times(|local|, groups);
    ShardedHeadsContinue(f, a, shard, groups, hd, x, past, local, lo, hi - lo);
    AttendedSized(f, a, groups, hd, x, past, lo);
    AttendedSized(f, a, groups, hd, x, past, hi);
    AttendedPrefix(f, a, groups, hd, x, past, hi, Times(|past|, groups));
    MiddleOf(Attended(f, a, groups, hd, x, past, Times(|past|, groups)), Attended(f, a, groups, hd, x, past, hi),
             Attended(f, a, groups, hd, x, past, lo), Attended(f, shard, groups, hd, x, local, hi - lo));
    TimesMonotone(lo, hi, hd);
  }

  /** A rank's heads, one after the other, are its share of all heads. */
  lemma ShardedHeadsAreShare<X, Row, Past(!new)>(f: Functions<X, Row, Past>, a: Attention<Row>, groups: nat, hd: nat,
                                                 x: X, past: seq<Past>, rank: nat, world: nat)
    requires a.Fits(|past|, groups, hd) && HeadSized(f, hd) && rank < world
    ensures ShardAttention(a, |past|, groups, hd, rank, world).Fits(|Chunk(past, world, rank)|, groups, hd)
    ensures |Attended(f, a, groups, hd, x, past, Times(|past|, groups))| == Times(|past|, Times(groups, hd))
    ensures Attended(f, ShardAttention(a, |past|, groups, hd, rank, world), groups, hd, x, Chunk(past, world, rank),
                     Times(|Chunk(past, world, rank)|, groups))
            == Share(Attended(f, a, groups, hd, x, past, Times(|past|, groups)), |past|, Times(groups, hd), world, rank)
  {
    ShardFits(a, |past|, groups, hd, rank, world);
    AllAttendedSized(f, a, groups, hd, x, past);
    ShardHasSameHeads(f, a, groups, hd, x, past, rank, world);
    SameHeadsAreShare(f, a, ShardAttention(a, |past|, groups, hd, rank, world), groups, hd, x, past,
                      Chunk(past, world, rank), rank, world);
  }

  lemma SameHeadsAreShare<X, Row, Past(!new)>(f: Functions<X, Row, Past>, a: Attention<Row>, shard: Attention<Row>,
                                              groups: nat, hd: nat, x: X, past: seq<Past>, local: seq<Past>, rank: nat,
                                              world: nat)
    requires rank < world && SameHeads(f, a, shard, groups, hd, x, past, local,
                                       Times(Cut(|past|, world, rank), groups)) && HeadSized(f, hd)
    requires Cut(|past|, world, rank) <= Cut(|past|, world, rank + 1) <= |past|
    requires |local| == Cut(|past|, world, rank + 1) - Cut(|past|, world, rank)
    requires |Attended(f, a, groups, hd, x, past, Times(|past|, groups))| == Times(|past|, Times(groups, hd))
    ensures Attended(f, shard, groups, hd, x, local, Times(|local|, groups))
            == Share(Attended(f, a, groups, hd, x, past, Times(|past|, groups)), |past|, Times(groups, hd), world, rank)
  {
    HeadsAreRange(f, a, shard, groups, hd, x, past, local, Times(Cut(|past|, world, rank), groups));
    RangeIsShare(Attended(f, a, groups, hd, x, past, Times(|past|, groups)),
                 Attended(f, shard, groups, hd, x, local, Times(|local|, groups)), |past|, groups, hd, rank, world);
  }

  lemma RangeIsShare<T>(whole: seq<T>, part: seq<T>, n: nat, groups: nat, hd: nat, rank: nat, world: nat)
    requires rank < world && |whole| == Times(n, Times(groups, hd))
    requires Cut(n, world, rank) <= Cut(n, world, rank + 1) <= n
    requires var lo := Times(Cut(n, world, rank), groups);
             IsRange(part, whole, Times(lo, hd), Times(lo + Times(Cut(n, world, rank + 1) - Cut(n, world, rank),
                                                                  groups), hd))
    ensures part == Share(whole, n, Times(groups, hd), world, rank)
  {
    HeadBounds(n, groups, world, rank);
    TimesTwice(Cut(n, world, rank), groups, hd);
    TimesTwice(Cut(n, world, rank + 1), groups, hd);
  }

  /** Entry `i` of the ranks' outputs adds up to entry `i` of the unsharded attention's output, for every number of
      ranks and however unevenly the heads are split. */
  lemma ShardedAttentionIsWhole<X, Row, Past(!new)>(f: Functions<X, Row, Past>, a: Attention<Row>, groups: nat,
                                                    hd: nat, x: X, past: seq<Past>, world: nat, i: nat,
                                                    outputs: seq<real>)
    requires a.Fits(|past|, groups, hd) && HeadSized(f, hd) && i < |a.o| && |outputs| == world > 0
    requires forall r: nat | r < world :: IsRankOutput(f, a, groups, hd, x, past, r, world, i, outputs[r])
    ensures Total(outputs) == AttentionOutput(f, a, groups, hd, x, past, i)
  {
    var n, heads := |past|, Attended(f, a, groups, hd, x, past, Times(|past|, groups));
    AllAttendedSized(f, a, groups, hd, x, past);
    forall r: nat | r < world
      ensures outputs[r] == RankTerm(f, Share(a.o[i], n, Times(groups, hd), world, r),
                                     Share(heads, n, Times(groups, hd), world, r), a.bias[i], world)
    {
      assert IsRankOutput(f, a, groups, hd, x, past, r, world, i, outputs[r]);
      ShardedHeadsAreShare(f, a, groups, hd, x, past, r, world);
    }
    RowParallelSum(f, a.o[i], heads, a.bias[i], world, n, Times(groups, hd), outputs);
  }

  /** Entry `i` of what rank `r` computes from its shard and its heads' past. */
  ghost predicate IsRankOutput<X, Row, Past(!new)>(f: Functions<X, Row, Past>, a: Attention<Row>, groups: nat, hd: nat,
                                                   x: X, past: seq<Past>, r: nat, world: nat, i: nat, output: real)
    requires a.Fits(|past|, groups, hd) && HeadSized(f, hd) && i < |a.o| && r < world
  {
    ShardFits(a, |past|, groups, hd, r, world);
    output == AttentionOutput(f, ShardAttention(a, |past|, groups, hd, r, world), groups, hd, x, Chunk(past, world, r),
                              i)
  }
}
