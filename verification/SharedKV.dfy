/**
 Keys and values that one block (the donor of a layer type) leaves for later blocks, also when these run on other
 servers: a server returns what its blocks produced, the client collects it and seeds the next server with it.

 Layer types are numbered in the order of their names. `T` is a key or value tensor. What a block computes from its
 input and from the shared entries is arbitrary.
 */
module SharedKV {
  import opened FiniteSets
  import opened SpanTilings
  import opened Wrappers

  type Shared<T> = map<nat, (T, T)>

  // ----- names and tensors on the wire -----

  /** [k0, v0, k1, v1, ...] for the given names. */
  function Tensors<T>(shared: Shared<T>, names: seq<nat>): (tensors: seq<T>)
    requires forall x | x in names :: x in shared
    ensures |tensors| == 2 * |names|
  {
    if |names| == 0 then [] else [shared[names[0]].0, shared[names[0]].1] + Tensors(shared, names[1..])
  }

  function FlattenShared<T>(shared: Shared<T>): (seq<nat>, seq<T>)
  {
    InOrderHasAll(shared.Keys);
    (InOrder(shared.Keys), Tensors(shared, InOrder(shared.Keys)))
  }

  /** Pairs the names with the tensors again; fails when their numbers do not match. */
  function UnflattenShared<T>(names: seq<nat>, tensors: seq<T>): Option<Shared<T>>
  {
    if |tensors| != 2 * |names| then None
    else if |names| == 0 then Some(map[])
    else
      var rest := UnflattenShared(names[1..], tensors[2..]);
      if rest.None? then None else Some(map[names[0] := (tensors[0], tensors[1])] + rest.value)
  }

  lemma {:induction false} UnflattenTensors<T>(shared: Shared<T>, names: seq<nat>)
    requires forall x | x in names :: x in shared
    ensures var r := UnflattenShared(names, Tensors(shared, names));
            r.Some? && (forall x :: x in r.value <==> x in names) && forall x | x in r.value :: r.value[x] == shared[x]
  {
    if |names| > 0 {
      UnflattenTensors(shared, names[1..]);
      assert Tensors(shared, names)[2..] == Tensors(shared, names[1..]);
    }
  }

  /** What is flattened at one end is restored at the other. */
  lemma FlattenRoundTrip<T>(shared: Shared<T>)
    ensures UnflattenShared(FlattenShared(shared).0, FlattenShared(shared).1) == Some(shared)
  {
    InOrderHasAll(shared.Keys);
    UnflattenTensors(shared, InOrder(shared.Keys));
    assert UnflattenShared(FlattenShared(shared).0, FlattenShared(shared).1).value == shared;
  }

  // ----- blocks -----

  /** `donors` are the layer types whose entries the block writes. */
  datatype Block<!H, !T(==)> = Block(donors: set<nat>, run: (H, Shared<T>) -> H, produce: (H, Shared<T>, nat) -> (T, T))

  /** The block's entries, written over those that are there. */
  function Written<H, T>(b: Block<H, T>, h: H, shared: Shared<T>): Shared<T>
  {
    shared + map t | t in b.donors :: b.produce(h, shared, t)
  }

  /** Blocks that share one dictionary. */
  function RunMerged<H, T>(blocks: seq<Block<H, T>>, h: H, shared: Shared<T>): (H, Shared<T>)
  {
    if |blocks| == 0 then (h, shared)
    else
      var before, last := RunMerged(blocks[..|blocks| - 1], h, shared), blocks[|blocks| - 1];
      (last.run(before.0, before.1), Written(last, before.0, before.1))
  }

  /** What goes into each block and out of it: `hs` the activations, `dicts` the shared entries. A block reads the
      entries as the blocks before it left them, and writes its own over those of its types. */
  ghost predicate Trace<H, T>(blocks: seq<Block<H, T>>, hs: seq<H>, dicts: seq<Shared<T>>)
  {
    && |hs| == |dicts| == |blocks| + 1
    && forall i, k | 0 <= i < k == i + 1 < |hs| ::
         && hs[k] == blocks[i].run(hs[i], dicts[i])
         && (forall t :: t in dicts[k] <==> t in dicts[i] || t in blocks[i].donors)
         && forall t | t in dicts[k] ::
              dicts[k][t] == if t in blocks[i].donors then blocks[i].produce(hs[i], dicts[i], t) else dicts[i][t]
  }

  /** One server's result is the end of the only trace from its input. */
  lemma {:induction false} MergedIsTrace<H, T>(blocks: seq<Block<H, T>>, hs: seq<H>, dicts: seq<Shared<T>>)
    requires Trace(blocks, hs, dicts)
    ensures RunMerged(blocks, hs[0], dicts[0]) == (hs[|blocks|], dicts[|blocks|])
  {
    var n := |blocks| - 1;
    if n >= 0 {
      MergedIsTrace(blocks[..n], hs[..n + 1], dicts[..n + 1]);
      TraceNext(blocks, hs, dicts, n);
    }
  }

  lemma TraceNext<H, T>(blocks: seq<Block<H, T>>, hs: seq<H>, dicts: seq<Shared<T>>, i: nat)
    requires Trace(blocks, hs, dicts) && i < |blocks|
    ensures hs[i + 1] == blocks[i].run(hs[i], dicts[i]) && dicts[i + 1] == Written(blocks[i], hs[i], dicts[i])
  {
    assert forall k | k == i + 1 :: hs[k] == blocks[i].run(hs[i], dicts[i]);
    SameEntries(dicts[i + 1], Written(blocks[i], hs[i], dicts[i]));
  }

  /** A block finds what the last donor before it wrote. */
  lemma {:induction false} FindsEarlierDonor<H, T>(blocks: seq<Block<H, T>>, hs: seq<H>, dicts: seq<Shared<T>>, j: nat,
                                                   i: nat, t: nat)
    requires Trace(blocks, hs, dicts) && j < i <= |blocks| && t in blocks[j].donors
    requires forall k | j < k < i :: t !in blocks[k].donors
    ensures t in dicts[i] && dicts[i][t] == blocks[j].produce(hs[j], dicts[j], t)
    decreases i
  {
    TraceNext(blocks, hs, dicts, i - 1);
    if j < i - 1 {
      FindsEarlierDonor(blocks, hs, dicts, j, i - 1, t);
    }
  }

  function DonorsOf<H, T>(blocks: seq<Block<H, T>>): set<nat>
  {
    if |blocks| == 0 then {} else DonorsOf(blocks[..|blocks| - 1]) + blocks[|blocks| - 1].donors
  }

  /** Every layer type has at most one donor. */
  ghost predicate OneDonorEach<H, T>(blocks: seq<Block<H, T>>)
  {
    forall i, j | 0 <= i < j < |blocks| :: blocks[i].donors !! blocks[j].donors
  }

  lemma {:induction false} MergedWritesDonors<H, T>(blocks: seq<Block<H, T>>, h: H, shared: Shared<T>)
    ensures RunMerged(blocks, h, shared).1.Keys == shared.Keys + DonorsOf(blocks)
    ensures forall k | k in shared && k !in DonorsOf(blocks) :: RunMerged(blocks, h, shared).1[k] == shared[k]
  {
    if |blocks| > 0 {
      MergedWritesDonors(blocks[..|blocks| - 1], h, shared);
    }
  }

  lemma {:induction false} MergedInTwoParts<H, T>(first: seq<Block<H, T>>, second: seq<Block<H, T>>, h: H,
                                                  shared: Shared<T>)
    ensures RunMerged(first + second, h, shared) == RunMerged(second, RunMerged(first, h, shared).0,
                                                              RunMerged(first, h, shared).1)
  {
    if |second| == 0 {
      assert first + second == first;
    } else {
      var n := |second| - 1;
      MergedInTwoParts(first, second[..n], h, shared);
      assert (first + second)[..|first| + n] == first + second[..n];
      assert (first + second)[|first| + n] == second[n];
    }
  }

  lemma {:induction false} MergedDonors<H, T>(first: seq<Block<H, T>>, second: seq<Block<H, T>>)
    ensures DonorsOf(first + second) == DonorsOf(first) + DonorsOf(second)
  {
    if |second| == 0 {
      assert first + second == first;
    } else {
      var n := |second| - 1;
      MergedDonors(first, second[..n]);
      assert (first + second)[..|first| + n] == first + second[..n];
      assert (first + second)[|first| + n] == second[n];
    }
  }

  lemma {:induction false} DonorIsOfABlock<H, T>(blocks: seq<Block<H, T>>, t: nat)
    requires t in DonorsOf(blocks)
    ensures exists i :: 0 <= i < |blocks| && t in blocks[i].donors
  {
    var n := |blocks| - 1;
    if t !in blocks[n].donors {
      DonorIsOfABlock(blocks[..n], t);
      var i :| 0 <= i < n && t in blocks[..n][i].donors;
      assert t in blocks[i].donors;
    }
  }

  lemma PartsHaveDifferentDonors<H, T>(blocks: seq<Block<H, T>>, a: nat, b: nat, c: nat, d: nat)
    requires OneDonorEach(blocks) && a <= b <= c <= d <= |blocks|
    ensures DonorsOf(blocks[a..b]) !! DonorsOf(blocks[c..d])
  {
    forall t, u | t in DonorsOf(blocks[a..b]) && u in DonorsOf(blocks[c..d]) ensures t != u {
      DonorIsOfABlock(blocks[a..b], t);
      var i :| 0 <= i < b - a && t in blocks[a..b][i].donors;
      DonorIsOfABlock(blocks[c..d], u);
      var j :| 0 <= j < d - c && u in blocks[c..d][j].donors;
      assert blocks[a + i].donors !! blocks[c + j].donors;
    }
  }

  // ----- one server, and the client's chain of servers -----

  /** The merged step: the blocks run over one dictionary, and what is new in it goes out as plain tensors, in name
      order. */
  method MergedStep<H, T>(blocks: seq<Block<H, T>>, h: H, seed: Shared<T>) returns (hidden: H, produced: seq<T>)
    ensures var r := RunMerged(blocks, h, seed);
            && hidden == r.0 && (forall x | x in InOrder(r.1.Keys - seed.Keys) :: x in r.1)
            && produced == Tensors(r.1, InOrder(r.1.Keys - seed.Keys))
  {
    var shared := seed;
    hidden := h;
    for i := 0 to |blocks|
      invariant (hidden, shared) == RunMerged(blocks[..i], h, seed)
    {
      assert blocks[..i + 1][..i] == blocks[..i];
      hidden, shared := blocks[i].run(hidden, shared), Written(blocks[i], hidden, shared);
    }
    assert blocks[..|blocks|] == blocks;
    InOrderHasAll(shared.Keys - seed.Keys);
    produced := Tensors(shared, InOrder(shared.Keys - seed.Keys));
  }

  /** The donor types in name order are the names of the new tensors, in their order. */
  lemma NamesPair<T>(shared: Shared<T>, seed: Shared<T>, donors: set<nat>)
    requires shared.Keys == seed.Keys + donors
    ensures shared.Keys - seed.Keys == donors - seed.Keys
    ensures forall x | x in InOrder(donors - seed.Keys) :: x in shared
    ensures UnflattenShared(InOrder(donors - seed.Keys), Tensors(shared, InOrder(donors - seed.Keys)))
            == Some(shared - seed.Keys)
  {
    var types := InOrder(donors - seed.Keys);
    InOrderHasAll(donors - seed.Keys);
    UnflattenTensors(shared, types);
    SameEntries(UnflattenShared(types, Tensors(shared, types)).value, shared - seed.Keys);
  }

  lemma SameEntries<T>(a: Shared<T>, b: Shared<T>)
    requires (forall x :: x in a <==> x in b) && forall x | x in a :: a[x] == b[x]
    ensures a == b
  {
  }

  /** The server pairs the tensors with the donor types of its blocks that it was not given. */
  method ServeSpan<H, T>(blocks: seq<Block<H, T>>, h: H, names: seq<nat>, tensors: seq<T>, ghost seed: Shared<T>)
    returns (hidden: H, names': seq<nat>, tensors': seq<T>)
    requires UnflattenShared(names, tensors) == Some(seed)
    ensures var r := RunMerged(blocks, h, seed);
            hidden == r.0 && UnflattenShared(names', tensors') == Some(r.1 - seed.Keys)
  {
    var seeded := UnflattenShared(names, tensors).value;
    var produced;
    hidden, produced := MergedStep(blocks, h, seeded);
    var types := InOrder(DonorsOf(blocks) - seeded.Keys);
    MergedWritesDonors(blocks, h, seeded);
    NamesPair(RunMerged(blocks, h, seeded).1, seeded, DonorsOf(blocks));
    var pairs := UnflattenShared(types, produced);
    FlattenRoundTrip(pairs.value);
    var flat := FlattenShared(pairs.value);
    names', tensors' := flat.0, flat.1;
  }

  /** What is collected stays; of what a server returns only the new types are added. */
  function Collect<T>(have: Shared<T>, served: Shared<T>): (all: Shared<T>)
    ensures all.Keys == have.Keys + served.Keys
    ensures forall x | x in have :: all[x] == have[x]
    ensures forall x | x in served && x !in have :: all[x] == served[x]
  {
    have + (served - have.Keys)
  }

  /** What the client holds after the given spans: each server runs its blocks over what was collected before it, and of
      its entries only the new ones are added. */
  function Across<H, T>(blocks: seq<Block<H, T>>, spans: seq<Span>, h: H): (H, Shared<T>)
    requires forall i | 0 <= i < |spans| :: spans[i].start <= spans[i].end <= |blocks|
  {
    if |spans| == 0 then (h, map[])
    else
      var before, last := Across(blocks, spans[..|spans| - 1], h), spans[|spans| - 1];
      var served := RunMerged(blocks[last.start..last.end], before.0, before.1);
      (served.0, Collect(before.1, served.1))
  }

  /** No layer type has donors on two servers. */
  ghost predicate SpansApart<H, T>(blocks: seq<Block<H, T>>, spans: seq<Span>)
  {
    && (forall i | 0 <= i < |spans| :: spans[i].start <= spans[i].end <= |blocks|)
    && forall i, j | 0 <= i < j < |spans| ::
      DonorsOf(blocks[spans[i].start..spans[i].end]) !! DonorsOf(blocks[spans[j].start..spans[j].end])
  }

  /** The client visits one server after another. When no layer type has donors on two of them, it ends up with the
      output and the entries of one server that holds all blocks. */
  method InferAcross<H, T>(blocks: seq<Block<H, T>>, spans: seq<Span>, h: H) returns (hidden: H, accumulated: Shared<T>)
    requires Tiles(spans, 0, |blocks|)
    ensures forall i | 0 <= i < |spans| :: spans[i].start <= spans[i].end <= |blocks|
    ensures (hidden, accumulated) == Across(blocks, spans, h)
    ensures SpansApart(blocks, spans) ==> (hidden, accumulated) == RunMerged(blocks, h, map[])
  {
    TilesInside(spans, 0, |blocks|);
    hidden, accumulated := h, map[];
    for i := 0 to |spans|
      invariant (hidden, accumulated) == Across(blocks, spans[..i], h)
    {
      var flat := FlattenShared(accumulated);
      FlattenRoundTrip(accumulated);
      var names, tensors;
      hidden, names, tensors := ServeSpan(blocks[spans[i].start..spans[i].end], hidden, flat.0, flat.1, accumulated);
      accumulated := accumulated + UnflattenShared(names, tensors).value;
      assert spans[..i + 1][..i] == spans[..i];
    }
    assert spans[..|spans|] == spans && blocks[..|blocks|] == blocks;
    if SpansApart(blocks, spans) {
      AcrossIsMerged(blocks, spans, |blocks|, h);
    }
  }

  // ----- when the spread of the blocks over servers makes no difference -----

  lemma {:induction false} DonorIsInASpan<H, T>(blocks: seq<Block<H, T>>, spans: seq<Span>, end: nat, t: nat)
    requires Tiles(spans, 0, end) && end <= |blocks| && t in DonorsOf(blocks[..end])
    requires forall i | 0 <= i < |spans| :: spans[i].start <= spans[i].end <= |blocks|
    ensures exists i :: 0 <= i < |spans| && t in DonorsOf(blocks[spans[i].start..spans[i].end])
  {
    if |spans| > 0 {
      var n := |spans| - 1;
      var start := spans[n].start;
      MergedDonors(blocks[..start], blocks[start..end]);
      assert blocks[..start] + blocks[start..end] == blocks[..end];
      if t in DonorsOf(blocks[..start]) {
        DonorIsInASpan(blocks, spans[..n], start, t);
        var i :| 0 <= i < n && t in DonorsOf(blocks[spans[..n][i].start..spans[..n][i].end]);
        assert spans[..n][i] == spans[i];
      }
    }
  }

  lemma {:induction false} AcrossIsMerged<H, T>(blocks: seq<Block<H, T>>, spans: seq<Span>, end: nat, h: H)
    requires Tiles(spans, 0, end) && end <= |blocks|
    requires SpansApart(blocks, spans)
    ensures Across(blocks, spans, h) == RunMerged(blocks[..end], h, map[])
  {
    if |spans| > 0 {
      var n := |spans| - 1;
      var start := spans[n].start;
      EarlierSpansApart(blocks, spans, n);
      AcrossIsMerged(blocks, spans[..n], start, h);
      forall t | t in DonorsOf(blocks[..start]) ensures t !in DonorsOf(blocks[start..end]) {
        DonorIsInASpan(blocks, spans[..n], start, t);
        var i :| 0 <= i < n && t in DonorsOf(blocks[spans[..n][i].start..spans[..n][i].end]);
        assert spans[..n][i] == spans[i];
      }
      AccumulatedIsShared(blocks, start, end, h);
    }
  }

  lemma EarlierSpansApart<H, T>(blocks: seq<Block<H, T>>, spans: seq<Span>, n: nat)
    requires n <= |spans| && SpansApart(blocks, spans)
    ensures SpansApart(blocks, spans[..n])
  {
  }

  /** What the client has collected after a span is what the shared dictionary of one server would hold. */
  lemma AccumulatedIsShared<H, T>(blocks: seq<Block<H, T>>, start: nat, end: nat, h: H)
    requires start <= end <= |blocks| && DonorsOf(blocks[..start]) !! DonorsOf(blocks[start..end])
    ensures var before := RunMerged(blocks[..start], h, map[]);
            var served := RunMerged(blocks[start..end], before.0, before.1);
            (served.0, Collect(before.1, served.1)) == RunMerged(blocks[..end], h, map[])
  {
    var before := RunMerged(blocks[..start], h, map[]);
    MergedInTwoParts(blocks[..start], blocks[start..end], h, map[]);
    assert blocks[..start] + blocks[start..end] == blocks[..end];
    MergedWritesDonors(blocks[..start], h, map[]);
    MergedWritesDonors(blocks[start..end], before.0, before.1);
    AddingTheRest(before.1, RunMerged(blocks[start..end], before.0, before.1).1);
  }

  lemma AddingTheRest<T>(part: Shared<T>, all: Shared<T>)
    requires part.Keys <= all.Keys && forall x | x in part :: all[x] == part[x]
    ensures Collect(part, all) == all
  {
  }

  /** With one donor for every type, as the code assumes of a whole model, the condition holds of every spread. */
  lemma OneDonorKeepsSpansApart<H, T>(blocks: seq<Block<H, T>>, spans: seq<Span>)
    requires OneDonorEach(blocks) && Tiles(spans, 0, |blocks|)
    ensures SpansApart(blocks, spans)
  {
    TilesInside(spans, 0, |blocks|);
    forall i, j | 0 <= i < j < |spans|
      ensures DonorsOf(blocks[spans[i].start..spans[i].end]) !! DonorsOf(blocks[spans[j].start..spans[j].end])
    {
      TilesInside(spans[..j], 0, spans[j].start);
      assert spans[..j][i] == spans[i];
      PartsHaveDifferentDonors(blocks, spans[i].start, spans[i].end, spans[j].start, spans[j].end);
    }
  }

  /** One block on each server. */
  function OnePerServer(n: nat): (spans: seq<Span>)
  {
    seq(n, i requires 0 <= i < n => Span(i, i, i + 1))
  }

  lemma {:induction false} OnePerServerTiles(n: nat)
    ensures Tiles(OnePerServer(n), 0, n)
  {
    if n > 0 {
      OnePerServerTiles(n - 1);
      assert OnePerServer(n)[..n - 1] == OnePerServer(n - 1);
    }
  }

  lemma DonorsOfOne<H, T>(blocks: seq<Block<H, T>>, i: nat)
    requires i < |blocks|
    ensures DonorsOf(blocks[i..i + 1]) == blocks[i].donors
  {
    assert blocks[i..i + 1][..0] == [];
  }

  lemma SharedTypeIsNotApart<H, T>(blocks: seq<Block<H, T>>, i: nat, j: nat)
    requires i < j < |blocks| && !(blocks[i].donors !! blocks[j].donors)
    ensures !SpansApart(blocks, OnePerServer(|blocks|))
  {
    var spans := OnePerServer(|blocks|);
    DonorsOfOne(blocks, i);
    DonorsOfOne(blocks, j);
    assert spans[i] == Span(i, i, i + 1) && spans[j] == Span(j, j, j + 1);
  }

  /** One donor for every type is exactly what it takes to be independent of every spread. */
  lemma EverySpreadApartIffOneDonor<H, T>(blocks: seq<Block<H, T>>)
    ensures OneDonorEach(blocks) <==> forall spans | Tiles(spans, 0, |blocks|) :: SpansApart(blocks, spans)
  {
    if OneDonorEach(blocks) {
      forall spans | Tiles(spans, 0, |blocks|) ensures SpansApart(blocks, spans) {
        OneDonorKeepsSpansApart(blocks, spans);
      }
    } else {
      var i, j :| 0 <= i < j < |blocks| && !(blocks[i].donors !! blocks[j].donors);
      SharedTypeIsNotApart(blocks, i, j);
      OnePerServerTiles(|blocks|);
    }
  }

  // ----- when it does -----

  /** Blocks with the donors of the given ones that leave their own number for every type. */
  ghost function Numbered(shape: seq<Block<int, int>>): (blocks: seq<Block<int, int>>)
    ensures |blocks| == |shape| && forall k | 0 <= k < |shape| :: blocks[k].donors == shape[k].donors
  {
    seq(|shape|, k requires 0 <= k < |shape| => Block(shape[k].donors, (h: int, s: Shared<int>) => h,
                                                      (h: int, s: Shared<int>, t: nat) => (k, k)))
  }

  ghost predicate SameDonors(blocks: seq<Block<int, int>>, shape: seq<Block<int, int>>)
  {
    |blocks| == |shape| && forall k | 0 <= k < |shape| :: blocks[k].donors == shape[k].donors
  }

  lemma {:induction false} SameDonorsOf(blocks: seq<Block<int, int>>, shape: seq<Block<int, int>>)
    requires SameDonors(blocks, shape)
    ensures DonorsOf(blocks) == DonorsOf(shape)
  {
    if |shape| > 0 {
      SameDonorsOf(blocks[..|shape| - 1], shape[..|shape| - 1]);
    }
  }

  /** Where one of the blocks [from, to) is a donor, the number left is that of one of them. */
  lemma {:induction false} NumberIsOfADonor(shape: seq<Block<int, int>>, from: nat, to: nat, h: int,
                                            shared: Shared<int>, t: nat)
    requires from <= to <= |shape| && t in DonorsOf(Numbered(shape)[from..to])
    ensures var r := RunMerged(Numbered(shape)[from..to], h, shared).1;
            t in r && from <= r[t].0 < to
  {
    var part, n := Numbered(shape)[from..to], to - from - 1;
    MergedWritesDonors(part, h, shared);
    assert part[..n] == Numbered(shape)[from..to - 1] && part[n] == Numbered(shape)[to - 1];
    if t !in part[n].donors {
      NumberIsOfADonor(shape, from, to - 1, h, shared, t);
    }
  }

  ghost predicate LeftBefore(shared: Shared<int>, end: nat)
  {
    forall t | t in shared :: shared[t].0 < end
  }

  lemma CollectEarlier(shape: seq<Block<int, int>>, start: nat, end: nat, h: int, have: Shared<int>)
    requires start <= end <= |shape| && LeftBefore(have, start)
    ensures LeftBefore(Collect(have, RunMerged(Numbered(shape)[start..end], h, have).1), end)
  {
    var served := RunMerged(Numbered(shape)[start..end], h, have).1;
    MergedWritesDonors(Numbered(shape)[start..end], h, have);
    forall t | t in served && t !in have ensures served[t].0 < end {
      NumberIsOfADonor(shape, start, end, h, have, t);
    }
  }

  /** The entries the client collected are from blocks before `end`. */
  lemma {:induction false} CollectedAreEarlier(shape: seq<Block<int, int>>, spans: seq<Span>, end: nat, h: int)
    requires Tiles(spans, 0, end) && end <= |shape|
    requires forall i | 0 <= i < |spans| :: spans[i].start <= spans[i].end <= |shape|
    ensures LeftBefore(Across(Numbered(shape), spans, h).1, end)
  {
    if |spans| > 0 {
      var n := |spans| - 1;
      CollectedAreEarlier(shape, spans[..n], spans[n].start, h);
      var before := Across(Numbered(shape), spans[..n], h);
      CollectEarlier(shape, spans[n].start, end, before.0, before.1);
    }
  }

  ghost predicate Extends<T>(more: Shared<T>, shared: Shared<T>)
  {
    forall t | t in shared :: t in more && more[t] == shared[t]
  }

  /** An entry that the client has it keeps, whatever later servers send. */
  lemma {:induction false} FirstEntryStays<H, T>(blocks: seq<Block<H, T>>, spans: seq<Span>, j: nat, h: H)
    requires j <= |spans| && forall i | 0 <= i < |spans| :: spans[i].start <= spans[i].end <= |blocks|
    ensures Extends(Across(blocks, spans, h).1, Across(blocks, spans[..j], h).1)
  {
    if j == |spans| {
      assert spans[..j] == spans;
    } else {
      var n := |spans| - 1;
      FirstEntryStays(blocks, spans[..n], j, h);
      assert spans[..n][..j] == spans[..j];
      assert Extends(Across(blocks, spans, h).1, Across(blocks, spans[..n], h).1);
    }
  }

  lemma DonatedIsCollected<H, T>(blocks: seq<Block<H, T>>, spans: seq<Span>, i: nat, h: H, t: nat)
    requires i < |spans| && forall i | 0 <= i < |spans| :: spans[i].start <= spans[i].end <= |blocks|
    requires t in DonorsOf(blocks[spans[i].start..spans[i].end])
    ensures t in Across(blocks, spans, h).1
  {
    var upTo := spans[..i + 1];
    assert upTo[..i] == spans[..i] && upTo[i] == spans[i];
    var before := Across(blocks, spans[..i], h);
    MergedWritesDonors(blocks[spans[i].start..spans[i].end], before.0, before.1);
    FirstEntryStays(blocks, spans, i + 1, h);
  }

  /** What the client has of a type that a server before the j-th one donates is from a block before the j-th
      server's. */
  lemma ClientKeepsTheFirst(shape: seq<Block<int, int>>, spans: seq<Span>, i: nat, j: nat, t: nat, h: int)
    requires Tiles(spans, 0, |shape|) && i < j < |spans|
    requires forall i | 0 <= i < |spans| :: spans[i].start <= spans[i].end <= |shape|
    requires t in DonorsOf(shape[spans[i].start..spans[i].end])
    ensures var r := Across(Numbered(shape), spans, h).1; t in r && r[t].0 < spans[j].start
  {
    var blocks := Numbered(shape);
    SameDonorsOf(blocks[spans[i].start..spans[i].end], shape[spans[i].start..spans[i].end]);
    TilesInside(spans, 0, |shape|);
    assert spans[..j][i] == spans[i];
    DonatedIsCollected(blocks, spans[..j], i, h, t);
    CollectedAreEarlier(shape, spans[..j], spans[j].start, h);
    FirstEntryStays(blocks, spans, j, h);
  }

  lemma DonorsOfLonger<H, T>(blocks: seq<Block<H, T>>, start: nat, end: nat)
    requires start <= end <= |blocks|
    ensures DonorsOf(blocks[start..end]) <= DonorsOf(blocks[start..])
  {
    MergedDonors(blocks[start..end], blocks[end..]);
    assert blocks[start..end] + blocks[end..] == blocks[start..];
  }

  lemma MergedFrom<H, T>(blocks: seq<Block<H, T>>, start: nat, h: H, shared: Shared<T>)
    requires start <= |blocks|
    ensures var before := RunMerged(blocks[..start], h, shared);
            RunMerged(blocks, h, shared) == RunMerged(blocks[start..], before.0, before.1)
  {
    MergedInTwoParts(blocks[..start], blocks[start..], h, shared);
    assert blocks[..start] + blocks[start..] == blocks;
  }

  /** One server with all blocks has, of a type that the blocks [start, end) donate, the entry of one of these or a
      later one. */
  lemma OneServerKeepsTheLast(shape: seq<Block<int, int>>, start: nat, end: nat, t: nat, h: int)
    requires start <= end <= |shape| && t in DonorsOf(shape[start..end])
    ensures var r := RunMerged(Numbered(shape), h, map[]).1; t in r && start <= r[t].0
  {
    DonorsOfLonger(shape, start, end);
    SameDonorsOf(Numbered(shape)[start..], shape[start..]);
    assert Numbered(shape)[start..|shape|] == Numbered(shape)[start..];
    MergedFrom(Numbered(shape), start, h, map[]);
    var before := RunMerged(Numbered(shape)[..start], h, map[]);
    NumberIsOfADonor(shape, start, |shape|, before.0, before.1, t);
  }

  /** Where two servers have a donor of one type, the client keeps the entries of the first and one server with all
      blocks those of the last: with numbered blocks they differ. */
  lemma SharedDonorDiffers(shape: seq<Block<int, int>>, spans: seq<Span>, i: nat, j: nat, t: nat, h: int)
    requires Tiles(spans, 0, |shape|) && i < j < |spans|
    requires forall i | 0 <= i < |spans| :: spans[i].start <= spans[i].end <= |shape|
    requires t in DonorsOf(shape[spans[i].start..spans[i].end]) && t in DonorsOf(shape[spans[j].start..spans[j].end])
    ensures Across(Numbered(shape), spans, h) != RunMerged(Numbered(shape), h, map[])
  {
    ClientKeepsTheFirst(shape, spans, i, j, t, h);
    OneServerKeepsTheLast(shape, spans[j].start, spans[j].end, t, h);
  }

  lemma ApartSpansAgree(shape: seq<Block<int, int>>, spans: seq<Span>, blocks: seq<Block<int, int>>, h: int)
    requires Tiles(spans, 0, |shape|) && SpansApart(shape, spans) && SameDonors(blocks, shape)
    ensures Across(blocks, spans, h) == RunMerged(blocks, h, map[])
  {
    SameDonorsStayApart(blocks, shape, spans);
    AcrossIsMerged(blocks, spans, |shape|, h);
    assert blocks[..|shape|] == blocks;
  }

  lemma OverlappingSpansDiffer(shape: seq<Block<int, int>>, spans: seq<Span>, h: int)
    requires Tiles(spans, 0, |shape|) && forall i | 0 <= i < |spans| :: spans[i].start <= spans[i].end <= |shape|
    requires !SpansApart(shape, spans)
    ensures SameDonors(Numbered(shape), shape)
    ensures Across(Numbered(shape), spans, h) != RunMerged(Numbered(shape), h, map[])
  {
    var i, j :| 0 <= i < j < |spans|
             && !(DonorsOf(shape[spans[i].start..spans[i].end]) !! DonorsOf(shape[spans[j].start..spans[j].end]));
    var t :| t in DonorsOf(shape[spans[i].start..spans[i].end])
             && t in DonorsOf(shape[spans[j].start..spans[j].end]);
    SharedDonorDiffers(shape, spans, i, j, t, h);
  }

  /** For given donors and a given spread: it makes no difference for any blocks with these donors exactly when no layer
      type has donors on two servers. */
  lemma AcrossIsMergedIffApart(shape: seq<Block<int, int>>, spans: seq<Span>)
    requires Tiles(spans, 0, |shape|)
    ensures forall i | 0 <= i < |spans| :: spans[i].start <= spans[i].end <= |shape|
    ensures SpansApart(shape, spans)
       <==> forall blocks, h | SameDonors(blocks, shape) :: Across(blocks, spans, h) == RunMerged(blocks, h, map[])
  {
    TilesInside(spans, 0, |shape|);
    if SpansApart(shape, spans) {
      forall blocks, h | SameDonors(blocks, shape) ensures Across(blocks, spans, h) == RunMerged(blocks, h, map[]) {
        ApartSpansAgree(shape, spans, blocks, h);
      }
    } else {
      OverlappingSpansDiffer(shape, spans, 0);
    }
  }

  lemma SameDonorsStayApart(blocks: seq<Block<int, int>>, shape: seq<Block<int, int>>, spans: seq<Span>)
    requires SameDonors(blocks, shape) && SpansApart(shape, spans)
    ensures SpansApart(blocks, spans)
  {
    forall i | 0 <= i < |spans|
      ensures DonorsOf(blocks[spans[i].start..spans[i].end]) == DonorsOf(shape[spans[i].start..spans[i].end])
    {
      SameDonorsOf(blocks[spans[i].start..spans[i].end], shape[spans[i].start..spans[i].end]);
    }
  }
}
