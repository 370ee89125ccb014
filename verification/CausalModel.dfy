/**
 Transformer blocks as causal functions over a sequence of hidden states.

 `H` is the hidden state of all batch rows at one position, `C` what a block caches for one position. A block caches
 `kv(position, h)` and outputs `attend(h, entries up to and including the position's own)`. Both are arbitrary.
 */
module CausalModel {

  datatype Block<!H, !C> = Block(kv: (nat, H) -> C, attend: (H, seq<C>) -> H)

  /** What a block caches for the positions from `first` on. */
  function Entries<H, C>(b: Block<H, C>, first: nat, hs: seq<H>): (cs: seq<C>)
    ensures |cs| == |hs|
  {
    seq(|hs|, i requires 0 <= i < |hs| => b.kv(first + i, hs[i]))
  }

  /** One call of a block: `hs` follow the positions whose entries are `past`. */
  function Outputs<H, C>(b: Block<H, C>, past: seq<C>, hs: seq<H>): (out: seq<H>)
    ensures |out| == |hs|
  {
    seq(|hs|, i requires 0 <= i < |hs| => b.attend(hs[i], (past + Entries(b, |past|, hs))[..|past| + i + 1]))
  }

  /** Running a block over a whole sequence at once. */
  function RunBlock<H, C>(b: Block<H, C>, hs: seq<H>): (out: seq<H>)
    ensures |out| == |hs|
  {
    Outputs(b, [], hs)
  }

  function RunBlocks<H, C>(bs: seq<Block<H, C>>, hs: seq<H>): (out: seq<H>)
    ensures |out| == |hs|
  {
    if |bs| == 0 then hs else RunBlock(bs[|bs| - 1], RunBlocks(bs[..|bs| - 1], hs))
  }

  /** What goes into each block and out of it, and what the block caches, position by position: the block attends at a
      position to what it caches for this position and for everything before it. */
  ghost predicate Layers<H, C>(bs: seq<Block<H, C>>, layers: seq<seq<H>>, cached: seq<seq<C>>)
  {
    && |layers| == |bs| + 1 && |cached| == |bs|
    && (forall i | 0 <= i < |layers| :: |layers[i]| == |layers[0]|)
    && (forall i | 0 <= i < |bs| :: |cached[i]| == |layers[0]|)
    && (forall i, t | 0 <= i < |bs| && 0 <= t < |layers[0]| :: cached[i][t] == bs[i].kv(t, layers[i][t]))
    && (forall i, k, t | 0 <= i < k == i + 1 < |layers| && 0 <= t < |layers[0]| ::
          layers[k][t] == bs[i].attend(layers[i][t], cached[i][..t + 1]))
  }

  /** A run of all blocks is the end of the only layers from its input. */
  lemma {:induction false} LayersAreRun<H, C>(bs: seq<Block<H, C>>, layers: seq<seq<H>>, cached: seq<seq<C>>)
    requires Layers(bs, layers, cached)
    ensures RunBlocks(bs, layers[0]) == layers[|bs|]
  {
    var n := |bs| - 1;
    if n >= 0 {
      LayersAreRun(bs[..n], layers[..n + 1], cached[..n]);
      LayerIsOutput(bs, layers, cached, n, n + 1);
    }
  }

  lemma LayerIsOutput<H, C>(bs: seq<Block<H, C>>, layers: seq<seq<H>>, cached: seq<seq<C>>, i: nat, k: nat)
    requires Layers(bs, layers, cached) && i < k == i + 1 < |layers|
    ensures layers[k] == RunBlock(bs[i], layers[i])
  {
    assert cached[i] == [] + Entries(bs[i], 0, layers[i]);
  }

  lemma EntriesSplit<H, C>(b: Block<H, C>, first: nat, hs: seq<H>, xs: seq<H>)
    ensures Entries(b, first, hs + xs) == Entries(b, first, hs) + Entries(b, first + |hs|, xs)
  {
    assert forall i | 0 <= i < |xs| :: (hs + xs)[|hs| + i] == xs[i];
  }

  /** Splitting the input of a call into two calls, the second with the first one's entries, changes nothing. */
  lemma OutputsSplit<H, C>(b: Block<H, C>, past: seq<C>, hs: seq<H>, xs: seq<H>)
    ensures Outputs(b, past, hs + xs) == Outputs(b, past, hs) + Outputs(b, past + Entries(b, |past|, hs), xs)
  {
    var mid := past + Entries(b, |past|, hs);
    var all := past + Entries(b, |past|, hs + xs);
    EntriesSplit(b, |past|, hs, xs);
    assert all == mid + Entries(b, |mid|, xs);
    forall i | 0 <= i < |hs| ensures Outputs(b, past, hs + xs)[i] == Outputs(b, past, hs)[i] {
      assert all[..|past| + i + 1] == mid[..|past| + i + 1];
    }
    forall i | 0 <= i < |xs| ensures Outputs(b, past, hs + xs)[|hs| + i] == Outputs(b, mid, xs)[i] {
      assert (hs + xs)[|hs| + i] == xs[i];
    }
  }

  /** With the entries of `hs` cached, a step over `xs` yields the last outputs of a run over everything. */
  lemma CachedStep<H, C>(b: Block<H, C>, hs: seq<H>, xs: seq<H>)
    ensures RunBlock(b, hs + xs) == RunBlock(b, hs) + Outputs(b, Entries(b, 0, hs), xs)
    ensures Entries(b, 0, hs + xs) == Entries(b, 0, hs) + Entries(b, |hs|, xs)
  {
    OutputsSplit(b, [], hs, xs);
    EntriesSplit(b, 0, hs, xs);
    assert [] + Entries(b, 0, hs) == Entries(b, 0, hs);
  }

  /** Later positions do not influence earlier ones. */
  lemma {:induction false} Causality<H, C>(bs: seq<Block<H, C>>, hs: seq<H>, xs: seq<H>)
    ensures RunBlocks(bs, hs) <= RunBlocks(bs, hs + xs)
  {
    if |bs| > 0 {
      var before, all := RunBlocks(bs[..|bs| - 1], hs), RunBlocks(bs[..|bs| - 1], hs + xs);
      Causality(bs[..|bs| - 1], hs, xs);
      CachedStep(bs[|bs| - 1], before, all[|hs|..]);
      assert all == before + all[|hs|..];
    }
  }

  lemma PrefixRun<H, C>(bs: seq<Block<H, C>>, hs: seq<H>, n: nat)
    requires n <= |hs|
    ensures RunBlocks(bs, hs)[..n] == RunBlocks(bs, hs[..n])
  {
    Causality(bs, hs[..n], hs[n..]);
    assert hs == hs[..n] + hs[n..];
  }

  /** Running two groups of blocks one after the other is running them all. */
  lemma {:induction false} RunInTwoParts<H, C>(first: seq<Block<H, C>>, second: seq<Block<H, C>>, hs: seq<H>)
    ensures RunBlocks(first + second, hs) == RunBlocks(second, RunBlocks(first, hs))
  {
    if |second| == 0 {
      assert first + second == first;
    } else {
      var n := |second| - 1;
      assert (first + second)[..|first| + n] == first + second[..n];
      assert (first + second)[|first| + n] == second[n];
      RunInTwoParts(first, second[..n], hs);
    }
  }
}
