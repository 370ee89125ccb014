/**
 Forward and backward over a large batch, cut into batches of a bounded number of tokens that go their own ways.

 A batch is a sequence of rows; the blocks treat every row by itself.
 */
module BatchSplitting {
  import opened ChainRule
  import opened SequentialAutograd
  import opened Failures
  import opened Wrappers

  const MAX_TOKENS_IN_BATCH := 1024

  type BatchChain<!X, !P, !G, Q> = Chain<seq<X>, seq<P>, seq<G>, seq<Q>>

  /** Rows [a, b) of all prompts. */
  function PromptRows<P>(prompts: Option<seq<seq<P>>>, rows: nat, a: nat, b: nat): Option<seq<seq<P>>>
    requires a <= b <= rows && (prompts.Some? ==> forall l | 0 <= l < |prompts.value| :: |prompts.value[l]| == rows)
  {
    if prompts.None? then None
    else Some(seq(|prompts.value|, l requires 0 <= l < |prompts.value| => prompts.value[l][a..b]))
  }

  ghost predicate Fits<X, P, G, Q>(c: BatchChain<X, P, G, Q>, rows: nat)
  {
    c.Valid() && (c.prompts.Some? ==> forall l | 0 <= l < |c.prompts.value| :: |c.prompts.value[l]| == rows)
  }

  function Rows<X, P, G, Q>(c: BatchChain<X, P, G, Q>, rows: nat, a: nat, b: nat): BatchChain<X, P, G, Q>
    requires a <= b <= rows && Fits(c, rows)
  {
    c.(prompts := PromptRows(c.prompts, rows, a, b))
  }

  /** The blocks keep the number of rows, and what they do to rows [a, b) depends on these rows alone. */
  ghost predicate RowWise<X(!new), P(!new), G(!new), Q(!new)>(c: BatchChain<X, P, G, Q>)
  {
    && (forall i, x | 0 <= i < |c.blocks| :: |c.blocks[i].forward(x)| == |x|)
    && (forall i, x, a, b | 0 <= i < |c.blocks| && 0 <= a <= b <= |x| ::
        c.blocks[i].forward(x)[a..b] == c.blocks[i].forward(x[a..b]))
    && (forall x, p | |x| == |p| :: |c.add(x, p)| == |x|)
    && (forall x, p, a, b | 0 <= a <= b <= |x| == |p| :: c.add(x, p)[a..b] == c.add(x[a..b], p[a..b]))
    && (forall i, x, g | 0 <= i < |c.blocks| && |x| == |g| :: |c.blocks[i].vjp(x, g)| == |g|)
    && (forall i, x, g, a, b | 0 <= i < |c.blocks| && 0 <= a <= b <= |x| == |g| ::
          c.blocks[i].vjp(x, g)[a..b] == c.blocks[i].vjp(x[a..b], g[a..b]))
    && (forall g, p | |g| == |p| :: |c.cut(g, p)| == |g|)
    && (forall g, p, a, b | 0 <= a <= b <= |g| == |p| :: c.cut(g, p)[a..b] == c.cut(g[a..b], p[a..b]))
  }

  lemma PromptedRows<X(!new), P(!new), G(!new), Q(!new)>(c: BatchChain<X, P, G, Q>, i: nat, x: seq<X>, a: nat, b: nat)
    requires RowWise(c) && Fits(c, |x|) && i < |c.blocks| && a <= b <= |x|
    ensures |c.Prompted(i, x)| == |x| && c.Prompted(i, x)[a..b] == Rows(c, |x|, a, b).Prompted(i, x[a..b])
  {
  }

  lemma {:induction false} RunRows<X(!new), P(!new), G(!new), Q(!new)>(c: BatchChain<X, P, G, Q>, lo: nat, hi: nat,
                                                                       x: seq<X>, a: nat, b: nat)
    requires RowWise(c) && Fits(c, |x|) && lo <= hi <= |c.blocks| && a <= b <= |x|
    ensures |c.Run(lo, hi, x)| == |x| && c.Run(lo, hi, x)[a..b] == Rows(c, |x|, a, b).Run(lo, hi, x[a..b])
    decreases hi
  {
    if lo < hi {
      RunRows(c, lo, hi - 1, x, a, b);
      PromptedRows(c, hi - 1, c.Run(lo, hi - 1, x), a, b);
    }
  }

  lemma InputGradientRows<X(!new), P(!new), G(!new), Q(!new)>(c: BatchChain<X, P, G, Q>, i: nat, x: seq<X>, g: seq<G>,
                                                              a: nat, b: nat)
    requires RowWise(c) && Fits(c, |x|) && i < |c.blocks| && a <= b <= |x| == |g|
    ensures |c.InputGradient(i, x, g)| == |g|
    ensures c.InputGradient(i, x, g)[a..b] == Rows(c, |x|, a, b).InputGradient(i, x[a..b], g[a..b])
  {
    PromptedRows(c, i, x, a, b);
  }

  lemma {:induction false} GradientRows<X(!new), P(!new), G(!new), Q(!new)>(c: BatchChain<X, P, G, Q>, lo: nat,
                                                                            hi: nat, x: seq<X>, g: seq<G>, a: nat,
                                                                            b: nat)
    requires RowWise(c) && Fits(c, |x|) && lo <= hi <= |c.blocks| && a <= b <= |x| == |g|
    ensures |c.Gradient(lo, hi, x, g)| == |g|
    ensures c.Gradient(lo, hi, x, g)[a..b] == Rows(c, |x|, a, b).Gradient(lo, hi, x[a..b], g[a..b])
    decreases hi
  {
    if lo < hi {
      RunRows(c, lo, hi - 1, x, a, b);
      var x' := c.Run(lo, hi - 1, x);
      InputGradientRows(c, hi - 1, x', g, a, b);
      GradientRows(c, lo, hi - 1, x, c.InputGradient(hi - 1, x', g), a, b);
    }
  }

  /** Every slice of `part` has rows [a, b) of the slice of `whole`, which has `rows` rows. */
  ghost predicate RowsOfSlices<Q>(whole: seq<seq<Q>>, part: seq<seq<Q>>, rows: nat, a: nat, b: nat)
    requires a <= b <= rows
  {
    |part| == |whole| && forall l | 0 <= l < |whole| :: |whole[l]| == rows && part[l] == whole[l][a..b]
  }

  lemma {:induction false} PromptGradientRows<X(!new), P(!new), G(!new), Q(!new)>(c: BatchChain<X, P, G, Q>, lo: nat,
                                                                                  hi: nat, x: seq<X>, g: seq<G>,
                                                                                  a: nat, b: nat)
    requires RowWise(c) && Fits(c, |x|) && c.prompts.Some? && lo <= hi <= |c.blocks| && a <= b <= |x| == |g|
    ensures RowsOfSlices(c.PromptGradients(lo, hi, x, g), Rows(c, |x|, a, b).PromptGradients(lo, hi, x[a..b], g[a..b]),
                         |x|, a, b)
    decreases hi
  {
    if lo < hi {
      var before := BeforeLastRows(c, lo, hi, x, g, a, b);
      PromptGradientRows(c, lo, hi - 1, x, before, a, b);
      LastSliceRows(c, Rows(c, |x|, a, b), lo, hi, x, g, a, b, before);
    }
  }

  /** The gradient before the last block, and the last slice. */
  lemma BeforeLastRows<X(!new), P(!new), G(!new), Q(!new)>(c: BatchChain<X, P, G, Q>, lo: nat, hi: nat, x: seq<X>,
                                                           g: seq<G>, a: nat, b: nat)
    returns (before: seq<G>)
    requires RowWise(c) && Fits(c, |x|) && c.prompts.Some? && lo < hi <= |c.blocks| && a <= b <= |x| == |g|
    ensures before == c.InputGradient(hi - 1, c.Run(lo, hi - 1, x), g) && |before| == |x|
    ensures BeforeLast(c, Rows(c, |x|, a, b), lo, hi, x, g, a, b, before)
  {
    RunRows(c, lo, hi - 1, x, a, b);
    before := c.InputGradient(hi - 1, c.Run(lo, hi - 1, x), g);
    InputGradientRows(c, hi - 1, c.Run(lo, hi - 1, x), g, a, b);
    SliceRows(c, hi - 1, before, a, b);
  }

  ghost predicate BeforeLast<X, P, G, Q>(c: BatchChain<X, P, G, Q>, part: BatchChain<X, P, G, Q>, lo: nat, hi: nat,
                                         x: seq<X>, g: seq<G>, a: nat, b: nat, before: seq<G>)
  {
    && c.Valid() && part.Valid() && c.prompts.Some? && part.prompts.Some? && |part.blocks| == |c.blocks|
    && lo < hi <= |c.blocks| && a <= b <= |x| == |g| == |before|
    && before == c.InputGradient(hi - 1, c.Run(lo, hi - 1, x), g)
    && before[a..b] == part.InputGradient(hi - 1, part.Run(lo, hi - 1, x[a..b]), g[a..b])
    && var slice := c.cut(before, c.prompts.value[hi - 1]);
      |slice| == |x| && slice[a..b] == part.cut(before[a..b], part.prompts.value[hi - 1])
  }

  /** What holds of the slices before the last one, and of the last one, holds of all. */
  lemma LastSliceRows<X, P, G, Q>(c: BatchChain<X, P, G, Q>, part: BatchChain<X, P, G, Q>, lo: nat, hi: nat, x: seq<X>,
                                  g: seq<G>, a: nat, b: nat, before: seq<G>)
    requires BeforeLast(c, part, lo, hi, x, g, a, b, before)
    requires RowsOfSlices(c.PromptGradients(lo, hi - 1, x, before),
                          part.PromptGradients(lo, hi - 1, x[a..b], before[a..b]), |x|, a, b)
    ensures RowsOfSlices(c.PromptGradients(lo, hi, x, g), part.PromptGradients(lo, hi, x[a..b], g[a..b]), |x|, a, b)
  {
    LastSlice(c, lo, hi, x, g, before);
    LastSlice(part, lo, hi, x[a..b], g[a..b], before[a..b]);
    RowsOfSlicesNext(c.PromptGradients(lo, hi - 1, x, before), part.PromptGradients(lo, hi - 1, x[a..b], before[a..b]),
                     c.cut(before, c.prompts.value[hi - 1]), |x|, a, b);
  }

  lemma RowsOfSlicesNext<Q>(whole: seq<seq<Q>>, part: seq<seq<Q>>, slice: seq<Q>, rows: nat, a: nat, b: nat)
    requires a <= b <= rows == |slice| && RowsOfSlices(whole, part, rows, a, b)
    ensures RowsOfSlices(whole + [slice], part + [slice[a..b]], rows, a, b)
  {
  }

  lemma SliceRows<X(!new), P(!new), G(!new), Q(!new)>(c: BatchChain<X, P, G, Q>, i: nat, g: seq<G>, a: nat, b: nat)
    requires RowWise(c) && Fits(c, |g|) && c.prompts.Some? && i < |c.blocks| && a <= b <= |g|
    ensures |c.cut(g, c.prompts.value[i])| == |g|
    ensures c.cut(g, c.prompts.value[i])[a..b] == c.cut(g[a..b], Rows(c, |g|, a, b).prompts.value[i])
  {
  }

  // ----- the batches -----

  /** Batches of `size` rows; the last one may be smaller. Without rows there is one empty batch. */
  function Batches(at: nat, rows: nat, size: nat): (ranges: seq<(nat, nat)>)
    requires at <= rows && size > 0
    decreases rows - at
  {
    if rows - at <= size then [(at, rows)] else [(at, at + size)] + Batches(at + size, rows, size)
  }

  lemma {:induction false} BatchesCover(at: nat, rows: nat, size: nat, k: nat)
    requires at <= rows && size > 0 && k < |Batches(at, rows, size)|
    ensures var ranges := Batches(at, rows, size);
            && at <= ranges[k].0 <= ranges[k].1 <= rows && ranges[k].1 - ranges[k].0 <= size
            && (at < rows ==> ranges[k].0 < ranges[k].1)
            && ranges[0].0 == at && (k + 1 < |ranges| ==> ranges[k + 1].0 == ranges[k].1)
            && (k + 1 == |ranges| ==> ranges[k].1 == rows)
    decreases rows - at
  {
    var ranges := Batches(at, rows, size);
    if k > 0 {
      BatchesCover(at + size, rows, size, k - 1);
    } else if |ranges| > 1 {
      BatchesCover(at + size, rows, size, 0);
    }
  }

  function BatchSize(seqLength: nat): (size: nat)
    requires seqLength > 0
    ensures size > 0
  {
    if MAX_TOKENS_IN_BATCH / seqLength >= 1 then MAX_TOKENS_IN_BATCH / seqLength else 1
  }

  /** No batch has more tokens than the bound, unless a single row has, and none is smaller than it has to be. */
  lemma BatchTokens(seqLength: nat, rows: nat, k: nat)
    requires seqLength > 0 && k < |Batches(0, rows, BatchSize(seqLength))|
    ensures var range := Batches(0, rows, BatchSize(seqLength))[k];
            range.0 <= range.1 && (rows > 0 ==> range.0 < range.1)
            && ((range.1 - range.0) * seqLength <= 1024 || range.1 - range.0 == 1)
    ensures var ranges := Batches(0, rows, BatchSize(seqLength));
            k + 1 < |ranges| ==> (ranges[k].1 - ranges[k].0 + 1) * seqLength > 1024
  {
    var size := BatchSize(seqLength);
    BatchesCover(0, rows, size, k);
    var range := Batches(0, rows, size)[k];
    TokensInRows(range.1 - range.0, size, seqLength);
    if k + 1 < |Batches(0, rows, size)| {
      FullBatch(0, rows, size, k);
      OneRowMore(size, seqLength);
    }
  }

  lemma {:induction false} FullBatch(at: nat, rows: nat, size: nat, k: nat)
    requires at <= rows && size > 0 && k + 1 < |Batches(at, rows, size)|
    ensures Batches(at, rows, size)[k].1 == Batches(at, rows, size)[k].0 + size
    decreases rows - at
  {
    if k > 0 { FullBatch(at + size, rows, size, k - 1); }
  }

  lemma OneRowMore(size: nat, seqLength: nat)
    requires seqLength > 0 && size == BatchSize(seqLength)
    ensures (size + 1) * seqLength > 1024
  {
    var rows := MAX_TOKENS_IN_BATCH / seqLength;
    assert (rows + 1) * seqLength > MAX_TOKENS_IN_BATCH;
    assert (size + 1) * seqLength >= (rows + 1) * seqLength;
  }

  lemma TokensInRows(n: nat, size: nat, seqLength: nat)
    requires seqLength > 0 && n <= size == BatchSize(seqLength)
    ensures n * seqLength <= MAX_TOKENS_IN_BATCH || n == 1
  {
    if MAX_TOKENS_IN_BATCH / seqLength >= 1 {
      assert n * seqLength <= size * seqLength;
      assert (MAX_TOKENS_IN_BATCH / seqLength) * seqLength <= MAX_TOKENS_IN_BATCH;
    }
  }

  /** The records that the forward pass of every batch leaves for its backward pass. */
  ghost predicate BatchesRecorded<X, P, G, Q>(c: BatchChain<X, P, G, Q>, x: seq<X>, ranges: seq<(nat, nat)>,
                                              records: seq<Forwarded<seq<X>>>)
  {
    |records| <= |ranges| && forall k | 0 <= k < |records| :: BatchRecorded(c, x, ranges[k], records[k])
  }

  ghost predicate BatchRecorded<X, P, G, Q>(c: BatchChain<X, P, G, Q>, x: seq<X>, range: (nat, nat),
                                            record: Forwarded<seq<X>>)
  {
    Fits(c, |x|) && range.0 <= range.1 <= |x|
    && Recorded(Rows(c, |x|, range.0, range.1), 0, |c.blocks|, x[range.0..range.1], record.inputs, record.spans)
  }

  method ForwardBatch<X(!new), P(!new), G(!new), Q(!new)>(c: BatchChain<X, P, G, Q>, x: seq<X>, a: nat, b: nat,
                                                          maxRetries: Option<nat>, schedule: seq<Event>)
    returns (r: Option<Forwarded<seq<X>>>)
    requires RowWise(c) && Fits(c, |x|) && a <= b <= |x|
    ensures r.Some? ==> |c.Run(0, |c.blocks|, x)| == |x| && r.value.output == c.Run(0, |c.blocks|, x)[a..b]
    ensures r.Some? ==> BatchRecorded(c, x, (a, b), r.value)
    ensures FailureFree(schedule, 0, 0, |c.blocks|) ==> r.Some?
  {
    ghost var times;
    var now;
    r, now, times := SequentialForward(Rows(c, |x|, a, b), x[a..b], 0, |c.blocks|, maxRetries, schedule, 0);
    RunRows(c, 0, |c.blocks|, x, a, b);
  }

  method BackwardBatch<X(!new), P(!new), G(!new), Q(!new)>(c: BatchChain<X, P, G, Q>, g: seq<G>, a: nat, b: nat,
                                                           record: Forwarded<seq<X>>, maxRetries: Option<nat>,
                                                           schedule: seq<Event>, ghost x: seq<X>)
    returns (r: Option<(seq<G>, Option<seq<seq<Q>>>)>)
    requires RowWise(c) && Fits(c, |x|) && |x| == |g| && a <= b <= |x| && BatchRecorded(c, x, (a, b), record)
    ensures |record.spans| <= |schedule| && AllAnswer(schedule) ==> r.Some?
    ensures r.Some? ==> |c.Gradient(0, |c.blocks|, x, g)| == |g| && r.value.0 == c.Gradient(0, |c.blocks|, x, g)[a..b]
    ensures r.Some? ==> (r.value.1.Some? <==> c.prompts.Some? && |c.blocks| > 0)
    ensures r.Some? && r.value.1.Some? ==> RowsOfSlices(c.PromptGradients(0, |c.blocks|, x, g), r.value.1.value, |g|,
                                                        a, b)
  {
    ghost var visits;
    var result, now;
    result, now, visits := SequentialBackward(Rows(c, |g|, a, b), g[a..b], record.inputs, record.spans, maxRetries,
                                          schedule, 0, 0, |c.blocks|, x[a..b]);
    GradientRows(c, 0, |c.blocks|, x, g, a, b);
    if c.prompts.Some? { PromptGradientRows(c, 0, |c.blocks|, x, g, a, b); }
    r := result;
  }

  lemma RecordsNext<X, P, G, Q>(c: BatchChain<X, P, G, Q>, x: seq<X>, ranges: seq<(nat, nat)>,
                                records: seq<Forwarded<seq<X>>>, record: Forwarded<seq<X>>)
    requires BatchesRecorded(c, x, ranges, records) && |records| < |ranges|
    requires BatchRecorded(c, x, (ranges[|records|].0, ranges[|records|].1), record)
    ensures BatchesRecorded(c, x, ranges, records + [record])
  {
    var records' := records + [record];
    forall k | 0 <= k < |records'| ensures BatchRecorded(c, x, ranges[k], records'[k]) {
      if k < |records| { assert BatchRecorded(c, x, ranges[k], records[k]); }
    }
  }

  lemma JoinNext<T>(whole: seq<T>, joined: seq<T>, part: seq<T>, a: nat, b: nat)
    requires a <= b <= |whole| && joined == whole[..a] && part == whole[a..b]
    ensures joined + part == whole[..b]
  {
  }

  /** The forward passes of all batches, each under its own schedule, put together. */
  method ForwardInBatches<X(!new), P(!new), G(!new), Q(!new)>(c: BatchChain<X, P, G, Q>, x: seq<X>, seqLength: nat,
                                                              maxRetries: Option<nat>, schedules: nat -> seq<Event>)
    returns (output: Option<seq<X>>, records: seq<Forwarded<seq<X>>>)
    requires RowWise(c) && Fits(c, |x|) && seqLength > 0
    ensures (forall k: nat :: FailureFree(schedules(k), 0, 0, |c.blocks|)) ==> output.Some?
    ensures output.Some? ==> output.value == c.Run(0, |c.blocks|, x)
    ensures output.Some? ==>
              |records| == |Batches(0, |x|, BatchSize(seqLength))|
              && BatchesRecorded(c, x, Batches(0, |x|, BatchSize(seqLength)), records)
  {
    var ranges := Batches(0, |x|, BatchSize(seqLength));
    var joined: seq<X> := [];
    records := [];
    ghost var whole := c.Run(0, |c.blocks|, x);
    BatchesCover(0, |x|, BatchSize(seqLength), 0);
    RunRows(c, 0, |c.blocks|, x, 0, 0);
    for k := 0 to |ranges|
      invariant |joined| == (if k < |ranges| then ranges[k].0 else |x|) <= |x| && joined == whole[..|joined|]
      invariant |records| == k && BatchesRecorded(c, x, ranges, records)
    {
      BatchesCover(0, |x|, BatchSize(seqLength), k);
      var a, b := ranges[k].0, ranges[k].1;
      var r := ForwardBatch(c, x, a, b, maxRetries, schedules(k));
      if r.None? { return None, records; }
      JoinNext(whole, joined, r.value.output, a, b);
      RecordsNext(c, x, ranges, records, r.value);
      joined, records := joined + r.value.output, records + [r.value];
    }
    output := Some(joined);
  }

  /** Joins the rows of every slice. */
  function JoinSlices<Q>(first: seq<seq<Q>>, second: seq<seq<Q>>): (joined: seq<seq<Q>>)
    requires |first| == |second|
    ensures |joined| == |first|
  {
    seq(|first|, l requires 0 <= l < |first| => first[l] + second[l])
  }

  lemma JoinSlicesNext<Q>(whole: seq<seq<Q>>, joined: seq<seq<Q>>, part: seq<seq<Q>>, rows: nat, a: nat, b: nat)
    requires a <= b <= rows && RowsOfSlices(whole, joined, rows, 0, a) && RowsOfSlices(whole, part, rows, a, b)
    ensures RowsOfSlices(whole, JoinSlices(joined, part), rows, 0, b)
  {
    forall l | 0 <= l < |whole| { JoinNext(whole[l], joined[l], part[l], a, b); }
  }

  lemma AllRowsOfSlices<Q>(whole: seq<seq<Q>>, joined: seq<seq<Q>>, rows: nat)
    requires RowsOfSlices(whole, joined, rows, 0, rows)
    ensures joined == whole
  {
    forall l | 0 <= l < |whole| ensures joined[l] == whole[l] {
      assert whole[l][0..rows] == whole[l];
    }
  }

  /** Rows up to `|joined|` of the gradients; when batches have been `added`, `anyDummy` tells that there are no
      prompts. */
  ghost predicate Joined<X, P, G, Q>(c: BatchChain<X, P, G, Q>, x: seq<X>, g: seq<G>, joined: seq<G>,
                                     slices: seq<seq<Q>>, anyDummy: bool, added: bool)
  {
    && c.Valid() && |joined| <= |g| == |c.Gradient(0, |c.blocks|, x, g)|
    && joined == c.Gradient(0, |c.blocks|, x, g)[..|joined|]
    && |slices| == |c.blocks| && (anyDummy <==> added && (c.prompts.None? || |c.blocks| == 0))
    && (c.prompts.Some? ==> RowsOfSlices(c.PromptGradients(0, |c.blocks|, x, g), slices, |g|, 0, |joined|))
  }

  lemma NothingJoined<X(!new), P(!new), G(!new), Q(!new)>(c: BatchChain<X, P, G, Q>, x: seq<X>, g: seq<G>)
    requires RowWise(c) && Fits(c, |x|) && |x| == |g|
    ensures Joined(c, x, g, [], seq(|c.blocks|, _ => []), false, false)
  {
    GradientRows(c, 0, |c.blocks|, x, g, 0, 0);
    if c.prompts.Some? { PromptGradientRows(c, 0, |c.blocks|, x, g, 0, 0); }
  }

  lemma AllJoined<X, P, G, Q>(c: BatchChain<X, P, G, Q>, x: seq<X>, g: seq<G>, joined: seq<G>, slices: seq<seq<Q>>,
                              anyDummy: bool)
    requires Joined(c, x, g, joined, slices, anyDummy, true) && |joined| == |g|
    ensures joined == c.Gradient(0, |c.blocks|, x, g)
    ensures anyDummy <==> c.prompts.None? || |c.blocks| == 0
    ensures !anyDummy ==> slices == c.PromptGradients(0, |c.blocks|, x, g)
  {
    if !anyDummy { AllRowsOfSlices(c.PromptGradients(0, |c.blocks|, x, g), slices, |g|); }
  }

  /** The backward pass of one more batch, joined to what there is. */
  method AddBatch<X(!new), P(!new), G(!new), Q(!new)>(c: BatchChain<X, P, G, Q>, g: seq<G>, record: Forwarded<seq<X>>,
                                                      b: nat, maxRetries: Option<nat>, schedule: seq<Event>,
                                                      joined: seq<G>, slices: seq<seq<Q>>, anyDummy: bool,
                                                      ghost x: seq<X>, ghost added: bool)
    returns (ok: bool, joined': seq<G>, slices': seq<seq<Q>>, anyDummy': bool)
    requires RowWise(c) && Fits(c, |x|) && |x| == |g| && Joined(c, x, g, joined, slices, anyDummy, added)
    requires |joined| <= b <= |x| && BatchRecorded(c, x, (|joined|, b), record)
    ensures |record.spans| <= |schedule| && AllAnswer(schedule) ==> ok
    ensures ok ==> Joined(c, x, g, joined', slices', anyDummy', true) && |joined'| == b
  {
    joined', slices', anyDummy' := joined, slices, anyDummy;
    var batch := BackwardBatch(c, g, |joined|, b, record, maxRetries, schedule, x);
    ok := batch.Some?;
    if ok {
      JoinNext(c.Gradient(0, |c.blocks|, x, g), joined, batch.value.0, |joined|, b);
      joined' := joined + batch.value.0;
      if batch.value.1.None? {
        anyDummy' := true;
      } else {
        JoinSlicesNext(c.PromptGradients(0, |c.blocks|, x, g), slices, batch.value.1.value, |g|, |joined|, b);
        slices' := JoinSlices(slices, batch.value.1.value);
      }
    }
  }

  /** The backward passes of all batches, put together: the rows of the input gradients, and for every block the rows of
      its prompt gradients. */
  method BackwardInBatches<X(!new), P(!new), G(!new), Q(!new)>(c: BatchChain<X, P, G, Q>, g: seq<G>,
                                                               records: seq<Forwarded<seq<X>>>, seqLength: nat,
                                                               maxRetries: Option<nat>, schedules: nat -> seq<Event>,
                                                               ghost x: seq<X>)
    returns (r: Option<(seq<G>, Option<seq<seq<Q>>>)>)
    requires RowWise(c) && Fits(c, |x|) && |x| == |g| && seqLength > 0
    requires |records| == |Batches(0, |x|, BatchSize(seqLength))|
             && BatchesRecorded(c, x, Batches(0, |x|, BatchSize(seqLength)), records)
    ensures (forall k | 0 <= k < |records| :: |records[k].spans| <= |schedules(k)| && AllAnswer(schedules(k))) ==>
              r.Some?
    ensures r.Some? ==> r.value.0 == c.Gradient(0, |c.blocks|, x, g)
    ensures r.Some? ==>
              r.value.1 == if c.prompts.Some? && |c.blocks| > 0 then Some(c.PromptGradients(0, |c.blocks|, x, g))
                  else None
  {
    var ranges := Batches(0, |g|, BatchSize(seqLength));
    var joined: seq<G>, slices: seq<seq<Q>>, anyDummy := [], seq(|c.blocks|, _ => []), false;
    BatchesCover(0, |g|, BatchSize(seqLength), 0);
    NothingJoined(c, x, g);
    for k := 0 to |ranges|
      invariant |joined| == if k < |ranges| then ranges[k].0 else |g|
      invariant Joined(c, x, g, joined, slices, anyDummy, k > 0)
    {
      BatchesCover(0, |g|, BatchSize(seqLength), k);
      assert BatchRecorded(c, x, ranges[k], records[k]);
      var ok;
      ok, joined, slices, anyDummy := AddBatch(c, g, records[k], ranges[k].1, maxRetries, schedules(k), joined, slices,
                                               anyDummy, x, k > 0);
      if !ok { return None; }
    }
    AllJoined(c, x, g, joined, slices, anyDummy);
    r := Some((joined, if anyDummy then None else Some(slices)));
  }
}
