/**
 Cached inference with rollback: the server loop over one span of blocks, the client's session with that server, and the
 client's session over a chain of servers.
 */
module InferenceSession {
  import opened CausalModel
  import opened PageContents
  import opened SpanTilings
  import opened Wrappers

  datatype Error = LengthExceeded | BrokenCache | PositionsDiffer | PositionAhead

  /** Feeds a long input to a block in chunks; each chunk attends to everything before it. */
  method ForwardChunked<H, C>(b: Block<H, C>, past: seq<C>, hs: seq<H>, maxChunk: nat)
    returns (out: seq<H>, entries: seq<C>)
    requires maxChunk >= 1 && |hs| > 0
    ensures out == Outputs(b, past, hs) && entries == past + Entries(b, |past|, hs)
  {
    out, entries := [], past;
    var offset := 0;
    while offset < |hs|
      invariant 0 <= offset <= |hs|
      invariant out == Outputs(b, past, hs[..offset]) && entries == past + Entries(b, |past|, hs[..offset])
    {
      var end := if offset + maxChunk <= |hs| then offset + maxChunk else |hs|;
      var chunk := hs[offset..end];
      OutputsSplit(b, past, hs[..offset], chunk);
      EntriesSplit(b, |past|, hs[..offset], chunk);
      assert hs[..offset] + chunk == hs[..end];
      out, entries := out + Outputs(b, entries, chunk), entries + Entries(b, |entries|, chunk);
      offset := end;
    }
    assert hs[..|hs|] == hs;
  }

  /** The caches of a span hold, for every position of `hs`, the entries of a run over `hs`; later entries may be
      stale. */
  ghost predicate CachesHold<H, C>(blocks: seq<Block<H, C>>, caches: seq<seq<C>>, hs: seq<H>)
  {
    |caches| == |blocks| && forall j | 0 <= j < |blocks| :: CacheHolds(blocks, caches[j], hs, j)
  }

  ghost predicate CacheHolds<H, C>(blocks: seq<Block<H, C>>, cache: seq<C>, hs: seq<H>, j: nat)
    requires j < |blocks|
  {
    Entries(blocks[j], 0, RunBlocks(blocks[..j], hs)) <= cache
  }

  lemma CachesHoldPrefix<H, C>(blocks: seq<Block<H, C>>, caches: seq<seq<C>>, hs: seq<H>, n: nat)
    requires CachesHold(blocks, caches, hs) && n <= |hs|
    ensures CachesHold(blocks, caches, hs[..n])
  {
    forall j | 0 <= j < |blocks| ensures CacheHolds(blocks, caches[j], hs[..n], j) {
      assert CacheHolds(blocks, caches[j], hs, j);
      PrefixRun(blocks[..j], hs, n);
      var all := RunBlocks(blocks[..j], hs);
      assert Entries(blocks[j], 0, all[..n]) == Entries(blocks[j], 0, all)[..n];
    }
  }

  /** One block's step: its outputs and its cache afterwards. */
  lemma BlockStep<H, C>(blocks: seq<Block<H, C>>, cache: seq<C>, hs: seq<H>, xs: seq<H>, j: nat)
    requires j < |blocks| && CacheHolds(blocks, cache, hs, j)
    ensures var ys := RunBlocks(blocks[..j], hs + xs)[|hs|..];
            var past := cache[..|hs|];
            var entries := past + Entries(blocks[j], |hs|, ys);
            && Outputs(blocks[j], past, ys) == RunBlocks(blocks[..j + 1], hs + xs)[|hs|..]
            && |entries| == |hs| + |xs|
            && CacheHolds(blocks, AfterWrite(cache, entries, |hs|, |hs| + |xs|), hs + xs, j)
  {
    var before, all := RunBlocks(blocks[..j], hs), RunBlocks(blocks[..j], hs + xs);
    var ys := all[|hs|..];
    Causality(blocks[..j], hs, xs);
    assert all == before + ys;
    CachedStep(blocks[j], before, ys);
    assert blocks[..j + 1][..j] == blocks[..j];
    assert cache[..|hs|] == Entries(blocks[j], 0, before);
  }

  /** How many positions a block gets at once, so that the attention matrices of a sequence of `length` positions
      fit. */
  function MaxChunk(budget: nat, length: nat): (n: nat)
    requires length > 0
    ensures n >= 1
  {
    if budget / length >= 1 then budget / length else 1
  }

  /** It is the most that the budget allows for, and at least one. */
  lemma ChunkUsesBudget(budget: nat, length: nat)
    requires length > 0
    ensures MaxChunk(budget, length) * length <= budget || MaxChunk(budget, length) == 1
    ensures (MaxChunk(budget, length) + 1) * length > budget
  {
    var n := budget / length;
    assert n * length <= budget < (n + 1) * length;
  }

  /** One span of blocks on one server: the client's session with it and the server's side of that session. */
  class ServerSession<!H, !C> {
    const span: Span
    const blocks: seq<Block<H, C>>
    const maxLength: nat
    const chunkBudget: nat

    // the client's side
    var position: nat
    var history: Option<seq<H>>
    var stepped: bool

    // the server's side
    var prefixLength: nat
    var caches: seq<seq<C>>

    /** Both sides are in step, and `hs` are the inputs that are still part of the sequence. */
    ghost predicate Holds(hs: seq<H>)
      reads this
    {
      && position == |hs| && position <= prefixLength <= maxLength
      && (match history case None => hs == [] case Some(h) => h == hs)
      && (!stepped ==> hs == [])
      && CachesHold(blocks, caches, hs)
    }

    /** This is the session of span `span` of the model `all`. */
    ghost predicate Serves(all: seq<Block<H, C>>, span: Span, maxLength: nat)
    {
      this.span == span && span.start <= span.end <= |all| && blocks == all[span.start..span.end]
      && this.maxLength == maxLength
    }

    constructor (all: seq<Block<H, C>>, span: Span, maxLength: nat, chunkBudget: nat)
      requires span.start <= span.end <= |all|
      ensures Serves(all, span, maxLength) && Holds([]) && position == prefixLength == 0 && history.None? && !stepped
    {
      this.span, this.blocks, this.maxLength, this.chunkBudget := span, all[span.start..span.end], maxLength,
          chunkBudget;
      position, history, stepped := 0, None, false;
      prefixLength, caches := 0, seq(span.end - span.start, _ => []);
    }

    /** Rolls the client's side back; the server hears of it with the next step. */
    method SetPosition(from: nat, ghost hs: seq<H>) returns (ok: bool)
      requires Holds(hs)
      modifies this
      ensures ok <==> from <= |hs|
      ensures if ok then Holds(hs[..from]) else Holds(hs) && unchanged(this)
    {
      if from > position { return false; }
      position, ok := from, true;
      if history.Some? && |history.value| >= from {
        history := if from > 0 then Some(history.value[..from]) else None;
      }
      CachesHoldPrefix(blocks, caches, hs, from);
      assert hs[..from] == [] || stepped;
    }

    /** Sends `xs` to the server, and the whole history with the first step. */
    method Step(xs: seq<H>, ghost hs: seq<H>) returns (r: Result<seq<H>, Error>)
      requires Holds(hs)
      modifies this
      ensures r.Ok? <==> |hs| + |xs| <= maxLength
      ensures r.Ok? ==> Holds(hs + xs) && prefixLength == position && history == Some(hs + xs)
      ensures r.Ok? ==> r.value == RunBlocks(blocks, hs + xs)[|hs|..]
      ensures r.Err? ==> r.error == LengthExceeded && position == prefixLength == |hs| && caches == old(caches)
      ensures r.Err? ==> history == Some(hs + xs)
    {
      if history.None? {
        history := Some(xs);
      } else if |history.value| == position {
        history := Some(history.value + xs);
      }
      assert history.value == hs + xs;
      if |history.value| != position + |xs| { return Err(BrokenCache); }
      var inputs := if stepped then xs else history.value;
      assert inputs == xs;
      stepped := true;
      r := Serve(position, inputs, hs);
      if r.Err? { return; }
      position := position + |xs|;
    }

    /** The server's side of a step. It cannot go ahead of what its caches hold. */
    method Serve(startFromPosition: nat, xs: seq<H>, ghost hs: seq<H>) returns (r: Result<seq<H>, Error>)
      requires startFromPosition <= prefixLength ==> startFromPosition == |hs| && CachesHold(blocks, caches, hs)
      modifies `prefixLength, `caches
      ensures startFromPosition > old(prefixLength) ==> r == Err(PositionAhead) && unchanged(this)
      ensures startFromPosition <= old(prefixLength) ==> (r.Ok? <==> |hs| + |xs| <= maxLength)
      ensures r.Ok? ==> CachesHold(blocks, caches, hs + xs) && prefixLength == |hs| + |xs|
      ensures r.Ok? ==> r.value == RunBlocks(blocks, hs + xs)[|hs|..]
      ensures r.Err? && startFromPosition <= old(prefixLength) ==>
                r.error == LengthExceeded && prefixLength == |hs| && caches == old(caches)
    {
      if prefixLength < startFromPosition { return Err(PositionAhead); }
      prefixLength := startFromPosition;
      if prefixLength + |xs| > maxLength { return Err(LengthExceeded); }
      var hidden := xs;
      if |xs| > 0 {
        hidden := RunSpan(xs, hs);
      } else {
        assert hs + xs == hs;
        assert RunBlocks(blocks, hs)[|hs|..] == [];
      }
      prefixLength := prefixLength + |xs|;
      r := Ok(hidden);
    }

    method RunSpan(xs: seq<H>, ghost hs: seq<H>) returns (hidden: seq<H>)
      requires prefixLength == |hs| && CachesHold(blocks, caches, hs) && |xs| > 0
      modifies `caches
      ensures CachesHold(blocks, caches, hs + xs)
      ensures hidden == RunBlocks(blocks, hs + xs)[|hs|..]
    {
      hidden := xs;
      assert blocks[..0] == [];
      for j := 0 to |blocks|
        invariant |caches| == |blocks| && hidden == RunBlocks(blocks[..j], hs + xs)[|hs|..]
        invariant forall i | 0 <= i < j :: CacheHolds(blocks, caches[i], hs + xs, i)
        invariant forall i | j <= i < |blocks| :: CacheHolds(blocks, caches[i], hs, i)
      {
        BlockStep(blocks, caches[j], hs, xs, j);
        var newEntries;
        hidden, newEntries := ForwardChunked(blocks[j], caches[j][..prefixLength], hidden,
                                             MaxChunk(chunkBudget, prefixLength + |xs|));
        caches := caches[j := AfterWrite(caches[j], newEntries, prefixLength, prefixLength + |xs|)];
      }
      assert blocks[..|blocks|] == blocks;
    }
  }

  // ----- the session over a chain of servers -----

  /** What reaches block `k` when the whole model runs over `hs`. */
  ghost function Reaching<H, C>(blocks: seq<Block<H, C>>, k: nat, hs: seq<H>): (r: seq<H>)
    requires k <= |blocks|
    ensures |r| == |hs|
  {
    RunBlocks(blocks[..k], hs)
  }

  lemma ReachingGrows<H, C>(blocks: seq<Block<H, C>>, k: nat, hs: seq<H>, xs: seq<H>)
    requires k <= |blocks|
    ensures Reaching(blocks, k, hs) + Reaching(blocks, k, hs + xs)[|hs|..] == Reaching(blocks, k, hs + xs)
  {
    Causality(blocks[..k], hs, xs);
  }

  lemma ReachingNext<H, C>(blocks: seq<Block<H, C>>, start: nat, end: nat, hs: seq<H>)
    requires start <= end <= |blocks|
    ensures RunBlocks(blocks[start..end], Reaching(blocks, start, hs)) == Reaching(blocks, end, hs)
  {
    RunInTwoParts(blocks[..start], blocks[start..end], hs);
    assert blocks[..start] + blocks[start..end] == blocks[..end];
  }

  class InferenceSession<!H, !C> {
    const blocks: seq<Block<H, C>>
    const maxLength: nat
    const chunkBudget: nat -> nat
    var position: nat
    var servers: seq<ServerSession<H, C>>

    /** The blocks that each server runs, and the inputs that are still part of the sequence. */
    ghost var spans: seq<Span>
    ghost var kept: seq<H>

    ghost predicate Valid()
      reads this, servers
    {
      && |blocks| > 0
      && if servers == [] then kept == []
         else position == |kept| && Chained() && Between(|servers|, kept, kept)
    }

    /** The servers cover all blocks, each block once and in order. */
    ghost predicate Chained()
      reads `servers, `spans
    {
      && Tiles(spans, 0, |blocks|) && |servers| == |spans| > 0
      && (forall i, k | 0 <= i < k < |servers| :: servers[i] != servers[k])
      && forall i | 0 <= i < |servers| :: servers[i].Serves(blocks, spans[i], maxLength)
    }

    /** The first `i` servers have come to `after`, the others are still at `before`. */
    ghost predicate Between(i: nat, before: seq<H>, after: seq<H>)
      requires Chained()
      reads `servers, `spans, servers
    {
      && (forall k | 0 <= k < i && k < |servers| :: IsAt(k, after))
      && (forall k | i <= k < |servers| :: IsAt(k, before))
    }

    /** The first `i` clients, their histories and their servers all count `length` positions. */
    ghost predicate InStep(i: nat, length: nat)
      reads `servers, servers
    {
      forall k | 0 <= k < i && k < |servers| ::
        && servers[k].position == servers[k].prefixLength == length
        && servers[k].history.Some? && |servers[k].history.value| == length
    }

    ghost predicate IsAt(k: nat, hs: seq<H>)
      requires Chained() && k < |servers|
      reads `servers, `spans, servers
    {
      servers[k].Holds(Reaching(blocks, spans[k].start, hs))
    }

    constructor (blocks: seq<Block<H, C>>, maxLength: nat, chunkBudget: nat -> nat)
      requires |blocks| > 0
      ensures Valid() && this.blocks == blocks && this.maxLength == maxLength && kept == [] && position == 0
              && servers == []
    {
      this.blocks, this.maxLength, this.chunkBudget := blocks, maxLength, chunkBudget;
      position, servers, kept, spans := 0, [], [], [];
    }

    ghost function Known(): Talk<H>
      reads this
    {
      Talk(kept, position, servers != [])
    }

    /** Rolls the session back to its first `from` inputs. */
    method SetPosition(from: nat) returns (ok: bool)
      requires Valid()
      modifies this, servers
      ensures servers == old(servers) && position == from
      ensures ok <==> servers == [] || from <= |old(kept)|
      ensures ok ==> Valid() && kept == if servers == [] then [] else old(kept)[..from]
      ensures !ok ==> kept == old(kept) && spans == old(spans) && forall i | 0 <= i < |servers| :: unchanged(servers[i])
    {
      position, ok := from, true;
      if |servers| > 0 {
        ok := RollBack(from);
        if ok { kept := kept[..from]; }
      }
    }

    method RollBack(from: nat) returns (ok: bool)
      requires Chained() && Between(|servers|, kept, kept)
      modifies servers
      ensures ok <==> from <= |kept|
      ensures ok ==> Between(|servers|, kept[..from], kept[..from])
      ensures !ok ==> forall i | 0 <= i < |servers| :: unchanged(servers[i])
    {
      ok := true;
      ghost var rest := if from <= |kept| then kept[..from] else [];
      for i := 0 to |servers|
        invariant (i > 0 ==> from <= |kept|) && Between(i, kept, rest)
        invariant i == 0 ==> forall k | 0 <= k < |servers| :: unchanged(servers[k])
      {
        ok := RollBackServer(from, i, rest);
        if !ok { return; }
      }
    }

    method RollBackServer(from: nat, i: nat, ghost rest: seq<H>) returns (ok: bool)
      requires Chained() && i < |servers| && Between(i, kept, rest)
               && rest == if from <= |kept| then kept[..from] else []
      modifies servers[i]
      ensures ok <==> from <= |kept|
      ensures ok ==> Between(i + 1, kept, rest)
      ensures !ok ==> unchanged(servers[i])
    {
      assert IsAt(i, kept);
      ok := servers[i].SetPosition(from, Reaching(blocks, spans[i].start, kept));
      if ok {
        PrefixRun(blocks[..spans[i].start], kept, from);
        assert IsAt(i, rest);
        forall k | 0 <= k < i ensures IsAt(k, rest) {
          assert old(IsAt(k, rest)) && servers[k] != servers[i];
        }
        forall k | i < k < |servers| ensures IsAt(k, kept) {
          assert old(IsAt(k, kept)) && servers[k] != servers[i];
        }
      }
    }

    /** Runs all blocks over `xs`, which follow the kept inputs; the first step opens a session with every server of
        `route`. */
    method Step(xs: seq<H>, route: seq<Span>) returns (r: Result<seq<H>, Error>)
      requires Valid() && Tiles(route, 0, |blocks|)
      modifies this, servers
      ensures r.Ok? <==> old(position) == |old(kept)| && old(position) + |xs| <= maxLength
      ensures r.Ok? ==> Valid() && kept == old(kept) + xs && position == |kept| && servers != []
      ensures r.Ok? ==> r.value == RunBlocks(blocks, kept)[|old(kept)|..]
      ensures r.Ok? ==> InStep(|servers|, position)
      ensures r.Err? ==> r.error == (if old(position) + |xs| > maxLength then LengthExceeded else PositionsDiffer)
      ensures r.Err? ==> position == old(position) && kept == old(kept)
      ensures r.Err? && (r.error == LengthExceeded || old(servers) != []) ==>
                servers == old(servers) && spans == old(spans) && forall i | 0 <= i < |servers| :: unchanged(servers[i])
      ensures servers == old(servers) || forall i | 0 <= i < |servers| :: fresh(servers[i])
    {
      if position + |xs| > maxLength { return Err(LengthExceeded); }
      if |servers| == 0 {
        EnterServerSessions(route);
      }
      r := StepThrough(xs);
      if r.Ok? {
        position, kept := position + |xs|, kept + xs;
      }
    }

    /** Opens a session with the server of every span. */
    method EnterServerSessions(route: seq<Span>)
      requires Tiles(route, 0, |blocks|) && |blocks| > 0 && kept == []
      modifies `servers, `spans
      ensures Chained() && servers != [] && Between(0, kept, kept)
      ensures forall i | 0 <= i < |servers| :: fresh(servers[i])
    {
      TilesRange(route, 0, |blocks|);
      var entered: seq<ServerSession<H, C>> := [];
      for i := 0 to |route|
        invariant |entered| == i && forall k | 0 <= k < i :: fresh(entered[k])
        invariant forall k, l | 0 <= k < l < i :: entered[k] != entered[l]
        invariant forall k | 0 <= k < i :: entered[k].Serves(blocks, route[k], maxLength) && entered[k].Holds([])
      {
        TilesAt(route, 0, |blocks|, i);
        var server := new ServerSession(blocks, route[i], maxLength, chunkBudget(route[i].peer));
        entered := entered + [server];
      }
      servers, spans := entered, route;
      forall k | 0 <= k < |servers| ensures IsAt(k, kept) {
        assert Reaching(blocks, spans[k].start, kept) == [];
      }
    }

    /** Passes `xs` from server to server. */
    method StepThrough(xs: seq<H>) returns (r: Result<seq<H>, Error>)
      requires Chained() && Between(0, kept, kept) && |kept| + |xs| <= maxLength
      modifies servers
      ensures r.Ok? <==> position == |kept|
      ensures r.Ok? ==> Between(|servers|, kept + xs, kept + xs) && r.value == RunBlocks(blocks, kept + xs)[|kept|..]
      ensures r.Ok? ==> InStep(|servers|, |kept + xs|)
      ensures r.Err? ==> r.error == PositionsDiffer && forall i | 0 <= i < |servers| :: unchanged(servers[i])
    {
      ghost var all := kept + xs;
      var inputs, blockIdx, i := xs, 0, 0;
      assert blocks[..0] == [];
      TilesAt(spans, 0, |blocks|, 0);
      while blockIdx < |blocks|
        invariant i <= |servers| && Between(i, kept, all) && (i > 0 ==> position == |kept|)
        invariant i == 0 ==> forall k | 0 <= k < |servers| :: unchanged(servers[k])
        invariant blockIdx == (if i < |servers| then spans[i].start else |blocks|) && blockIdx <= |blocks|
        invariant inputs == Reaching(blocks, blockIdx, all)[|kept|..] && InStep(i, |all|)
        decreases |servers| - i
      {
        TilesAt(spans, 0, |blocks|, i);
        r := StepServer(i, inputs, xs, all);
        if r.Err? { return; }
        inputs, blockIdx, i := r.value, servers[i].span.end, i + 1;
      }
      if i < |servers| { TilesAt(spans, 0, |blocks|, i); }
      assert blocks[..|blocks|] == blocks;
      r := Ok(inputs);
    }

    method StepServer(i: nat, inputs: seq<H>, ghost xs: seq<H>, ghost all: seq<H>) returns (r: Result<seq<H>, Error>)
      requires Chained() && i < |servers| && all == kept + xs && |all| <= maxLength
      requires Between(i, kept, all) && inputs == Reaching(blocks, spans[i].start, all)[|kept|..]
      modifies servers[i]
      ensures r.Ok? <==> position == |kept|
      ensures r.Ok? ==> Between(i + 1, kept, all) && r.value == Reaching(blocks, spans[i].end, all)[|kept|..]
      ensures r.Ok? ==> (old(InStep(i, |all|)) ==> InStep(i + 1, |all|))
      ensures r.Err? ==> r.error == PositionsDiffer && unchanged(servers[i])
    {
      assert IsAt(i, kept);
      if servers[i].position != position { return Err(PositionsDiffer); }
      ghost var hs := Reaching(blocks, spans[i].start, kept);
      ReachingGrows(blocks, spans[i].start, kept, xs);
      ReachingNext(blocks, spans[i].start, spans[i].end, all);
      r := servers[i].Step(inputs, hs);
      assert IsAt(i, all);
      forall k | 0 <= k < i ensures IsAt(k, all) {
        assert old(IsAt(k, all)) && servers[k] != servers[i];
      }
      forall k | i < k < |servers| ensures IsAt(k, kept) {
        assert old(IsAt(k, kept)) && servers[k] != servers[i];
      }
    }
  }

  // ----- runs of steps and rollbacks -----

  datatype Move<H> = Extend(inputs: seq<H>) | RollBack(from: nat)

  /** What the client knows of a session: the inputs that are kept, its position, and whether it has met the servers. */
  datatype Talk<H> = Talk(kept: seq<H>, position: nat, met: bool)

  /** A step fails past the length, and when the position is not where the inputs end. A rollback fails when it goes
      ahead; before the first step it is only noted. */
  function Continued<H>(talk: Talk<H>, move: Move<H>, maxLength: nat): Option<Talk<H>>
  {
    match move
    case Extend(inputs) =>
      var end := |talk.kept| + |inputs|;
      if talk.position == |talk.kept| && end <= maxLength then Some(Talk(talk.kept + inputs, end, true)) else None
    case RollBack(from) =>
      if !talk.met then Some(Talk(talk.kept, from, false))
      else if from <= |talk.kept| then Some(Talk(talk.kept[..from], from, true)) else None
  }

  function TalkAfter<H>(moves: seq<Move<H>>, maxLength: nat): Option<Talk<H>>
  {
    if |moves| == 0 then Some(Talk([], 0, false))
    else
      var before := TalkAfter(moves[..|moves| - 1], maxLength);
      if before.None? then None else Continued(before.value, moves[|moves| - 1], maxLength)
  }

  ghost predicate IsOutput<H, C>(blocks: seq<Block<H, C>>, kept: seq<H>, move: Move<H>, output: seq<H>)
  {
    if move.Extend? then output == RunBlocks(blocks, kept + move.inputs)[|kept|..] else output == []
  }

  method MakeMove<H, C>(session: InferenceSession<H, C>, move: Move<H>, route: seq<Span>)
    returns (output: Option<seq<H>>)
    requires session.Valid() && Tiles(route, 0, |session.blocks|)
    modifies session, session.servers
    ensures output.Some? <==> Continued(old(session.Known()), move, session.maxLength).Some?
    ensures output.Some? ==>
              session.Valid() && session.Known() == Continued(old(session.Known()), move, session.maxLength).value
    ensures session.servers == old(session.servers) || forall k | 0 <= k < |session.servers| ::
              fresh(session.servers[k])
    ensures output.Some? ==> IsOutput(session.blocks, old(session.kept), move, output.value)
  {
    match move {
      case Extend(inputs) =>
        var r := session.Step(inputs, route);
        output := if r.Ok? then Some(r.value) else None;
      case RollBack(from) =>
        var ok := session.SetPosition(from);
        output := if ok then Some([]) else None;
    }
  }

  /** In every run, up to the first move that fails, the output of every step is the end of a run of all blocks over the
      inputs kept at that time. */
  method Converse<H, C>(session: InferenceSession<H, C>, moves: seq<Move<H>>, route: seq<Span>)
    returns (outputs: seq<seq<H>>)
    requires session.Valid() && session.servers == [] && session.position == 0 && Tiles(route, 0, |session.blocks|)
    modifies session
    ensures |outputs| <= |moves|
    ensures |outputs| == |moves| ==>
              session.Valid() && TalkAfter(moves, session.maxLength) == Some(session.Known())
    ensures |outputs| < |moves| ==> TalkAfter(moves[..|outputs| + 1], session.maxLength).None?
    ensures forall i | 0 <= i < |outputs| :: RightOutput(session.blocks, moves, i, session.maxLength, outputs[i])
  {
    outputs := [];
    assert moves[..0] == [];
    for i := 0 to |moves|
      modifies session, session.servers
      invariant session.Valid() && |outputs| == i
      invariant forall k | 0 <= k < |session.servers| :: fresh(session.servers[k])
      invariant TalkAfter(moves[..i], session.maxLength) == Some(session.Known())
      invariant forall k | 0 <= k < i :: RightOutput(session.blocks, moves, k, session.maxLength, outputs[k])
    {
      assert moves[..i + 1][..i] == moves[..i];
      var output := MakeMove(session, moves[i], route);
      if output.None? { return; }
      outputs := outputs + [output.value];
    }
    assert moves[..|moves|] == moves;
  }

  ghost predicate RightOutput<H, C>(blocks: seq<Block<H, C>>, moves: seq<Move<H>>, i: nat, maxLength: nat,
                                    output: seq<H>)
    requires i < |moves|
  {
    var before := TalkAfter(moves[..i], maxLength);
    before.Some? && IsOutput(blocks, before.value.kept, moves[i], output)
  }
}
