/** From announced servers to a chain of spans that covers the requested blocks. */
module Routing {
  import opened FiniteSets
  import opened SpanTilings
  import opened Wrappers

  /** The blocks [start, end) that one server announces; the range may be empty. */
  datatype Advert = Advert(peer: nat, start: nat, end: int)

  /** `byPriority` are the announced spans, one per server; `containing[b]` those of them that contain block `b`. */
  datatype SequenceInfo = SequenceInfo(byPriority: seq<Advert>, containing: seq<seq<Advert>>)
  {
    ghost predicate Valid()
    {
      && (forall i, j | 0 <= i < j < |byPriority| :: byPriority[i].peer != byPriority[j].peer)
      && (forall span | span in byPriority :: span.end <= |containing|)
      && forall b, span | 0 <= b < |containing| :: span in containing[b] <==>
                                                   span in byPriority && span.start <= b < span.end
    }
  }

  predicate Has(info: SequenceInfo, span: Advert, b: int)
  {
    0 <= b < |info.containing| && span in info.containing[b]
  }

  ghost predicate Serves(info: SequenceInfo, peer: nat, b: int)
  {
    exists span :: Has(info, span, b) && span.peer == peer
  }

  /** The server's span ends with block `b` - 1. */
  ghost predicate EndsBefore(info: SequenceInfo, peer: nat, b: int)
  {
    exists span :: Has(info, span, b - 1) && span.peer == peer && span.end == b
  }

  predicate IsMissing(info: SequenceInfo, b: nat)
  {
    b >= |info.containing| || info.containing[b] == []
  }

  ghost predicate NothingMissing(info: SequenceInfo, start: nat, end: nat)
  {
    forall b | start <= b < end :: !IsMissing(info, b)
  }

  // ----- announcements -----

  /** What a server announces for one block: its state, and perhaps the whole range of blocks it holds. */
  datatype ServerInfo = ServerInfo(state: int, range: Option<(int, int)>)

  datatype Entry = Entry(span: Advert, state: int)

  /** The span of `peer` after one more announcement of it, at block `b` of `n`; ranges count blocks from `offset`
      on. */
  function NextEntry(entry: Option<Entry>, peer: nat, b: nat, info: ServerInfo, offset: int, n: nat,
                     minState: int): Option<Entry>
  {
    if info.state < minState then entry
    else if entry.None? || entry.value.state < info.state then
      Some(Entry(if info.range.None? then Advert(peer, b, b + 1)
                 else Advert(peer, if info.range.value.0 > offset then info.range.value.0 - offset else 0,
                             if info.range.value.1 - offset < n then info.range.value.1 - offset else n), info.state))
    else if entry.value.state == info.state then
      Some(entry.value.(span := entry.value.span.(end := if entry.value.span.end < b + 1 then b + 1
                                                  else entry.value.span.end)))
    else entry
  }

  /** The span of `peer` as announced for the first `k` blocks. */
  function EntryOf(infos: seq<map<nat, ServerInfo>>, peer: nat, k: nat, offset: int, minState: int): Option<Entry>
    requires k <= |infos|
  {
    if k == 0 then None
    else
      var before := EntryOf(infos, peer, k - 1, offset, minState);
      if peer in infos[k - 1] then NextEntry(before, peer, k - 1, infos[k - 1][peer], offset, |infos|, minState)
          else before
  }

  function Found(spans: map<nat, Entry>, peer: nat): Option<Entry>
  {
    if peer in spans then Some(spans[peer]) else None
  }

  /** One pass over all blocks and all servers of each block. */
  method ComputeSpans(infos: seq<map<nat, ServerInfo>>, offset: int, minState: int) returns (spans: map<nat, Entry>)
    ensures forall p: nat :: Found(spans, p) == EntryOf(infos, p, |infos|, offset, minState)
  {
    spans := map[];
    for b := 0 to |infos|
      invariant forall p: nat :: Found(spans, p) == EntryOf(infos, p, b, offset, minState)
    {
      spans := AddBlock(spans, infos[b], b, offset, |infos|, minState);
    }
  }

  /** The announcements of the given peers for block `b` have been added. */
  ghost predicate Added(spans: map<nat, Entry>, spans': map<nat, Entry>, infos: map<nat, ServerInfo>, peers: set<nat>,
                        b: nat, offset: int, n: nat, minState: int)
    requires peers <= infos.Keys
  {
    forall p: nat :: Found(spans', p) ==
      if p in peers then NextEntry(Found(spans, p), p, b, infos[p], offset, n, minState) else Found(spans, p)
  }

  lemma AddedNext(spans: map<nat, Entry>, mid: map<nat, Entry>, spans': map<nat, Entry>, infos: map<nat, ServerInfo>,
                  peers: set<nat>, peer: nat, b: nat, offset: int, n: nat, minState: int)
    requires peers <= infos.Keys && peer in infos && peer !in peers
    requires Added(spans, mid, infos, peers, b, offset, n, minState)
    requires var next := NextEntry(Found(mid, peer), peer, b, infos[peer], offset, n, minState);
             spans' == if next.Some? then mid[peer := next.value] else mid
    ensures Added(spans, spans', infos, peers + {peer}, b, offset, n, minState)
  {
    assert Found(mid, peer) == Found(spans, peer);
    forall p: nat | p != peer ensures Found(spans', p) == Found(mid, p) {
    }
  }

  /** What the announcements for block `b` add. */
  method AddBlock(spans: map<nat, Entry>, infos: map<nat, ServerInfo>, b: nat, offset: int, n: nat, minState: int)
    returns (spans': map<nat, Entry>)
    ensures Added(spans, spans', infos, infos.Keys, b, offset, n, minState)
  {
    spans' := spans;
    var peers := InOrder(infos.Keys);
    InOrderHasAll(infos.Keys);
    ghost var done: set<nat> := {};
    for i := 0 to |peers|
      invariant forall p :: p in done <==> p in peers[..i]
      invariant done <= infos.Keys && Added(spans, spans', infos, done, b, offset, n, minState)
    {
      var peer := peers[i];
      assert peer in infos && peer !in done;
      var next := NextEntry(Found(spans', peer), peer, b, infos[peer], offset, n, minState);
      ghost var mid := spans';
      if next.Some? { spans' := spans'[peer := next.value]; }
      AddedNext(spans, mid, spans', infos, done, peer, b, offset, n, minState);
      done := done + {peer};
    }
    assert done == infos.Keys by { assert peers[..|peers|] == peers; }
  }

  /** Spans end within the model and are those of servers that are up for at least one block. */
  lemma {:induction false} EntriesAreInRange(infos: seq<map<nat, ServerInfo>>, peer: nat, k: nat, offset: int,
                                             minState: int)
    requires k <= |infos|
    ensures var e := EntryOf(infos, peer, k, offset, minState);
            && (e.Some? ==> e.value.span.peer == peer && e.value.span.end <= |infos|)
            && (e.Some? <==> exists b :: 0 <= b < k && peer in infos[b] && infos[b][peer].state >= minState)
  {
    if k > 0 {
      EntriesAreInRange(infos, peer, k - 1, offset, minState);
    }
  }

  /** Of what a server announces for the first `k` blocks, only the announcements of its highest state count. The first
      of them, at block `first`, gives the span its start and its end, and the last one, at block `last`, may extend
      it. */
  ghost predicate Describes(infos: seq<map<nat, ServerInfo>>, peer: nat, k: nat, offset: int, minState: int, e: Entry,
                            first: nat, last: nat)
  {
    && first <= last < k <= |infos| && peer in infos[first] && peer in infos[last]
    && infos[first][peer].state == infos[last][peer].state == e.state >= minState
    && (forall b | 0 <= b < k && peer in infos[b] :: NotAbove(infos[b][peer].state, e.state, first, last, b))
    && e.span.peer == peer
    && var range := infos[first][peer].range;
       var end := if range.None? then first + 1
                  else if range.value.1 - offset < |infos| then range.value.1 - offset else |infos|;
       && e.span.start == (if range.None? then first
                           else if range.value.0 - offset > 0 then range.value.0 - offset else 0)
       && e.span.end == if first < last && end < last + 1 then last + 1 else end
  }

  predicate NotAbove(state: int, highest: int, first: nat, last: nat, b: nat)
  {
    state < highest || (state == highest && first <= b <= last)
  }

  lemma {:induction false} EntryIsOfHighestState(infos: seq<map<nat, ServerInfo>>, peer: nat, k: nat, offset: int,
                                                 minState: int)
    returns (first: nat, last: nat)
    requires k <= |infos|
    ensures var e := EntryOf(infos, peer, k, offset, minState);
            if e.Some? then Describes(infos, peer, k, offset, minState, e.value, first, last)
            else forall b | 0 <= b < k && peer in infos[b] :: infos[b][peer].state < minState
  {
    first, last := 0, 0;
    if k > 0 {
      first, last := EntryIsOfHighestState(infos, peer, k - 1, offset, minState);
      var before := EntryOf(infos, peer, k - 1, offset, minState);
      if peer in infos[k - 1] && infos[k - 1][peer].state >= minState {
        if before.None? || before.value.state < infos[k - 1][peer].state {
          first, last := k - 1, k - 1;
        } else if before.value.state == infos[k - 1][peer].state {
          last := k - 1;
        }
      }
    }
  }

  /** A server that announces its blocks one by one, without a range, and announces every block from `first` to `last`,
      gets exactly that span. */
  lemma {:induction false} ConsecutiveBlocksAreTheSpan(infos: seq<map<nat, ServerInfo>>, peer: nat, k: nat,
                                                       offset: int, minState: int, info: ServerInfo, first: nat,
                                                       last: nat)
    requires first <= last < |infos| && first < k <= |infos| && info.state >= minState && info.range.None?
    requires forall b | 0 <= b < |infos| :: peer in infos[b] <==> first <= b <= last
    requires forall b | first <= b <= last :: infos[b][peer] == info
    ensures EntryOf(infos, peer, k, offset, minState)
            == Some(Entry(Advert(peer, first, if k <= last then k else last + 1), info.state))
  {
    if k - 1 > first {
      ConsecutiveBlocksAreTheSpan(infos, peer, k - 1, offset, minState, info, first, last);
    } else {
      NotYetAnnounced(infos, peer, first, offset, minState);
    }
  }

  lemma {:induction false} NotYetAnnounced(infos: seq<map<nat, ServerInfo>>, peer: nat, k: nat, offset: int,
                                           minState: int)
    requires k <= |infos| && forall b | 0 <= b < k :: peer !in infos[b]
    ensures EntryOf(infos, peer, k, offset, minState).None?
  {
    if k > 0 { NotYetAnnounced(infos, peer, k - 1, offset, minState); }
  }

  /** A server that announces the same range at each of the blocks of the range that the model has gets that range. */
  lemma {:induction false} AnnouncedRangeIsTheSpan(infos: seq<map<nat, ServerInfo>>, peer: nat, k: nat, offset: int,
                                                   minState: int, info: ServerInfo)
    requires k <= |infos| && info.state >= minState && info.range.Some?
    requires forall b | 0 <= b < |infos| && peer in infos[b] ::
               infos[b][peer] == info && info.range.value.0 <= offset + b < info.range.value.1
    ensures var e := EntryOf(infos, peer, k, offset, minState);
            var from, to := info.range.value.0 - offset, info.range.value.1 - offset;
            e.Some? ==>
              e.value == Entry(Advert(peer, if from > 0 then from else 0, if to < |infos| then to else |infos|),
                               info.state)
  {
    if k > 0 {
      AnnouncedRangeIsTheSpan(infos, peer, k - 1, offset, minState, info);
    }
  }

  // ----- the index of announced spans -----

  predicate Longer(a: Advert, b: Advert)
  {
    a.end - a.start >= b.end - b.start
  }

  /** Keeps the order of spans of the same length. */
  function Inserted(sorted: seq<Advert>, span: Advert): seq<Advert>
  {
    if |sorted| > 0 && !Longer(sorted[|sorted| - 1], span)
        then Inserted(sorted[..|sorted| - 1], span) + [sorted[|sorted| - 1]]
    else sorted + [span]
  }

  function SortedByLength(spans: seq<Advert>): seq<Advert>
  {
    if |spans| == 0 then [] else Inserted(SortedByLength(spans[..|spans| - 1]), spans[|spans| - 1])
  }

  lemma {:induction false} InsertedHas(sorted: seq<Advert>, span: Advert)
    ensures multiset(Inserted(sorted, span)) == multiset(sorted) + multiset{span}
  {
    if |sorted| > 0 && !Longer(sorted[|sorted| - 1], span) {
      InsertedHas(sorted[..|sorted| - 1], span);
      assert sorted == sorted[..|sorted| - 1] + [sorted[|sorted| - 1]];
    }
  }

  lemma {:induction false} SortedHas(spans: seq<Advert>)
    ensures multiset(SortedByLength(spans)) == multiset(spans)
  {
    if |spans| > 0 {
      SortedHas(spans[..|spans| - 1]);
      InsertedHas(SortedByLength(spans[..|spans| - 1]), spans[|spans| - 1]);
      assert spans == spans[..|spans| - 1] + [spans[|spans| - 1]];
    }
  }

  ghost predicate InLengthOrder(spans: seq<Advert>)
  {
    forall i, j | 0 <= i < j < |spans| :: Longer(spans[i], spans[j])
  }

  lemma {:induction false} InsertedSorted(sorted: seq<Advert>, span: Advert)
    requires InLengthOrder(sorted)
    ensures InLengthOrder(Inserted(sorted, span))
    ensures forall s | s in Inserted(sorted, span) :: s == span || s in sorted
  {
    if |sorted| > 0 && !Longer(sorted[|sorted| - 1], span) {
      var before, last := sorted[..|sorted| - 1], sorted[|sorted| - 1];
      InsertedSorted(before, span);
      forall i | 0 <= i < |Inserted(before, span)| ensures Longer(Inserted(before, span)[i], last) {
        assert Inserted(before, span)[i] == span || Inserted(before, span)[i] in before;
      }
    }
  }

  lemma {:induction false} SortedIsSorted(spans: seq<Advert>)
    ensures InLengthOrder(SortedByLength(spans))
  {
    if |spans| > 0 {
      SortedIsSorted(spans[..|spans| - 1]);
      InsertedSorted(SortedByLength(spans[..|spans| - 1]), spans[|spans| - 1]);
    }
  }

  /** Lists every span under the blocks it contains, the longest spans first. */
  method SortSpans(spans: seq<Advert>, n: nat) returns (info: SequenceInfo)
    requires forall i, j | 0 <= i < j < |spans| :: spans[i].peer != spans[j].peer
    requires forall span | span in spans :: span.end <= n
    ensures info.Valid() && |info.containing| == n
    ensures multiset(info.byPriority) == multiset(spans) && InLengthOrder(info.byPriority)
  {
    var byPriority := SortedByLength(spans);
    SortedIsSorted(spans);
    assert multiset(byPriority) == multiset(spans) by { SortedHas(spans); }
    PeersStayDistinct(spans, byPriority);
    EndsStay(spans, byPriority, n);
    var containing := ListSpans(byPriority, n);
    info := SequenceInfo(byPriority, containing);
  }

  lemma EndsStay(spans: seq<Advert>, sorted: seq<Advert>, n: nat)
    requires multiset(sorted) == multiset(spans) && forall span | span in spans :: span.end <= n
    ensures forall span | span in sorted :: span.end <= n
  {
    forall span | span in sorted ensures span.end <= n { assert span in multiset(sorted); }
  }

  method ListSpans(byPriority: seq<Advert>, n: nat) returns (containing: seq<seq<Advert>>)
    requires forall span | span in byPriority :: span.end <= n
    ensures |containing| == n && Listed(byPriority, containing)
  {
    containing := seq(n, _ => []);
    for i := 0 to |byPriority|
      invariant |containing| == n && Listed(byPriority[..i], containing)
    {
      ghost var before := containing;
      containing := ListSpan(containing, byPriority[i]);
      ListedNext(byPriority[..i], before, byPriority[i], containing);
      assert byPriority[..i + 1] == byPriority[..i] + [byPriority[i]];
    }
    assert byPriority[..|byPriority|] == byPriority;
  }

  /** Appends a span to the list of every block it contains. */
  method ListSpan(lists: seq<seq<Advert>>, span: Advert) returns (containing: seq<seq<Advert>>)
    requires span.end <= |lists|
    ensures |containing| == |lists|
    ensures forall c | 0 <= c < |lists| :: containing[c] == if span.start <= c < span.end then lists[c] + [span]
                                           else lists[c]
  {
    containing := lists;
    var b: int := span.start;
    while b < span.end
      invariant span.start <= b && |containing| == |lists|
      invariant forall c | 0 <= c < |lists| ::
                  containing[c] == if span.start <= c < b && c < span.end then lists[c] + [span] else lists[c]
    {
      containing := containing[b := containing[b] + [span]];
      b := b + 1;
    }
  }

  ghost predicate Listed(spans: seq<Advert>, containing: seq<seq<Advert>>)
  {
    forall b, span | 0 <= b < |containing| :: span in containing[b] <==> span in spans && span.start <= b < span.end
  }

  lemma ListedNext(spans: seq<Advert>, before: seq<seq<Advert>>, span: Advert, containing: seq<seq<Advert>>)
    requires Listed(spans, before) && |containing| == |before|
    requires forall c | 0 <= c < |before| :: containing[c] == if span.start <= c < span.end then before[c] + [span]
                                             else before[c]
    ensures Listed(spans + [span], containing)
  {
  }

  lemma PeersStayDistinct(spans: seq<Advert>, sorted: seq<Advert>)
    requires multiset(sorted) == multiset(spans) && forall i, j | 0 <= i < j < |spans| :: spans[i].peer != spans[j].peer
    ensures forall i, j | 0 <= i < j < |sorted| :: sorted[i].peer != sorted[j].peer
  {
    forall i, j | 0 <= i < j < |sorted| ensures sorted[i].peer != sorted[j].peer {
      if sorted[i].peer == sorted[j].peer {
        assert sorted[i] in multiset(sorted) && sorted[j] in multiset(sorted);
        assert sorted[i] in spans && sorted[j] in spans;
        assert sorted[i] == sorted[j];
        TwiceInSorted(sorted, i, j);
        OnceInSpans(spans, sorted[i]);
      }
    }
  }

  lemma TwiceInSorted(s: seq<Advert>, i: nat, j: nat)
    requires i < j < |s| && s[i] == s[j]
    ensures multiset(s)[s[i]] >= 2
  {
    assert s == s[..j] + s[j..];
    assert s[i] in s[..j] && s[i] in s[j..];
  }

  lemma {:induction false} OnceInSpans(spans: seq<Advert>, span: Advert)
    requires forall i, j | 0 <= i < j < |spans| :: spans[i].peer != spans[j].peer
    ensures multiset(spans)[span] <= 1
  {
    if |spans| > 0 {
      var before, last := spans[..|spans| - 1], spans[|spans| - 1];
      assert spans == before + [last];
      OnceInSpans(before, span);
      assert last !in before;
    }
  }

  // ----- the inference graph -----

  /** The client at either end, and a server about to run a block (or done, at the last block). */
  datatype Node = Client | At(peer: nat, block: nat) | Done

  type Edge = (Node, Node)

  /** The edges of the graph for blocks [start, end). A server is left only where its span ends. */
  ghost predicate IsEdge(info: SequenceInfo, start: nat, end: nat, u: Node, v: Node)
  {
    match (u, v)
    case (Client, At(p, b)) => b == start && Serves(info, p, start)
    case (At(p, b), Done) => b == end && Serves(info, p, end - 1)
    case (At(p, b), At(q, c)) =>
      || (p == q && c == b + 1 && start <= b < end && Serves(info, p, b))
      || (b == c && start < b < end && EndsBefore(info, p, b) && Serves(info, q, b))
    case _ => false
  }

  ghost predicate IsPath(info: SequenceInfo, start: nat, end: nat, nodes: seq<Node>)
  {
    && |nodes| >= 2 && nodes[0] == Client && nodes[|nodes| - 1] == Done
    && forall i, k | 0 <= i < k == i + 1 < |nodes| :: IsEdge(info, start, end, nodes[i], nodes[k])
  }

  /** Is `span` inside the announced span of its server? */
  ghost predicate Inside(info: SequenceInfo, span: Span)
  {
    forall b | span.start <= b < span.end :: Serves(info, span.peer, b)
  }

  function NonEmpty(spans: seq<Span>): seq<Span>
  {
    if |spans| == 0 then []
    else if spans[|spans| - 1].start < spans[|spans| - 1].end then NonEmpty(spans[..|spans| - 1]) + [spans[|spans| - 1]]
    else NonEmpty(spans[..|spans| - 1])
  }

  /** The spans made of the first nodes of a path: all but the last span are final, the last one still grows. */
  ghost predicate Partial(info: SequenceInfo, start: nat, spans: seq<Span>, peer: nat, block: nat)
  {
    && |spans| > 0
    && var last := spans[|spans| - 1];
       && last.peer == peer && last.start <= last.end == block && Inside(info, last)
       && Tiles(NonEmpty(spans[..|spans| - 1]), start, last.start)
       && forall span | span in NonEmpty(spans[..|spans| - 1]) :: Inside(info, span)
  }

  lemma PartialEnds(info: SequenceInfo, start: nat, spans: seq<Span>, peer: nat, block: nat)
    requires Partial(info, start, spans, peer, block)
    ensures Tiles(NonEmpty(spans), start, block) && forall span | span in NonEmpty(spans) :: Inside(info, span)
  {
    var last := spans[|spans| - 1];
    if last.start < last.end {
      TilesAppend(NonEmpty(spans[..|spans| - 1]), start, last.start, last);
    }
  }

  /** On the path, block `b` is run by `peer`. */
  ghost predicate RunsOn(nodes: seq<Node>, peer: nat, b: nat)
  {
    exists i, k :: 0 <= i < k == i + 1 < |nodes| && nodes[i] == At(peer, b) && nodes[k] == At(peer, b + 1)
  }

  /** Every block of the span is run by the span's server. */
  ghost predicate Follows(nodes: seq<Node>, span: Span)
  {
    forall b | span.start <= b < span.end :: RunsOn(nodes, span.peer, b)
  }

  /** Every span follows the path, and blocks that one server runs in a row are in one span. */
  ghost predicate FollowPath(nodes: seq<Node>, spans: seq<Span>)
  {
    && (forall span | span in spans :: Follows(nodes, span))
    && forall j, k | 0 <= j < k == j + 1 < |spans| :: spans[j].peer != spans[k].peer
  }

  /** Turns the inner nodes of any path into spans. */
  method SpansOfPath(info: SequenceInfo, start: nat, end: nat, nodes: seq<Node>) returns (spans: seq<Span>)
    requires start < end && IsPath(info, start, end, nodes)
    ensures Tiles(spans, start, end) && forall span | span in spans :: Inside(info, span)
    ensures forall span | span in spans :: Follows(nodes, span)
    ensures info.Valid() ==> FollowPath(nodes, spans)
  {
    spans := [];
    InnerNodes(info, start, end, nodes, 1);
    for i := 1 to |nodes| - 1
      invariant i > 1 ==> nodes[i - 1].At? && Partial(info, start, spans, nodes[i - 1].peer, nodes[i - 1].block)
      invariant i == 1 ==> spans == []
      invariant i > 1 ==> Growing(info, start, end, nodes, spans)
    {
      InnerNodes(info, start, end, nodes, i);
      var peer, block := nodes[i].peer, nodes[i].block;
      ghost var before := spans;
      if |spans| == 0 || spans[|spans| - 1].peer != peer {
        spans := spans + [Span(peer, block, block)];
      } else {
        spans := spans[|spans| - 1 := spans[|spans| - 1].(end := block)];
      }
      NodeKeepsPartial(info, start, end, nodes, i, before, spans);
      NodeKeepsGrowing(info, start, end, nodes, i, before, spans);
    }
    PartialEnds(info, start, spans, nodes[|nodes| - 2].peer, nodes[|nodes| - 2].block);
    InnerNodes(info, start, end, nodes, |nodes| - 2);
    NonEmptySpans(spans);
    spans := NonEmpty(spans);
  }

  /** What is known of the spans while the last one still grows. Under a valid announcement no other is empty, and the
      last one is only as long as its server has just been entered. */
  ghost predicate Growing(info: SequenceInfo, start: nat, end: nat, nodes: seq<Node>, spans: seq<Span>)
  {
    && |spans| > 0 && FollowPath(nodes, spans)
    && var n := |spans| - 1;
       info.Valid() ==>
         && (forall j | 0 <= j < n :: spans[j].start < spans[j].end)
         && (spans[n].start < spans[n].end || spans[n].start == start
             || (start < spans[n].start < end && Serves(info, spans[n].peer, spans[n].start)))
  }

  lemma NodeKeepsGrowing(info: SequenceInfo, start: nat, end: nat, nodes: seq<Node>, i: nat, before: seq<Span>,
                         spans: seq<Span>)
    requires IsPath(info, start, end, nodes) && 0 < i < |nodes| - 1 && nodes[i].At?
    requires if i == 1 then before == []
             else nodes[i - 1].At? && Growing(info, start, end, nodes, before)
                  && Partial(info, start, before, nodes[i - 1].peer, nodes[i - 1].block)
    requires var peer, block := nodes[i].peer, nodes[i].block;
             spans == if |before| == 0 || before[|before| - 1].peer != peer then before + [Span(peer, block, block)]
                      else before[|before| - 1 := before[|before| - 1].(end := block)]
    ensures Growing(info, start, end, nodes, spans)
  {
    assert IsEdge(info, start, end, nodes[i - 1], nodes[i]);
    if i > 1 {
      var last := before[|before| - 1];
      if last.peer == nodes[i].peer {
        StepIsFollowed(info, start, end, nodes, i, last);
        LongerKeepsGrowing(info, start, end, nodes, before, last.(end := nodes[i].block));
      } else {
        if info.Valid() && last.start == last.end { EnteredAndLeft(info, last.peer, nodes[i].block); }
        NewKeepsGrowing(info, start, end, nodes, before, Span(nodes[i].peer, nodes[i].block, nodes[i].block));
      }
    }
  }

  lemma LongerKeepsGrowing(info: SequenceInfo, start: nat, end: nat, nodes: seq<Node>, before: seq<Span>, last: Span)
    requires Growing(info, start, end, nodes, before) && Follows(nodes, last)
    requires last.peer == before[|before| - 1].peer && last.start == before[|before| - 1].start
    requires info.Valid() ==> last.start < last.end
    ensures Growing(info, start, end, nodes, before[|before| - 1 := last])
  {
    var spans := before[|before| - 1 := last];
    forall span | span in spans ensures Follows(nodes, span) {
      assert span == last || span in before;
    }
  }

  lemma NewKeepsGrowing(info: SequenceInfo, start: nat, end: nat, nodes: seq<Node>, before: seq<Span>, span: Span)
    requires Growing(info, start, end, nodes, before) && span.start == span.end
    requires span.peer != before[|before| - 1].peer
    requires info.Valid() ==> before[|before| - 1].start < before[|before| - 1].end
    requires info.Valid() ==> start < span.start < end && Serves(info, span.peer, span.start)
    ensures Growing(info, start, end, nodes, before + [span])
  {
    assert Follows(nodes, span);
  }

  lemma StepIsFollowed(info: SequenceInfo, start: nat, end: nat, nodes: seq<Node>, i: nat, last: Span)
    requires 1 < i < |nodes| && nodes[i - 1].At? && nodes[i].At? && IsEdge(info, start, end, nodes[i - 1], nodes[i])
    requires nodes[i - 1] == At(last.peer, last.end) && nodes[i].peer == last.peer && last.start <= last.end
    requires Follows(nodes, last)
    ensures Follows(nodes, last.(end := nodes[i].block))
    ensures info.Valid() ==> nodes[i].block == last.end + 1
  {
    var b := nodes[i].block;
    if b == last.end + 1 {
      assert nodes[i - 1] == At(last.peer, last.end) && nodes[i] == At(last.peer, last.end + 1);
      assert RunsOn(nodes, last.peer, last.end);
    } else if info.Valid() {
      EnteredAndLeft(info, last.peer, b);
    }
  }

  /** A server whose span ends before a block does not hold the block. */
  lemma EnteredAndLeft(info: SequenceInfo, peer: nat, b: nat)
    requires info.Valid()
    ensures !(EndsBefore(info, peer, b) && Serves(info, peer, b))
  {
  }

  lemma {:induction false} NonEmptySpans(spans: seq<Span>)
    ensures forall span | span in NonEmpty(spans) :: span in spans
    ensures (forall j | 0 <= j < |spans| :: spans[j].start < spans[j].end) ==> NonEmpty(spans) == spans
  {
    if |spans| > 0 {
      NonEmptySpans(spans[..|spans| - 1]);
      assert spans == spans[..|spans| - 1] + [spans[|spans| - 1]];
    }
  }

  lemma {:induction false} BlocksRise(info: SequenceInfo, start: nat, end: nat, nodes: seq<Node>, i: nat, k: nat)
    requires IsPath(info, start, end, nodes) && i <= k < |nodes| && nodes[i].At? && nodes[k].At?
    ensures nodes[i].block <= nodes[k].block
    decreases k
  {
    if i < k {
      assert IsEdge(info, start, end, nodes[k - 1], nodes[k]);
      if nodes[k - 1].At? { BlocksRise(info, start, end, nodes, i, k - 1); }
      else { assert IsEdge(info, start, end, nodes[i], nodes[i + 1]); NoClientInside(info, start, end, nodes, k - 1); }
    }
  }

  lemma NoClientInside(info: SequenceInfo, start: nat, end: nat, nodes: seq<Node>, k: nat)
    requires IsPath(info, start, end, nodes) && 0 < k < |nodes|
    ensures nodes[k] != Client
  {
    assert IsEdge(info, start, end, nodes[k - 1], nodes[k]);
  }

  /** A path runs every block on one server only, so the spans that follow it are determined by it. */
  lemma OneServerPerBlock(info: SequenceInfo, start: nat, end: nat, nodes: seq<Node>, p: nat, q: nat, b: nat)
    requires IsPath(info, start, end, nodes) && RunsOn(nodes, p, b) && RunsOn(nodes, q, b)
    ensures p == q
  {
    var i, k :| 0 <= i < k == i + 1 < |nodes| && nodes[i] == At(p, b) && nodes[k] == At(p, b + 1);
    var j, l :| 0 <= j < l == j + 1 < |nodes| && nodes[j] == At(q, b) && nodes[l] == At(q, b + 1);
    if i < j {
      BlocksRise(info, start, end, nodes, k, j);
    } else if j < i {
      BlocksRise(info, start, end, nodes, l, i);
    }
  }

  lemma InnerNodes(info: SequenceInfo, start: nat, end: nat, nodes: seq<Node>, i: nat)
    requires IsPath(info, start, end, nodes) && 0 < i
    ensures i < |nodes| - 1 ==> nodes[i].At? && start <= nodes[i].block
    ensures i == |nodes| - 2 ==> nodes[i].At? && nodes[i].block == end
    ensures |nodes| > 2 && nodes[1].At?
  {
    assert IsEdge(info, start, end, nodes[0], nodes[1]);
    assert IsEdge(info, start, end, nodes[|nodes| - 2], nodes[|nodes| - 1]);
    if i < |nodes| - 1 {
      assert IsEdge(info, start, end, nodes[i - 1], nodes[i]);
      assert IsEdge(info, start, end, nodes[i], nodes[i + 1]);
    }
  }

  lemma NodeKeepsPartial(info: SequenceInfo, start: nat, end: nat, nodes: seq<Node>, i: nat, before: seq<Span>,
                         spans: seq<Span>)
    requires IsPath(info, start, end, nodes) && 0 < i < |nodes| - 1 && nodes[i].At?
    requires if i == 1 then before == [] else nodes[i - 1].At?
                                              && Partial(info, start, before, nodes[i - 1].peer, nodes[i - 1].block)
    requires spans == if |before| == 0 || before[|before| - 1].peer != nodes[i].peer
                      then before + [Span(nodes[i].peer, nodes[i].block, nodes[i].block)]
                      else before[|before| - 1 := before[|before| - 1].(end := nodes[i].block)]
    ensures Partial(info, start, spans, nodes[i].peer, nodes[i].block)
  {
    assert IsEdge(info, start, end, nodes[i - 1], nodes[i]);
    if i == 1 {
      assert NonEmpty(spans[..0]) == [];
    } else if before[|before| - 1].peer != nodes[i].peer {
      PartialEnds(info, start, before, nodes[i - 1].peer, nodes[i - 1].block);
      assert spans[..|spans| - 1] == before;
    } else {
      assert spans[..|spans| - 1] == before[..|before| - 1];
    }
  }

  /** There is a path from the client to the end. */
  ghost predicate Reachable(info: SequenceInfo, start: nat, end: nat)
  {
    exists nodes :: IsPath(info, start, end, nodes)
  }

  /** From a server at a block it serves, the rest of the way can be found. */
  lemma {:induction false} WayFrom(info: SequenceInfo, start: nat, end: nat, peer: nat, b: nat)
    returns (nodes: seq<Node>)
    requires info.Valid() && NothingMissing(info, start, end) && start <= b < end && Serves(info, peer, b)
    ensures |nodes| >= 2 && nodes[0] == At(peer, b) && nodes[|nodes| - 1] == Done
    ensures forall i, k | 0 <= i < k == i + 1 < |nodes| :: IsEdge(info, start, end, nodes[i], nodes[k])
    decreases end - b
  {
    if b + 1 == end {
      nodes := [At(peer, b), At(peer, end), Done];
    } else if Serves(info, peer, b + 1) {
      var rest := WayFrom(info, start, end, peer, b + 1);
      nodes := [At(peer, b)] + rest;
    } else {
      assert !IsMissing(info, b + 1);
      LeavesAtEnd(info, peer, b);
      var next := info.containing[b + 1][0];
      assert Has(info, next, b + 1);
      var rest := WayFrom(info, start, end, next.peer, b + 1);
      nodes := [At(peer, b), At(peer, b + 1)] + rest;
    }
  }

  lemma LeavesAtEnd(info: SequenceInfo, peer: nat, b: nat)
    requires info.Valid() && Serves(info, peer, b) && !Serves(info, peer, b + 1) && b + 1 < |info.containing|
    ensures EndsBefore(info, peer, b + 1)
  {
    var span :| Has(info, span, b) && span.peer == peer;
    assert Has(info, span, b + 1) <==> b + 1 < span.end;
  }

  /** A path exists if and only if no block is missing. */
  lemma ReachableIffNothingMissing(info: SequenceInfo, start: nat, end: nat)
    requires info.Valid() && start < end
    ensures Reachable(info, start, end) <==> NothingMissing(info, start, end)
  {
    if NothingMissing(info, start, end) {
      assert !IsMissing(info, start);
      var first := info.containing[start][0];
      assert Has(info, first, start);
      var rest := WayFrom(info, start, end, first.peer, start);
      assert IsPath(info, start, end, [Client] + rest);
    } else if Reachable(info, start, end) {
      var nodes :| IsPath(info, start, end, nodes);
      PathServesAll(info, start, end, nodes);
      assert false;
    }
  }

  lemma PathServesAll(info: SequenceInfo, start: nat, end: nat, nodes: seq<Node>)
    requires start < end && IsPath(info, start, end, nodes)
    ensures NothingMissing(info, start, end)
  {
    InnerNodes(info, start, end, nodes, |nodes| - 2);
    forall b | start <= b < end ensures !IsMissing(info, b) {
      var i := LastAtOrBelow(info, start, end, nodes, b, |nodes| - 2);
      assert IsEdge(info, start, end, nodes[i], nodes[i + 1]);
      assert Serves(info, nodes[i].peer, b);
    }
  }

  /** Going back from a node beyond block `b`, there is a step from `b` to `b` + 1. */
  lemma {:induction false} LastAtOrBelow(info: SequenceInfo, start: nat, end: nat, nodes: seq<Node>, b: nat, from: nat)
    returns (i: nat)
    requires IsPath(info, start, end, nodes) && start <= b < end && 0 < from < |nodes| - 1
    requires nodes[from].At? && nodes[from].block > b
    ensures 0 < i < from && nodes[i].At? && nodes[i + 1].At? && nodes[i].block == b && nodes[i + 1].block == b + 1
  {
    assert IsEdge(info, start, end, nodes[from - 1], nodes[from]);
    if nodes[from - 1].At? && nodes[from - 1].block > b {
      i := LastAtOrBelow(info, start, end, nodes, b, from - 1);
    } else {
      i := from - 1;
    }
  }

  // ----- building the graph -----

  ghost predicate HasPeer(spans: seq<Advert>, peer: nat)
  {
    exists span :: span in spans && span.peer == peer
  }

  ghost predicate HasPeerEnding(spans: seq<Advert>, peer: nat, b: nat)
  {
    exists span :: span in spans && span.peer == peer && span.end == b
  }

  lemma OneSpanMore(spans: seq<Advert>, i: nat, peer: nat, b: nat)
    requires i < |spans|
    ensures HasPeer(spans[..i + 1], peer) <==> HasPeer(spans[..i], peer) || spans[i].peer == peer
    ensures HasPeerEnding(spans[..i + 1], peer, b) <==> HasPeerEnding(spans[..i], peer, b)
                                                        || (spans[i].peer == peer && spans[i].end == b)
  {
    assert spans[..i + 1] == spans[..i] + [spans[i]];
    if HasPeer(spans[..i], peer) {
      var span :| span in spans[..i] && span.peer == peer;
      assert span in spans[..i + 1];
    }
    if HasPeerEnding(spans[..i], peer, b) {
      var span :| span in spans[..i] && span.peer == peer && span.end == b;
      assert span in spans[..i + 1];
    }
    assert spans[i] in spans[..i + 1];
  }

  /** Edges from one node to all servers in a list, at block `b`. */
  method EdgesFrom(u: Node, spans: seq<Advert>, b: nat) returns (edges: set<Edge>)
    ensures forall v, w :: (v, w) in edges <==> v == u && w.At? && w.block == b && HasPeer(spans, w.peer)
  {
    edges := {};
    for i := 0 to |spans|
      invariant forall v, w :: (v, w) in edges <==> v == u && w.At? && w.block == b && HasPeer(spans[..i], w.peer)
    {
      forall p { OneSpanMore(spans, i, p, b); }
      edges := edges + {(u, At(spans[i].peer, b))};
    }
    assert spans[..|spans|] == spans;
  }

  method EdgesToEnd(spans: seq<Advert>, end: nat) returns (edges: set<Edge>)
    ensures forall v, w :: (v, w) in edges <==> w == Done && v.At? && v.block == end && HasPeer(spans, v.peer)
  {
    edges := {};
    for i := 0 to |spans|
      invariant forall v, w :: (v, w) in edges <==> w == Done && v.At? && v.block == end && HasPeer(spans[..i], v.peer)
    {
      forall p { OneSpanMore(spans, i, p, end); }
      edges := edges + {(At(spans[i].peer, end), Done)};
    }
    assert spans[..|spans|] == spans;
  }

  /** Edges between the servers whose span ends before block `b` and the servers that contain it. */
  method SwitchEdges(current: seq<Advert>, next: seq<Advert>, b: nat) returns (edges: set<Edge>)
    ensures forall v, w :: (v, w) in edges <==>
              v.At? && w.At? && v.block == w.block == b && HasPeerEnding(current, v.peer, b) && HasPeer(next, w.peer)
  {
    edges := {};
    for i := 0 to |current|
      invariant forall v, w :: (v, w) in edges <==>
                  v.At? && w.At? && v.block == w.block == b && HasPeerEnding(current[..i], v.peer, b)
                  && HasPeer(next, w.peer)
    {
      forall p { OneSpanMore(current, i, p, b); }
      if current[i].end == b {
        var more := EdgesFrom(At(current[i].peer, b), next, b);
        edges := edges + more;
      }
    }
    assert current[..|current|] == current;
  }

  /** Is the edge a step of one of these servers to its next block? */
  ghost predicate Steps(spans: seq<Advert>, start: nat, end: nat, v: Node, w: Node)
  {
    v.At? && w.At? && v.peer == w.peer && w.block == v.block + 1 && start <= v.block < end
    && exists span :: span in spans && span.peer == v.peer && span.start <= v.block < span.end
  }

  method StepEdges(spans: seq<Advert>, start: nat, end: nat) returns (edges: set<Edge>)
    ensures forall v, w :: (v, w) in edges <==> Steps(spans, start, end, v, w)
  {
    edges := {};
    for i := 0 to |spans|
      invariant forall v, w :: (v, w) in edges <==> Steps(spans[..i], start, end, v, w)
    {
      var more := StepEdgesOf(spans[i], start, end);
      assert spans[..i + 1] == spans[..i] + [spans[i]];
      forall v, w ensures Steps(spans[..i + 1], start, end, v, w) <==>
          Steps(spans[..i], start, end, v, w) || Steps([spans[i]], start, end, v, w) {
        MoreSteps(spans[..i], spans[i], start, end, v, w);
      }
      edges := edges + more;
    }
    assert spans[..|spans|] == spans;
  }

  lemma MoreSteps(spans: seq<Advert>, span: Advert, start: nat, end: nat, v: Node, w: Node)
    ensures Steps(spans + [span], start, end, v, w) <==>
              Steps(spans, start, end, v, w) || Steps([span], start, end, v, w)
  {
    if Steps(spans, start, end, v, w) {
      var s :| s in spans && s.peer == v.peer && s.start <= v.block < s.end;
      assert s in spans + [span];
    }
    if Steps([span], start, end, v, w) {
      assert span in spans + [span];
    }
  }

  method StepEdgesOf(span: Advert, start: nat, end: nat) returns (edges: set<Edge>)
    ensures forall v, w :: (v, w) in edges <==> Steps([span], start, end, v, w)
  {
    edges := {};
    var b: int := if span.start >= start then span.start else start;
    ghost var first := b;
    var stop := if span.end <= end then span.end else end;
    while b < stop
      invariant first <= b && (b <= stop || b == first)
      invariant forall v, w :: (v, w) in edges <==> v.At? && w == At(span.peer, v.block + 1) && v.peer == span.peer
                                                    && first <= v.block < b
    {
      edges := edges + {(At(span.peer, b), At(span.peer, b + 1))};
      b := b + 1;
    }
    assert forall v, w :: Steps([span], start, end, v, w) <==>
             v.At? && w.At? && v.peer == w.peer == span.peer && w.block == v.block + 1 && start <= v.block < end
             && span.start <= v.block < span.end by {
      assert span in [span];
    }
  }

  /** The missing blocks, which are what an error of the following methods names. */
  method FindMissing(info: SequenceInfo, start: nat, end: nat) returns (missing: seq<nat>)
    requires start <= end
    ensures missing == [] <==> NothingMissing(info, start, end)
    ensures forall b :: b in missing <==> start <= b < end && IsMissing(info, b)
  {
    missing := [];
    for b := start to end
      invariant forall c :: c in missing <==> start <= c < b && IsMissing(info, c)
    {
      if IsMissing(info, b) { missing := missing + [b]; }
    }
    assert missing != [] ==> missing[0] in missing;
  }

  /** The graph has exactly the edges of the definition above; it is built only when no block is missing. */
  method BuildInferenceGraph(info: SequenceInfo, start: nat, end: nat) returns (r: Result<set<Edge>, seq<nat>>)
    requires info.Valid() && start < end
    ensures r.Ok? <==> NothingMissing(info, start, end)
    ensures r.Ok? ==> forall v, w :: (v, w) in r.value <==> IsEdge(info, start, end, v, w)
    ensures r.Err? ==> forall b :: b in r.error <==> start <= b < end && IsMissing(info, b)
  {
    var missing := FindMissing(info, start, end);
    if |missing| > 0 { return Err(missing); }
    assert !IsMissing(info, start) && !IsMissing(info, end - 1);
    var first := EdgesFrom(Client, info.containing[start], start);
    var last := EdgesToEnd(info.containing[end - 1], end);
    var switches := AllSwitchEdges(info, start, end);
    var steps := StepEdges(info.byPriority, start, end);
    forall v, w ensures (v, w) in first + last + switches + steps <==> IsEdge(info, start, end, v, w) {
      EdgeKinds(info, start, end, v, w);
    }
    r := Ok(first + last + switches + steps);
  }

  ghost predicate Switches(info: SequenceInfo, start: nat, b: nat, v: Node, w: Node)
  {
    v.At? && w.At? && v.block == w.block && start < v.block < b <= |info.containing|
    && HasPeerEnding(info.containing[v.block - 1], v.peer, v.block) && HasPeer(info.containing[v.block], w.peer)
  }

  method AllSwitchEdges(info: SequenceInfo, start: nat, end: nat) returns (edges: set<Edge>)
    requires start < end <= |info.containing|
    ensures forall v, w :: (v, w) in edges <==> Switches(info, start, end, v, w)
  {
    edges := {};
    for b := start + 1 to end
      invariant forall v, w :: (v, w) in edges <==> Switches(info, start, b, v, w)
    {
      var more := SwitchEdges(info.containing[b - 1], info.containing[b], b);
      edges := edges + more;
    }
  }

  lemma EdgeKinds(info: SequenceInfo, start: nat, end: nat, v: Node, w: Node)
    requires info.Valid() && start < end <= |info.containing|
    ensures IsEdge(info, start, end, v, w) <==>
            || (v == Client && w.At? && w.block == start && HasPeer(info.containing[start], w.peer))
            || (w == Done && v.At? && v.block == end && HasPeer(info.containing[end - 1], v.peer))
            || Switches(info, start, end, v, w)
            || Steps(info.byPriority, start, end, v, w)
  {
  }

  // ----- routes -----

  /** A chain of servers for blocks [start, end) along any path of the graph. */
  method MakeSequenceWithMinLatency(info: SequenceInfo, start: nat, end: nat, path: seq<Node>)
    returns (r: Result<seq<Span>, seq<nat>>)
    requires info.Valid() && start <= end
    requires start < end && Reachable(info, start, end) ==> IsPath(info, start, end, path)
    ensures r.Ok? <==> NothingMissing(info, start, end)
    ensures r.Ok? ==> Tiles(r.value, start, end) && forall span | span in r.value :: Inside(info, span)
    ensures r.Ok? ==> FollowPath(path, r.value)
  {
    if start == end { return Ok([]); }
    ReachableIffNothingMissing(info, start, end);
    var graph := BuildInferenceGraph(info, start, end);
    if graph.Err? { return Err(graph.error); }
    var spans := SpansOfPath(info, start, end, path);
    r := Ok(spans);
  }

  /** The servers that are drawn, one after the other, to get from `current` past `end`; none if a block is missing. */
  function Drawn(info: SequenceInfo, current: nat, end: nat, draw: nat -> nat): (route: Option<seq<Span>>)
    requires info.Valid() && end <= |info.containing|
    decreases if current < end then end - current else 0
  {
    if current >= end then Some([])
    else if IsMissing(info, current) then None
    else
      var chosen := Chosen(info, current, draw);
      var rest := Drawn(info, chosen.end, end, draw);
      if rest.None? then None else Some([Span(chosen.peer, current, chosen.end)] + rest.value)
  }

  /** One of the servers that hold the block. */
  function Chosen(info: SequenceInfo, current: nat, draw: nat -> nat): (chosen: Advert)
    requires info.Valid() && !IsMissing(info, current)
    ensures chosen in info.byPriority && chosen.start <= current < chosen.end <= |info.containing|
  {
    var candidates := info.containing[current];
    assert candidates[0] in candidates;
    if draw(current) < |candidates| then (assert candidates[draw(current)] in candidates; candidates[draw(current)])
        else candidates[0]
  }

  /** Any server that holds the block can be drawn, and it is used up to the end of its span. */
  lemma DrawDecides(info: SequenceInfo, current: nat, end: nat, draw: nat -> nat)
    requires info.Valid() && current < end <= |info.containing| && draw(current) < |info.containing[current]|
    ensures var drawn := info.containing[current][draw(current)];
            && Chosen(info, current, draw) == drawn
            && var route := Drawn(info, current, end, draw);
              route.Some? ==> |route.value| > 0 && drawn.end >= 0
                              && route.value[0] == Span(drawn.peer, current, drawn.end)
  {
  }

  lemma {:induction false} DrawnCovers(info: SequenceInfo, current: nat, end: nat, draw: nat -> nat)
    requires info.Valid() && end <= |info.containing|
    ensures var route := Drawn(info, current, end, draw);
            && (route.Some? && current < end ==> Covers(route.value, current, end))
            && (route.Some? ==> forall span | span in route.value :: Inside(info, span))
            && (NothingMissing(info, current, end) ==> route.Some?)
    decreases if current < end then end - current else 0
  {
    if current < end && !IsMissing(info, current) {
      var chosen := Chosen(info, current, draw);
      DrawnCovers(info, chosen.end, end, draw);
      InsideAdvert(info, chosen, Span(chosen.peer, current, chosen.end));
      var rest := Drawn(info, chosen.end, end, draw);
      if rest.Some? { CoversFirst(Span(chosen.peer, current, chosen.end), rest.value, end); }
    }
  }

  /** Servers drawn at random among those that hold the next block; the last one may hold blocks past `end`. */
  method MakeSequenceWithMaxThroughput(info: SequenceInfo, start: nat, end: nat, draw: nat -> nat)
    returns (r: Result<seq<Span>, seq<nat>>)
    requires info.Valid() && start <= end <= |info.containing|
    ensures r.Ok? && start < end ==> Covers(r.value, start, end) && Tiles(Clipped(r.value, end), start, end)
    ensures r.Ok? ==> forall span | span in r.value :: Inside(info, span)
    ensures NothingMissing(info, start, end) ==> r.Ok?
    ensures r.Err? ==> |r.error| == 1 && start <= r.error[0] < end && IsMissing(info, r.error[0])
    ensures Drawn(info, start, end, draw) == if r.Ok? then Some(r.value) else None
  {
    var spans: seq<Span> := [];
    var current := start;
    BeforeOnly(spans, Drawn(info, start, end, draw));
    while current < end
      invariant start <= current
      invariant Drawn(info, start, end, draw) == Before(spans, Drawn(info, current, end, draw))
    {
      if IsMissing(info, current) { return Err([current]); }
      var candidates := info.containing[current];
      var chosen := if draw(current) < |candidates| then candidates[draw(current)] else candidates[0];
      assert chosen == Chosen(info, current, draw);
      BeforeNext(spans, Span(chosen.peer, current, chosen.end), Drawn(info, chosen.end, end, draw));
      spans := spans + [Span(chosen.peer, current, chosen.end)];
      current := chosen.end;
    }
    BeforeOnly(spans, None);
    DrawnCovers(info, start, end, draw);
    if start < end { ClippedTiles(spans, start, end); }
    r := Ok(spans);
  }

  ghost function Before(spans: seq<Span>, rest: Option<seq<Span>>): Option<seq<Span>>
  {
    if rest.None? then None else Some(spans + rest.value)
  }

  lemma BeforeOnly(spans: seq<Span>, rest: Option<seq<Span>>)
    ensures Before(spans, Some([])) == Some(spans) && Before([], rest) == rest
  {
    assert spans + [] == spans;
    if rest.Some? { assert [] + rest.value == rest.value; }
  }

  lemma BeforeNext(spans: seq<Span>, span: Span, rest: Option<seq<Span>>)
    ensures Before(spans, if rest.None? then None else Some([span] + rest.value)) == Before(spans + [span], rest)
  {
    if rest.Some? { assert spans + ([span] + rest.value) == spans + [span] + rest.value; }
  }

  lemma InsideAdvert(info: SequenceInfo, advert: Advert, span: Span)
    requires info.Valid() && advert in info.byPriority && span.peer == advert.peer && advert.start <= span.start
             && span.end <= advert.end
    ensures Inside(info, span)
  {
    forall b | span.start <= b < span.end ensures Serves(info, span.peer, b) {
      assert Has(info, advert, b);
    }
  }
}
