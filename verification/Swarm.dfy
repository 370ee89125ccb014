/**
 From announcements to outputs and gradients: the spans that servers announce, the routes drawn from them, and the
 training passes that run on these routes.
 */
module Swarm {
  import opened ChainRule
  import opened Failures
  import opened FiniteSets
  import opened Routing
  import opened SequentialAutograd
  import opened SpanTilings
  import opened Wrappers

  /** What is announced for the blocks of the model at one time, and what the random draws will be. */
  datatype Snapshot = Snapshot(infos: seq<map<nat, ServerInfo>>, offset: int, minState: int, draw: nat -> nat,
                               answered: bool)

  /** Peer `p` announces block `b`, by itself or as part of its range. */
  predicate Announces(s: Snapshot, p: nat, b: nat)
  {
    var e := EntryOf(s.infos, p, |s.infos|, s.offset, s.minState);
    e.Some? && e.value.span.start <= b < e.value.span.end
  }

  /** The spans of all servers, one for each that is up. */
  ghost predicate Lists(s: Snapshot, spans: seq<Advert>)
  {
    && (forall i, j | 0 <= i < j < |spans| :: spans[i].peer != spans[j].peer)
    && (forall span | span in spans :: span.end <= |s.infos|)
    && forall span :: span in spans <==> IsSpanOf(s, span)
  }

  ghost predicate IsSpanOf(s: Snapshot, span: Advert)
  {
    var e := EntryOf(s.infos, span.peer, |s.infos|, s.offset, s.minState);
    e.Some? && e.value.span == span
  }

  method AnnouncedSpans(s: Snapshot) returns (spans: seq<Advert>)
    ensures Lists(s, spans)
  {
    var entries := ComputeSpans(s.infos, s.offset, s.minState);
    var peers := InOrder(entries.Keys);
    InOrderHasAll(entries.Keys);
    spans := seq(|peers|, i requires 0 <= i < |peers| && peers[i] in entries => entries[peers[i]].span);
    forall p | p in entries
      ensures entries[p].span.peer == p && entries[p].span.end <= |s.infos| && IsSpanOf(s, entries[p].span)
    {
      EntriesAreInRange(s.infos, p, |s.infos|, s.offset, s.minState);
      assert Found(entries, p) == EntryOf(s.infos, p, |s.infos|, s.offset, s.minState);
    }
    forall span | IsSpanOf(s, span) ensures span in spans {
      assert Found(entries, span.peer).Some?;
      assert span.peer in peers;
      var i :| 0 <= i < |peers| && peers[i] == span.peer;
      assert spans[i] == span;
    }
  }

  /** What the router knows after an update: exactly what is announced. */
  method Update(s: Snapshot) returns (info: SequenceInfo)
    ensures info.Valid() && |info.containing| == |s.infos|
    ensures forall p: nat, b: nat | b < |s.infos| :: Serves(info, p, b) <==> Announces(s, p, b)
  {
    var spans := AnnouncedSpans(s);
    info := SortSpans(spans, |s.infos|);
    SameSpans(info.byPriority, spans);
    forall p: nat, b: nat | b < |s.infos| ensures Serves(info, p, b) <==> Announces(s, p, b) {
      ServesAnnounced(s, info, p, b);
    }
  }

  lemma SameSpans(a: seq<Advert>, b: seq<Advert>)
    requires multiset(a) == multiset(b)
    ensures forall span :: span in a <==> span in b
  {
    forall span ensures span in a <==> span in b {
      assert span in a <==> span in multiset(a);
      assert span in b <==> span in multiset(b);
    }
  }

  lemma ServesAnnounced(s: Snapshot, info: SequenceInfo, p: nat, b: nat)
    requires info.Valid() && |info.containing| == |s.infos| && b < |s.infos|
    requires forall span :: span in info.byPriority <==> IsSpanOf(s, span)
    ensures Serves(info, p, b) <==> Announces(s, p, b)
  {
    EntriesAreInRange(s.infos, p, |s.infos|, s.offset, s.minState);
    if Announces(s, p, b) {
      var span := EntryOf(s.infos, p, |s.infos|, s.offset, s.minState).value.span;
      assert IsSpanOf(s, span);
      assert Has(info, span, b);
    }
  }

  // ----- routes made from announcements -----

  /** Each of the blocks is announced by somebody. */
  ghost predicate EveryBlockAnnounced(s: Snapshot, from: nat, to: nat)
  {
    forall b | from <= b < to :: AnnouncedBySome(s, b)
  }

  ghost predicate AnnouncedBySome(s: Snapshot, b: nat)
  {
    exists p: nat :: Announces(s, p, b)
  }

  ghost predicate AnnouncesAll(s: Snapshot, span: Span)
  {
    forall b | span.start <= b < span.end :: Announces(s, span.peer, b)
  }

  /** The event's routes are made of announced spans, and there is one wherever every block is announced. */
  ghost predicate MadeFrom(s: Snapshot, e: Event)
  {
    && e.answered == s.answered
    && (forall a: nat, b: nat | a < b <= |s.infos| && EveryBlockAnnounced(s, a, b) :: Covers(e.route(a, b), a, b))
    && (forall a: nat, b: nat, span | span in e.route(a, b) :: AnnouncesAll(s, span))
  }

  function RouteOf(info: SequenceInfo, a: nat, b: nat, draw: nat -> nat): (route: seq<Span>)
    requires info.Valid()
  {
    if a < b <= |info.containing| && Drawn(info, a, b, draw).Some? then Drawn(info, a, b, draw).value else []
  }

  lemma RouteIsAnnounced(s: Snapshot, info: SequenceInfo, a: nat, b: nat)
    requires info.Valid() && |info.containing| == |s.infos|
    requires forall p: nat, c: nat | c < |s.infos| :: Routing.Serves(info, p, c) <==> Announces(s, p, c)
    ensures forall span | span in RouteOf(info, a, b, s.draw) :: AnnouncesAll(s, span)
    ensures a < b <= |s.infos| && EveryBlockAnnounced(s, a, b) ==> Covers(RouteOf(info, a, b, s.draw), a, b)
  {
    if a < b <= |s.infos| {
      DrawnCovers(info, a, b, s.draw);
      forall span, c | span in RouteOf(info, a, b, s.draw)
          && span.start <= c < span.end ensures Announces(s, span.peer, c) {
        assert Inside(info, span);
        assert Routing.Serves(info, span.peer, c);
      }
      if EveryBlockAnnounced(s, a, b) {
        forall c | a <= c < b ensures !IsMissing(info, c) {
          assert AnnouncedBySome(s, c);
          var p: nat :| Announces(s, p, c);
          assert Routing.Serves(info, p, c);
        }
      }
    }
  }

  method MakeEvent(s: Snapshot) returns (e: Event)
    ensures MadeFrom(s, e)
  {
    var info := Update(s);
    e := Event((a: nat, b: nat) => RouteOf(info, a, b, s.draw), s.answered);
    forall a: nat, b: nat
      ensures a < b <= |s.infos| && EveryBlockAnnounced(s, a, b) ==> Covers(e.route(a, b), a, b)
      ensures forall span | span in e.route(a, b) :: AnnouncesAll(s, span)
    {
      RouteIsAnnounced(s, info, a, b);
    }
  }

  method MakeSchedule(snapshots: seq<Snapshot>) returns (schedule: seq<Event>)
    ensures |schedule| == |snapshots| && forall k | 0 <= k < |snapshots| :: MadeFrom(snapshots[k], schedule[k])
  {
    schedule := [];
    for i := 0 to |snapshots|
      invariant |schedule| == i && forall k | 0 <= k < i :: MadeFrom(snapshots[k], schedule[k])
    {
      var e := MakeEvent(snapshots[i]);
      schedule := schedule + [e];
    }
  }

  // ----- training passes on these routes -----

  /** In some snapshot the server announces all blocks of the span. */
  ghost predicate AnnouncedOnce(snapshots: seq<Snapshot>, span: Span)
  {
    exists k :: 0 <= k < |snapshots| && AnnouncesAll(snapshots[k], span)
  }

  lemma OfferedIsAnnounced(snapshots: seq<Snapshot>, schedule: seq<Event>, from: nat, to: nat, hi: nat, span: Span)
    requires |schedule| == |snapshots| && forall k | 0 <= k < |snapshots| :: MadeFrom(snapshots[k], schedule[k])
    requires OfferedIn(schedule, from, to, hi, span)
    ensures AnnouncedOnce(snapshots, span)
  {
    var k: nat, a: nat :| from <= k < to && OfferedAt(schedule, k, a, hi, span);
    assert MadeFrom(snapshots[k], schedule[k]);
    var route := schedule[k].route(a, hi);
    var i :| 0 <= i < |route| && Clipped(route, hi)[i] == span;
    assert AnnouncesAll(snapshots[k], route[i]);
    assert AnnouncesAll(snapshots[k], span);
  }

  /** Everybody answers, and at first every block is announced. */
  ghost predicate NothingFails(snapshots: seq<Snapshot>, lo: nat, hi: nat)
  {
    && hi - lo <= |snapshots| && (forall k | 0 <= k < |snapshots| :: snapshots[k].answered)
    && (0 < |snapshots| && lo < hi ==> EveryBlockAnnounced(snapshots[0], lo, hi))
  }

  /** The forward pass over a swarm: it runs all blocks, each on a server that announces it, whatever changes on the
      way. */
  method ForwardOverSwarm<X, P, G, Q>(c: Chain<X, P, G, Q>, x: X, maxRetries: Option<nat>, snapshots: seq<Snapshot>)
    returns (r: Option<Forwarded<X>>)
    requires c.Valid() && |c.blocks| > 0 && forall k | 0 <= k < |snapshots| :: |snapshots[k].infos| == |c.blocks|
    ensures r.Some? ==> r.value.output == c.Run(0, |c.blocks|, x)
                        && Recorded(c, 0, |c.blocks|, x, r.value.inputs, r.value.spans)
    ensures r.Some? ==> forall span | span in r.value.spans :: AnnouncedOnce(snapshots, span)
    ensures NothingFails(snapshots, 0, |c.blocks|) ==> r.Some?
  {
    var schedule := MakeSchedule(snapshots);
    if NothingFails(snapshots, 0, |c.blocks|) {
      assert MadeFrom(snapshots[0], schedule[0]);
    }
    ghost var times;
    var now;
    r, now, times := SequentialForward(c, x, 0, |c.blocks|, maxRetries, schedule, 0);
    if r.Some? {
      forall span | span in r.value.spans ensures AnnouncedOnce(snapshots, span) {
        OfferedIsAnnounced(snapshots, schedule, 0, now, |c.blocks|, span);
      }
    }
  }

  /** As many answers as there can be spans. */
  predicate AllAnswerBack(snapshots: seq<Snapshot>, n: nat)
  {
    n <= |snapshots| && forall k | 0 <= k < |snapshots| :: snapshots[k].answered
  }

  /** Forward, a loss, and backward: what comes back are the output of all blocks and its gradients. */
  method TrainStep<X, P, G, Q>(c: Chain<X, P, G, Q>, x: X, loss: X -> G, maxRetries: Option<nat>, forth: seq<Snapshot>,
                               back: seq<Snapshot>)
    returns (r: Option<(X, G, Option<seq<Q>>)>)
    requires c.Valid() && |c.blocks| > 0 && forall k | 0 <= k < |forth| :: |forth[k].infos| == |c.blocks|
    ensures r.Some? ==>
              var y := c.Run(0, |c.blocks|, x);
              && r.value.0 == y && r.value.1 == c.Gradient(0, |c.blocks|, x, loss(y))
              && r.value.2 == if c.prompts.Some? then Some(c.PromptGradients(0, |c.blocks|, x, loss(y))) else None
    ensures NothingFails(forth, 0, |c.blocks|) && AllAnswerBack(back, |c.blocks|) ==> r.Some?
  {
    var forward := ForwardOverSwarm(c, x, maxRetries, forth);
    if forward.None? { return None; }
    var f := forward.value;
    var schedule := MakeSchedule(back);
    TilesCount(f.spans, 0, |c.blocks|);
    ghost var visits;
    var result, now;
    result, now, visits := SequentialBackward(c, loss(f.output), f.inputs, f.spans, maxRetries, schedule, 0, 0,
                                              |c.blocks|, x);
    assert AllAnswerBack(back, |c.blocks|) ==> AllAnswer(schedule);
    if result.None? { return None; }
    r := Some((f.output, result.value.0, result.value.1));
  }
}
