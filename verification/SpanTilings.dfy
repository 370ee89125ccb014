/** Spans of consecutive blocks on servers, and sequences of spans that cover a range of blocks exactly. */
module SpanTilings {

  datatype Span = Span(peer: nat, start: nat, end: nat)

  /** Consecutive non-empty spans from `from` to `to`; no spans at all when the range is empty. */
  predicate Tiles(spans: seq<Span>, from: nat, to: nat)
  {
    if |spans| == 0 then from == to
    else
      var last := spans[|spans| - 1];
      last.start < last.end == to && Tiles(spans[..|spans| - 1], from, last.start)
  }

  /** Consecutive non-empty spans from `from` on, of which only the last may reach past `to`. */
  predicate Covers(route: seq<Span>, from: nat, to: nat)
  {
    |route| > 0 && route[|route| - 1].start < to <= route[|route| - 1].end
    && Tiles(route[..|route| - 1], from, route[|route| - 1].start)
  }

  /** The last span ends at `to` at the latest. */
  function Clipped(route: seq<Span>, to: nat): seq<Span>
    requires |route| > 0
  {
    var last := route[|route| - 1];
    route[|route| - 1 := last.(end := if last.end <= to then last.end else to)]
  }

  lemma ClippedTiles(route: seq<Span>, from: nat, to: nat)
    requires Covers(route, from, to)
    ensures Tiles(Clipped(route, to), from, to)
  {
    assert Clipped(route, to)[..|route| - 1] == route[..|route| - 1];
  }

  lemma {:induction false} TilesRange(spans: seq<Span>, from: nat, to: nat)
    requires Tiles(spans, from, to)
    ensures from <= to && (from == to <==> |spans| == 0)
  {
    if |spans| > 0 {
      TilesRange(spans[..|spans| - 1], from, spans[|spans| - 1].start);
    }
  }

  lemma TilesAppend(spans: seq<Span>, from: nat, mid: nat, span: Span)
    requires Tiles(spans, from, mid) && span.start == mid < span.end
    ensures Tiles(spans + [span], from, span.end)
  {
    assert (spans + [span])[..|spans|] == spans;
  }

  lemma {:induction false} TilesConcat(first: seq<Span>, second: seq<Span>, from: nat, mid: nat, to: nat)
    requires Tiles(first, from, mid) && Tiles(second, mid, to)
    ensures Tiles(first + second, from, to)
  {
    if |second| == 0 {
      assert first + second == first;
    } else {
      var n := |second| - 1;
      TilesConcat(first, second[..n], from, mid, second[n].start);
      assert first + second == first + second[..n] + [second[n]];
      TilesAppend(first + second[..n], from, second[n].start, second[n]);
    }
  }

  /** Seen from the front, the first span begins where the range does, and the rest tiles what it leaves. */
  lemma {:induction false} TilesFirst(spans: seq<Span>, from: nat, to: nat)
    requires Tiles(spans, from, to) && |spans| > 0
    ensures spans[0].start == from < spans[0].end <= to && Tiles(spans[1..], spans[0].end, to)
  {
    var n := |spans| - 1;
    if n > 0 {
      TilesFirst(spans[..n], from, spans[n].start);
      assert spans[..n][1..] == spans[1..n] == spans[1..][..n - 1];
    } else {
      assert Tiles(spans[..0], from, spans[0].start);
    }
  }

  lemma {:induction false} TilesAt(spans: seq<Span>, from: nat, to: nat, i: nat)
    requires Tiles(spans, from, to) && i < |spans|
    ensures from <= spans[i].start < spans[i].end <= to
    ensures spans[0].start == from && spans[|spans| - 1].end == to
    ensures i + 1 < |spans| ==> spans[i].end == spans[i + 1].start
  {
    var n := |spans| - 1;
    TilesFirst(spans, from, to);
    TilesRange(spans[..n], from, spans[n].start);
    if i < n {
      TilesAt(spans[..n], from, spans[n].start, i);
    }
  }

  lemma {:induction false} TilesInside(spans: seq<Span>, from: nat, to: nat)
    requires Tiles(spans, from, to)
    ensures forall i | 0 <= i < |spans| :: from <= spans[i].start < spans[i].end <= to
    ensures forall j | 0 <= j < |spans| :: Tiles(spans[..j], from, spans[j].start)
  {
    if |spans| > 0 {
      var n := |spans| - 1;
      TilesInside(spans[..n], from, spans[n].start);
      TilesRange(spans[..n], from, spans[n].start);
      forall j | 0 <= j < n ensures Tiles(spans[..j], from, spans[j].start) {
        assert spans[..n][..j] == spans[..j] && spans[..n][j] == spans[j];
      }
    }
  }

  /** A route that begins with `span` and goes on with a route from its end. */
  lemma CoversFirst(span: Span, rest: seq<Span>, to: nat)
    requires span.start < span.end && span.start < to && if span.end < to then Covers(rest, span.end, to)
             else rest == []
    ensures Covers([span] + rest, span.start, to)
  {
    var route := [span] + rest;
    if rest == [] {
      assert route[..0] == [];
    } else {
      var n := |rest| - 1;
      TilesAppend([], span.start, span.start, span);
      assert [] + [span] == [span];
      TilesConcat([span], rest[..n], span.start, span.end, rest[n].start);
      assert route[..n + 1] == [span] + rest[..n];
    }
  }

  /** There are at most as many spans as blocks. */
  lemma {:induction false} TilesCount(spans: seq<Span>, from: nat, to: nat)
    requires Tiles(spans, from, to)
    ensures from + |spans| <= to
  {
    if |spans| > 0 {
      TilesCount(spans[..|spans| - 1], from, spans[|spans| - 1].start);
    }
  }
}
