/** The list of server sessions of an inference session, repaired whenever a server fails. */
module SessionChain {
  import opened SpanTilings
  import opened Failures
  import opened Wrappers

  /** `items` with `updated` in the place of item `at`, or behind all others. */
  function Spliced<X>(items: seq<X>, updated: seq<X>, at: nat): (spliced: seq<X>)
    requires at <= |items|
    ensures |spliced| == at + |updated| + if at < |items| then |items| - at - 1 else 0
    ensures forall i | 0 <= i < |spliced| ::
              spliced[i] == if i < at then items[i] else if i < at + |updated| then updated[i - at]
                                                         else items[i - |updated| + 1]
  {
    items[..at] + updated + if at < |items| then items[at + 1..] else []
  }

  /** Every session pushes to the one behind it, and the last one to nobody. */
  ghost predicate InLine(ids: seq<nat>, next: map<nat, nat>)
  {
    forall i | 0 <= i < |ids| :: PushesOn(ids, next, i)
  }

  predicate PushesOn(ids: seq<nat>, next: map<nat, nat>, i: nat)
    requires i < |ids|
  {
    if i + 1 < |ids| then ids[i] in next && next[ids[i]] == ids[i + 1] else ids[i] !in next
  }

  /** Different sessions, all among the first `entered`. */
  ghost predicate Entered(ids: seq<nat>, entered: nat)
  {
    && (forall i | 0 <= i < |ids| :: ids[i] < entered)
    && (forall i, j | 0 <= i < j < |ids| :: ids[i] != ids[j])
  }

  /** The links of the sessions [from, to) are set to the sessions behind them. */
  ghost predicate Relinked(ids: seq<nat>, next: map<nat, nat>, next': map<nat, nat>, from: nat, to: nat)
  {
    && from <= to < |ids|
    && (forall i | from <= i < to :: ids[i] in next' && next'[ids[i]] == ids[i + 1])
    && (forall i | 0 <= i < |ids| && !(from <= i < to) ::
          (ids[i] in next' <==> ids[i] in next) && (ids[i] in next ==> next'[ids[i]] == next[ids[i]]))
    && forall id | id in next' :: id in next || id in ids
  }

  function NewIds(entered: nat, n: nat): (ids: seq<nat>)
  {
    seq(n, i => entered + i)
  }

  lemma SplicedEntered(ids: seq<nat>, entered: nat, n: nat, at: nat)
    requires Entered(ids, entered) && at <= |ids|
    ensures Entered(Spliced(ids, NewIds(entered, n), at), entered + n)
  {
  }

  /** From the session before the new ones to the last new one: that is all that has to be linked. */
  lemma SplicedInLine(ids: seq<nat>, entered: nat, n: nat, at: nat, next: map<nat, nat>, next': map<nat, nat>)
    requires Entered(ids, entered) && InLine(ids, next) && at <= |ids| && (ids == [] || at < |ids|) && n > 0
    requires forall id | id in next :: id < entered
    requires var all := Spliced(ids, NewIds(entered, n), at);
             Relinked(all, next, next', FirstLink(at), if at + n < |all| then at + n else |all| - 1)
    ensures InLine(Spliced(ids, NewIds(entered, n), at), next')
  {
    var all := Spliced(ids, NewIds(entered, n), at);
    forall i | 0 <= i < |all| ensures PushesOn(all, next', i) {
      if i < FirstLink(at) {
        assert PushesOn(ids, next, i);
        assert all[i] == ids[i] && all[i + 1] == ids[i + 1];
      } else if i >= at + n {
        assert PushesOn(ids, next, i - n + 1);
        assert all[i] == ids[i - n + 1] && (i + 1 < |all| ==> all[i + 1] == ids[i - n + 2]);
      } else if i == |all| - 1 {
        assert all[i] == entered + (i - at);
      }
    }
  }

  /** The session before session `at`, if there is one. */
  function FirstLink(at: nat): nat
  {
    if at > 0 then at - 1 else 0
  }

  /** A session is named by the number it was entered with. `history` has the inputs it has been given, and `next` the
      session that its outputs are pushed to. */
  class SessionChain<H> {
    const numBlocks: nat

    /** The blocks that each session runs, and its name. */
    var spans: seq<Span>
    var ids: seq<nat>

    var history: map<nat, H>
    var next: map<nat, nat>
    var entered: nat

    /** There are no sessions yet, or they cover every block once and in order. */
    ghost predicate Valid()
      reads this
    {
      numBlocks > 0 && (spans == [] || Tiles(spans, 0, numBlocks)) && NamesAreValid()
    }

    ghost predicate NamesAreValid()
      reads this
    {
      && |ids| == |spans| && Entered(ids, entered) && InLine(ids, next)
      && (forall id | id in next :: id < entered) && (forall id | id in history :: id < entered)
    }

    constructor (numBlocks: nat)
      requires numBlocks > 0
      ensures Valid() && spans == [] && this.numBlocks == numBlocks
    {
      this.numBlocks, spans, ids, history, next, entered := numBlocks, [], [], map[], map[], 0;
    }

    /** The sessions before `at` cover the blocks before `block`. */
    ghost predicate Before(at: nat, block: nat)
      reads this
    {
      at <= |spans| && Tiles(spans[..at], 0, block) && block < numBlocks
    }

    /** Where the sessions that replace session `at` have to end. */
    function UpdateEnd(at: nat): nat
      reads this
    {
      if at < |spans| then spans[at].end else numBlocks
    }

    /** Links the sessions [from, to) to the ones behind them. */
    method Link(from: nat, to: nat)
      requires from <= to < |ids| && Entered(ids, entered)
      modifies `next
      ensures Relinked(ids, old(next), next, from, to)
    {
      for i := from to to
        invariant forall j | from <= j < i :: ids[j] in next && next[ids[j]] == ids[j + 1]
        invariant forall j | 0 <= j < |ids| && !(from <= j < i) ::
                    (ids[j] in next <==> ids[j] in old(next)) && (ids[j] in next ==> next[ids[j]] == old(next)[ids[j]])
        invariant forall id | id in next :: id in old(next) || id in ids
      {
        next := next[ids[i] := ids[i + 1]];
      }
    }

    /** Puts `n` new sessions in the place of session `at`, or at the end. The first one takes over the history, and
        every session pushes to the one that is now behind it. */
    method PutIn(at: nat, n: nat)
      requires Entered(ids, entered) && InLine(ids, next) && at <= |ids| && (ids == [] || at < |ids|) && n > 0
      requires (forall id | id in next :: id < entered) && (forall id | id in history :: id < entered)
      modifies `ids, `history, `next, `entered
      ensures entered == old(entered) + n && ids == Spliced(old(ids), NewIds(old(entered), n), at)
      ensures Entered(ids, entered) && InLine(ids, next)
      ensures (forall id | id in next :: id < entered) && (forall id | id in history :: id < entered)
      ensures history == if at < |old(ids)| && old(ids)[at] in old(history)
                         then old(history)[ids[at] := old(history)[old(ids)[at]]] else old(history)
    {
      ghost var was, before := ids, entered;
      assert NewIds(entered, n)[0] == entered;
      if at < |ids| && ids[at] in history { history := history[entered := history[ids[at]]]; }
      ids := Spliced(ids, NewIds(entered, n), at);
      entered := entered + n;
      SplicedEntered(was, before, n, at);
      LinkNew(at, n, was, before);
    }

    /** Links the `n` new sessions at `at` to each other and to their neighbours; `was` are the sessions before. */
    method LinkNew(at: nat, n: nat, ghost was: seq<nat>, ghost before: nat)
      requires Entered(was, before) && InLine(was, next) && at <= |was| && (was == [] || at < |was|) && n > 0
      requires forall id | id in next :: id < before
      requires Entered(ids, entered) && entered == before + n && ids == Spliced(was, NewIds(before, n), at)
      modifies `next
      ensures InLine(ids, next) && forall id | id in next :: id < entered
    {
      ghost var links := next;
      Link(FirstLink(at), if at + n < |ids| then at + n else |ids| - 1);
      SplicedInLine(was, before, n, at, links, next);
    }

    /** Replaces session `at` by sessions along `route`, or adds the first ones; `route` is what the router finds. */
    method UpdateSequence(at: nat, block: nat, route: seq<Span>) returns (ok: bool)
      requires Valid() && Before(at, block)
      modifies this
      ensures Valid() && Before(at, block)
      ensures ok <==> Covers(route, block, old(UpdateEnd(at)))
      ensures !ok ==> unchanged(this)
      ensures ok ==> entered == old(entered) + |route|
      ensures ok ==>
                && |route| > 0 && spans == Spliced(old(spans), Clipped(route, old(UpdateEnd(at))), at)
                && ids == Spliced(old(ids), NewIds(old(entered), |route|), at)
      ensures ok ==> history == if at < |old(ids)| && old(ids)[at] in old(history)
                                then old(history)[ids[at] := old(history)[old(ids)[at]]] else old(history)
    {
      var updateEnd := UpdateEnd(at);
      if !Covers(route, block, updateEnd) { return false; }
      ClippedTiles(route, block, updateEnd);
      SplicedTiles(spans, Clipped(route, updateEnd), at, block, updateEnd, numBlocks);
      NotPastTheEnd(spans, at, block, numBlocks);
      PutIn(at, |route|);
      spans := Spliced(spans, Clipped(route, updateEnd), at);
      assert spans[..at] == old(spans)[..at];
      ok := true;
    }

    /** One step of the session: every server answers in turn, and whoever does not is replaced. Whatever fails, the
        sessions go on covering all blocks, and each goes on pushing to the next. `times` says which events it took to
        get an answer from each session. */
    method Step(maxRetries: Option<nat>, schedule: seq<Event>, start: nat)
      returns (ok: bool, now: nat, ghost times: seq<nat>)
      requires Valid() && start <= |schedule|
      modifies this
      ensures Valid() && start <= now <= |schedule|
      ensures ok ==> spans != [] && |times| == |spans| + 1 && times[0] == start && times[|spans|] == now
      ensures ok ==> AllAnswered(schedule, times, ids, spans, old(entered), |spans|, old(spans) != [], numBlocks,
                                 maxRetries)
      ensures !ok ==> SessionGaveUp(schedule, start, now, numBlocks, maxRetries)
      ensures old(spans) != [] && AllAnswer(schedule) && start + |old(spans)| <= |schedule| ==> ok && unchanged(this)
    {
      var at, block := 0, 0;
      now, times := start, [start];
      while block < numBlocks
        invariant Valid() && start <= now <= |schedule| && entered >= old(entered)
        invariant at <= |spans| && (at == 0 ==> spans == old(spans)) && |times| == at + 1 && times[0] == start
                  && times[at] == now
        invariant AllAnswered(schedule, times, ids, spans, old(entered), at, old(spans) != [], numBlocks, maxRetries)
        invariant at > 0 ==> spans != []
        invariant if block < numBlocks then Before(at, block)
                  else spans != [] && Tiles(spans, 0, block) && at == |spans|
        invariant old(spans) != [] && AllAnswer(schedule) && start + |old(spans)| <= |schedule| ==>
                    unchanged(this) && now == start + at && at <= |spans|
        decreases numBlocks - block
      {
        ghost var ids0, spans0, entered0 := ids, spans, entered;
        var end;
        ok, end, now := Attempts(at, block, maxRetries, schedule, now);
        if !ok {
          GaveUpOn(schedule, start, times[at], now, block, spans0 != [], numBlocks, maxRetries);
          return;
        }
        OneMoreAnswered(schedule, times, now, ids0, spans0, ids, spans, old(entered), entered0, at, old(spans) != [],
                        numBlocks, maxRetries);
        times := times + [now];
        at, block := at + 1, end;
      }
      ok := true;
    }

    /** The attempts to get an answer from session `at`; every attempt but the first opens new sessions. */
    method Attempts(at: nat, block: nat, maxRetries: Option<nat>, schedule: seq<Event>, start: nat)
      returns (ok: bool, end: nat, now: nat)
      requires Valid() && Before(at, block) && start <= |schedule|
      modifies this
      ensures Valid() && start <= now <= |schedule| && entered >= old(entered)
      ensures AllAttemptsFail(schedule, start, if ok then now - 1 else now, block, old(spans) != [], numBlocks)
      ensures WithinRetries(now - start, maxRetries)
      ensures !ok ==> now == |schedule| || UsedUp(now - start, maxRetries)
      ensures ok ==> block < end <= numBlocks && spans != [] && |spans| > at && Tiles(spans[..at + 1], 0, end)
      ensures ok ==> spans[at].start == block && Answered(schedule, start, now, old(ids), old(spans), ids, spans,
                                                          old(entered), at)
      ensures ok && end == numBlocks ==> |spans| == at + 1
      ensures KeptAround(old(ids), ids, at) && KeptAround(old(spans), spans, at)
      ensures old(spans) != [] && start < |schedule| && schedule[start].answered ==>
                ok && unchanged(this) && now == start + 1
    {
      ok, end, now := false, 0, start;
      var attempt := 0;
      while now < |schedule|
        invariant Valid() && Before(at, block) && now == start + attempt <= |schedule| && !ok && entered >= old(entered)
        invariant AllAttemptsFail(schedule, start, now, block, old(spans) != [], numBlocks)
        invariant WithinRetries(attempt + 1, maxRetries)
        invariant KeptAround(old(ids), ids, at) && KeptAround(old(spans), spans, at)
        invariant at < |old(ids)| ==> ids == old(ids) || old(ids)[at] !in ids
        invariant if attempt == 0 then unchanged(this) else old(spans) != [] ==> !schedule[start].answered
      {
        var event := schedule[now];
        now := now + 1;
        var ready := true;
        if |spans| == 0 || attempt >= 1 {
          ready := Replace(at, block, event, old(ids), old(spans), old(entered));
        }
        if ready && event.answered {
          SessionAt(spans, at, block, numBlocks);
          end, ok := spans[at].end, true;
          return;
        }
        OneMoreFails(schedule, start, now - 1, block, old(spans) != [], numBlocks);
        if OutOfRetries(attempt, maxRetries) { return; }
        attempt := attempt + 1;
      }
    }

    /** Replaces session `at` along the route of the event; `ids0` and `spans0` are from before the first attempt. */
    method Replace(at: nat, block: nat, event: Event, ghost ids0: seq<nat>, ghost spans0: seq<Span>,
                   ghost entered0: nat)
      returns (ready: bool)
      requires Valid() && Before(at, block) && entered >= entered0 && Entered(ids0, entered0)
      requires KeptAround(ids0, ids, at) && KeptAround(spans0, spans, at)
      requires at < |ids0| ==> ids == ids0 || ids0[at] !in ids
      modifies this
      ensures Valid() && Before(at, block) && entered >= old(entered)
      ensures KeptAround(ids0, ids, at) && KeptAround(spans0, spans, at)
      ensures at < |ids0| ==> ids == ids0 || ids0[at] !in ids
      ensures !ready ==> unchanged(this) && AttemptFails(event, block, false, numBlocks)
      ensures ready ==> |spans| > at && ids[at] >= entered0 && (at < |ids0| ==> ids0[at] !in ids)
      ensures ready ==> HeadsRoute(event, block, spans[at])
    {
      NotPastTheEnd(spans, at, block, numBlocks);
      if spans != [] { SessionAt(spans, at, block, numBlocks); }
      ghost var was, e := ids, UpdateEnd(at);
      ready := UpdateSequence(at, block, event.route(block, UpdateEnd(at)));
      if !ready {
        assert NoRoute(event, block, e);
      } else {
        ReplacedIsGone(ids0, was, entered0, old(entered), |event.route(block, e)|, at);
        StillKept(ids0, was, NewIds(old(entered), |event.route(block, e)|), at);
        StillKept(spans0, old(spans), Clipped(event.route(block, e), e), at);
        assert HeadsRouteTo(event, block, e, spans[at]);
      }
    }
  }

  /** The items before `at`, and those behind it, are still there. */
  ghost predicate KeptAround<X>(items: seq<X>, items': seq<X>, at: nat)
  {
    && at <= |items| && at <= |items'| && items'[..at] == items[..at]
    && (at < |items| ==>
          var rest := |items| - at - 1;
          at + 1 + rest <= |items'| && items'[|items'| - rest..] == items[at + 1..])
  }

  /** The span is the first one of the event's route for the blocks [block, e), for some `e`. */
  ghost predicate HeadsRoute(event: Event, block: nat, span: Span)
  {
    exists e :: HeadsRouteTo(event, block, e, span)
  }

  ghost predicate HeadsRouteTo(event: Event, block: nat, e: nat, span: Span)
  {
    Covers(event.route(block, e), block, e) && span == Clipped(event.route(block, e), e)[0]
  }

  /** The events [start, now) got an answer from session `at`: the first one from the session that was there, which
      stays; or the last one from a session that was entered meanwhile, along the route of that event, and the one that
      was there is gone. */
  ghost predicate Answered(schedule: seq<Event>, start: nat, now: nat, ids0: seq<nat>, spans0: seq<Span>, ids: seq<nat>,
                           spans: seq<Span>, entered0: nat, at: nat)
  {
    && start < now <= |schedule| && schedule[now - 1].answered && at < |ids| == |spans| && at <= |ids0| == |spans0|
    && if ids0 != [] && now == start + 1 then ids == ids0 && spans == spans0
       else
         && (ids0 != [] ==> !schedule[start].answered) && ids[at] >= entered0 && (at < |ids0| ==> ids0[at] !in ids)
         && HeadsRoute(schedule[now - 1], spans[at].start, spans[at])
  }

  ghost predicate NoRoute(event: Event, block: nat, e: nat)
  {
    !Covers(event.route(block, e), block, e)
  }

  /** An attempt to get an answer from the session of block `block` fails: the server does not answer, or there is to be
      a new session and no route is found for it. */
  ghost predicate AttemptFails(event: Event, block: nat, held: bool, numBlocks: nat)
  {
    !event.answered || (!held && exists e :: block < e <= numBlocks && NoRoute(event, block, e))
  }

  ghost predicate AllAttemptsFail(schedule: seq<Event>, from: nat, to: int, block: nat, held: bool, numBlocks: nat)
  {
    from <= to <= |schedule| && forall k | from <= k < to ::
      AttemptFails(schedule[k], block, held && k == from, numBlocks)
  }

  /** The schedule ends, or the last `maxRetries` attempts, all at one session, failed. */
  ghost predicate SessionGaveUp(schedule: seq<Event>, start: nat, now: nat, numBlocks: nat, maxRetries: Option<nat>)
  {
    || now == |schedule|
    || exists from: nat, block: nat, held {:trigger AllAttemptsFail(schedule, from, now, block, held, numBlocks)} ::
         start <= from < now && block < numBlocks && UsedUp(now - from, maxRetries)
         && AllAttemptsFail(schedule, from, now, block, held, numBlocks)
  }

  lemma OneMoreFails(schedule: seq<Event>, from: nat, to: nat, block: nat, held: bool, numBlocks: nat)
    requires AllAttemptsFail(schedule, from, to, block, held, numBlocks) && to < |schedule|
    requires AttemptFails(schedule[to], block, held && to == from, numBlocks)
    ensures AllAttemptsFail(schedule, from, to + 1, block, held, numBlocks)
  {
  }

  lemma GaveUpOn(schedule: seq<Event>, start: nat, from: nat, now: nat, block: nat, held: bool, numBlocks: nat,
                 maxRetries: Option<nat>)
    requires start <= from <= now && block < numBlocks && AllAttemptsFail(schedule, from, now, block, held, numBlocks)
    requires now == |schedule| || UsedUp(now - from, maxRetries)
    ensures SessionGaveUp(schedule, start, now, numBlocks, maxRetries)
  {
  }

  /** An answer from a session after the events [from, to), of which all but the last were failed attempts: a session
      older than this step never failed in it. */
  ghost predicate AnsweredBy(schedule: seq<Event>, from: nat, to: nat, id: nat, span: Span, entered0: nat, held: bool,
                             numBlocks: nat, maxRetries: Option<nat>)
  {
    && from < to <= |schedule| && schedule[to - 1].answered
    && AllAttemptsFail(schedule, from, to - 1, span.start, held, numBlocks) && WithinRetries(to - from, maxRetries)
    && (id < entered0 ==> to == from + 1)
    && (to > from + 1 ==> HeadsRoute(schedule[to - 1], span.start, span))
  }

  ghost predicate AllAnswered(schedule: seq<Event>, times: seq<nat>, ids: seq<nat>, spans: seq<Span>, entered0: nat,
                              n: nat, held: bool, numBlocks: nat, maxRetries: Option<nat>)
  {
    && n < |times| && n <= |ids| && n <= |spans|
    && forall j | 0 <= j < n ::
         AnsweredBy(schedule, times[j], times[j + 1], ids[j], spans[j], entered0, held || j > 0, numBlocks, maxRetries)
  }

  lemma OneMoreAnswered(schedule: seq<Event>, times: seq<nat>, now: nat, ids0: seq<nat>, spans0: seq<Span>,
                        ids: seq<nat>, spans: seq<Span>, entered0: nat, entered1: nat, at: nat, held: bool,
                        numBlocks: nat, maxRetries: Option<nat>)
    requires |times| == at + 1 && AllAnswered(schedule, times, ids0, spans0, entered0, at, held, numBlocks, maxRetries)
    requires entered0 <= entered1 && Answered(schedule, times[at], now, ids0, spans0, ids, spans, entered1, at)
    requires AllAttemptsFail(schedule, times[at], now - 1, spans[at].start, spans0 != [], numBlocks)
    requires WithinRetries(now - times[at], maxRetries) && (spans0 != [] <==> held || at > 0)
    requires KeptAround(ids0, ids, at) && KeptAround(spans0, spans, at)
    ensures AllAnswered(schedule, times + [now], ids, spans, entered0, at + 1, held, numBlocks, maxRetries)
  {
    var times' := times + [now];
    forall j | 0 <= j < at + 1
      ensures AnsweredBy(schedule, times'[j], times'[j + 1], ids[j], spans[j], entered0, held || j > 0, numBlocks,
                         maxRetries)
    {
      if j < at {
        assert AnsweredBy(schedule, times[j], times[j + 1], ids0[j], spans0[j], entered0, held || j > 0, numBlocks,
                          maxRetries);
        assert ids[..at][j] == ids0[..at][j] && spans[..at][j] == spans0[..at][j];
      }
    }
  }

  lemma ReplacedIsGone(ids0: seq<nat>, ids: seq<nat>, entered0: nat, entered: nat, n: nat, at: nat)
    requires Entered(ids0, entered0) && Entered(ids, entered) && entered0 <= entered && at <= |ids|
    requires at < |ids0| ==> ids == ids0 || ids0[at] !in ids
    ensures at < |ids0| ==> ids0[at] !in Spliced(ids, NewIds(entered, n), at)
  {
  }

  lemma StillKept<X>(items0: seq<X>, items: seq<X>, updated: seq<X>, at: nat)
    requires KeptAround(items0, items, at) && |updated| > 0
    ensures KeptAround(items0, Spliced(items, updated, at), at)
  {
    var spliced := Spliced(items, updated, at);
    assert spliced[..at] == items[..at];
    if at < |items0| {
      var rest := |items0| - at - 1;
      assert items[|items| - rest..] == items0[at + 1..];
      assert spliced[|spliced| - rest..] == items[|items| - rest..];
    }
  }

  /** As long as blocks are left there is a session to go on with, unless there are none at all. */
  lemma NotPastTheEnd(spans: seq<Span>, at: nat, block: nat, n: nat)
    requires (spans == [] || Tiles(spans, 0, n)) && at <= |spans| && Tiles(spans[..at], 0, block) && block < n
    ensures spans == [] || at < |spans|
  {
    if spans != [] { SessionAt(spans, at, block, n); }
  }

  lemma {:induction false} TilesSplit(spans: seq<Span>, from: nat, to: nat, i: nat) returns (mid: nat)
    requires Tiles(spans, from, to) && i <= |spans|
    ensures Tiles(spans[..i], from, mid) && Tiles(spans[i..], mid, to)
  {
    if i == |spans| {
      mid := to;
      assert spans[..i] == spans;
    } else {
      var n := |spans| - 1;
      mid := TilesSplit(spans[..n], from, spans[n].start, i);
      assert spans[..n][..i] == spans[..i];
      assert spans[i..] == spans[..n][i..] + [spans[n]];
      TilesAppend(spans[..n][i..], mid, spans[n].start, spans[n]);
    }
  }

  lemma {:induction false} TilesEndIsUnique(spans: seq<Span>, from: nat, a: nat, b: nat)
    requires Tiles(spans, from, a) && Tiles(spans, from, b)
    ensures a == b
  {
  }

  /** Where the sessions before `at` end, session `at` begins. */
  lemma SessionAt(spans: seq<Span>, at: nat, block: nat, n: nat)
    requires Tiles(spans, 0, n) && at <= |spans| && Tiles(spans[..at], 0, block) && block < n
    ensures at < |spans| && spans[at].start == block < spans[at].end <= n
    ensures Tiles(spans[..at + 1], 0, spans[at].end) && Tiles(spans[at + 1..], spans[at].end, n)
    ensures spans[at].end == n ==> |spans| == at + 1
  {
    var mid := TilesSplit(spans, 0, n, at);
    TilesEndIsUnique(spans[..at], 0, block, mid);
    TilesRange(spans[at..], block, n);
    TilesFirst(spans[at..], block, n);
    assert spans[at..][1..] == spans[at + 1..];
    assert spans[..at + 1] == spans[..at] + [spans[at]];
    TilesAppend(spans[..at], 0, block, spans[at]);
    TilesRange(spans[at + 1..], spans[at].end, n);
  }

  /** Putting spans over [block, end) in the place of the span they replace, or behind all others. */
  lemma SplicedTiles(spans: seq<Span>, updated: seq<Span>, at: nat, block: nat, end: nat, n: nat)
    requires spans == [] || Tiles(spans, 0, n)
    requires at <= |spans| && Tiles(spans[..at], 0, block) && block < n
    requires end == (if at < |spans| then spans[at].end else n) && Tiles(updated, block, end)
    ensures Tiles(Spliced(spans, updated, at), 0, n)
  {
    TilesConcat(spans[..at], updated, 0, block, end);
    if spans == [] {
      assert spans[..at] + updated + [] == spans[..at] + updated;
    } else {
      SessionAt(spans, at, block, n);
      TilesConcat(spans[..at] + updated, spans[at + 1..], 0, end, n);
    }
  }
}
