/** Fault-tolerant forward and backward over a chain of servers. */
module SequentialAutograd {
  import opened SpanTilings
  import opened ChainRule
  import opened Failures
  import opened Wrappers

  /** The spans that are done, in order, and the input of each. */
  ghost predicate Recorded<X, P, G, Q>(c: Chain<X, P, G, Q>, lo: nat, hi: nat, x: X, inputs: seq<X>, spans: seq<Span>)
    requires c.Valid()
  {
    && Tiles(spans, lo, hi) && |inputs| == |spans|
    && forall i | 0 <= i < |spans| :: IsInput(c, lo, spans[i].start, x, inputs[i])
  }

  ghost predicate IsInput<X, P, G, Q>(c: Chain<X, P, G, Q>, lo: nat, at: nat, x: X, input: X)
    requires c.Valid()
  {
    lo <= at <= |c.blocks| && input == c.Run(lo, at, x)
  }

  lemma RecordedNext<X, P, G, Q>(c: Chain<X, P, G, Q>, lo: nat, x: X, inputs: seq<X>, spans: seq<Span>, input: X,
                                 span: Span)
    requires c.Valid() && Recorded(c, lo, span.start, x, inputs, spans) && IsInput(c, lo, span.start, x, input)
    requires span.start < span.end
    ensures Recorded(c, lo, span.end, x, inputs + [input], spans + [span])
  {
    TilesAppend(spans, lo, span.start, span);
  }

  lemma RecordedLast<X, P, G, Q>(c: Chain<X, P, G, Q>, lo: nat, hi: nat, x: X, inputs: seq<X>, spans: seq<Span>)
    requires c.Valid() && Recorded(c, lo, hi, x, inputs, spans) && |spans| > 0
    ensures var n := |spans| - 1;
            && lo <= spans[n].start < spans[n].end == hi
            && Recorded(c, lo, spans[n].start, x, inputs[..n], spans[..n])
            && IsInput(c, lo, spans[n].start, x, inputs[n])
  {
    TilesRange(spans[..|spans| - 1], lo, spans[|spans| - 1].start);
    assert forall i | 0 <= i < |spans| - 1 :: spans[..|spans| - 1][i] == spans[i];
  }

  /** A record of a first part and a record of what follows, made from the first part's output, join. */
  lemma RecordedJoin<X, P, G, Q>(c: Chain<X, P, G, Q>, lo: nat, mid: nat, hi: nat, x: X, inputs: seq<X>,
                                 spans: seq<Span>, inputs': seq<X>, spans': seq<Span>)
    requires c.Valid() && Recorded(c, lo, mid, x, inputs, spans) && lo <= mid <= hi <= |c.blocks|
    requires Recorded(c, mid, hi, c.Run(lo, mid, x), inputs', spans')
    ensures Recorded(c, lo, hi, x, inputs + inputs', spans + spans')
  {
    TilesConcat(spans, spans', lo, mid, hi);
    forall i | 0 <= i < |spans + spans'| ensures IsInput(c, lo, (spans + spans')[i].start, x, (inputs + inputs')[i]) {
      if i < |spans| {
        assert IsInput(c, lo, spans[i].start, x, inputs[i]);
      } else {
        assert IsInput(c, mid, spans'[i - |spans|].start, c.Run(lo, mid, x), inputs'[i - |spans|]);
        RunInTwoParts(c, lo, mid, spans'[i - |spans|].start, x);
      }
    }
  }

  // ----- forward -----

  datatype Forwarded<X> = Forwarded(output: X, inputs: seq<X>, spans: seq<Span>)

  /** The attempts to run the next span; every attempt but the first looks for a new route. */
  method ForwardSpan<X, P, G, Q>(c: Chain<X, P, G, Q>, input: X, block: nat, hi: nat, route: seq<Span>,
                                 maxRetries: Option<nat>, schedule: seq<Event>, now: nat)
    returns (ok: bool, span: Span, output: X, route': seq<Span>, now': nat)
    requires c.Valid() && block < hi <= |c.blocks| && (route == [] || Tiles(route, block, hi)) && now <= |schedule|
    ensures now <= now' <= |schedule|
    ensures ok ==> now < now' && ComesThrough(schedule[now' - 1], block, hi, route != [] && now' == now + 1)
    ensures AllFail(schedule, now, if ok then now' - 1 else now', block, hi, route != [])
    ensures now < |schedule| && ComesThrough(schedule[now], block, hi, route != []) ==> ok && now' == now + 1
    ensures WithinRetries(now' - now, maxRetries)
    ensures !ok ==> now' == |schedule| || UsedUp(now' - now, maxRetries)
    ensures ok ==> span.start == block < span.end <= hi && output == c.Run(block, span.end, input)
    ensures ok ==> Tiles(route', span.end, hi)
    ensures ok ==>
              var used := if route != [] && now' == now + 1 then route
                          else Clipped(schedule[now' - 1].route(block, hi), hi);
              used != [] && span == used[0] && route' == used[1..]
  {
    ok, span, output, route', now' := false, Span(0, 0, 0), input, route, now;
    var attempt := 0;
    while now' < |schedule|
      invariant now' == now + attempt <= |schedule| && WithinRetries(attempt + 1, maxRetries)
      invariant attempt == 0 ==> route' == route
      invariant AllFail(schedule, now, now', block, hi, route != [])
      invariant attempt > 0 ==> !ComesThrough(schedule[now], block, hi, route != [])
    {
      var event := schedule[now'];
      now' := now' + 1;
      var found := true;
      if |route'| == 0 || attempt >= 1 {
        var candidate := event.route(block, hi);
        found := Covers(candidate, block, hi);
        if found {
          ClippedTiles(candidate, block, hi);
          route' := Clipped(candidate, hi);
        }
      }
      if found {
        TilesFirst(route', block, hi);
        span, route' := route'[0], route'[1..];
        if event.answered {
          output := ServeForward(c, span.start, span.end, input);
          ok := true;
          return;
        }
      }
      if OutOfRetries(attempt, maxRetries) { return; }
      attempt := attempt + 1;
    }
  }

  /** A span that was run, and the rest of its route, are from the route that was held or from the one that was
      found. */
  lemma StillOffered(schedule: seq<Event>, now: nat, from: nat, now': nat, block: nat, hi: nat, held: seq<Span>,
                     spans: seq<Span>, span: Span, route: seq<Span>)
    requires AllOfferedIn(schedule, now, from, hi, held + spans) && now <= from < now' <= |schedule|
    requires ComesThrough(schedule[now' - 1], block, hi, held != [] && now' == from + 1)
    requires var used := if held != [] && now' == from + 1 then held
                         else Clipped(schedule[now' - 1].route(block, hi), hi);
             used != [] && span == used[0] && route == used[1..]
    ensures AllOfferedIn(schedule, now, now', hi, route + (spans + [span]))
  {
    OfferedInMore(schedule, now, from, now, now', hi, held + spans);
    if !(held != [] && now' == from + 1) {
      ClippedIsOffered(schedule, now' - 1, block, hi);
      OfferedInMore(schedule, now' - 1, now', now, now', hi, Clipped(schedule[now' - 1].route(block, hi), hi));
    }
  }

  /** Every server answers, and the first route found is one. */
  predicate FailureFree(schedule: seq<Event>, now: nat, lo: nat, hi: nat)
  {
    && now + hi - lo <= |schedule| && AllAnswer(schedule)
    && (now < |schedule| ==> Covers(schedule[now].route(lo, hi), lo, hi))
  }

  /** Runs blocks [lo, hi), whatever fails on the way. It gives up only after `maxRetries` failed attempts at one
      span. `times` says which events were the attempts at each span. */
  method SequentialForward<X, P, G, Q>(c: Chain<X, P, G, Q>, x: X, lo: nat, hi: nat, maxRetries: Option<nat>,
                                       schedule: seq<Event>, now: nat)
    returns (r: Option<Forwarded<X>>, now': nat, ghost times: seq<nat>)
    requires c.Valid() && lo <= hi <= |c.blocks| && now <= |schedule|
    ensures now <= now' <= |schedule|
    ensures r.None? ==> GaveUp(schedule, now, now', lo, hi, maxRetries)
    ensures FailureFree(schedule, now, lo, hi) ==> r.Some?
    ensures r.Some? ==> r.value.output == c.Run(lo, hi, x) && Recorded(c, lo, hi, x, r.value.inputs, r.value.spans)
    ensures r.Some? ==> AllOfferedIn(schedule, now, now', hi, r.value.spans) && now + |r.value.spans| <= now'
    ensures r.Some? ==> AllPassed(schedule, times, r.value.spans, hi, maxRetries)
                        && times[0] == now && times[|r.value.spans|] == now'
  {
    now', times := now, [now];
    var input, block := x, lo;
    var route, inputs, spans := [], [], [];
    while block < hi
      invariant lo <= block <= hi && now <= now' <= |schedule|
      invariant route == [] || Tiles(route, block, hi)
      invariant AllOfferedIn(schedule, now, now', hi, route + spans) && now + |spans| <= now'
      invariant AllPassed(schedule, times, spans, hi, maxRetries) && times[0] == now && times[|spans|] == now'
      invariant block < hi ==> (route != [] <==> spans != [])
      invariant Recorded(c, lo, block, x, inputs, spans) && input == c.Run(lo, block, x)
      invariant FailureFree(schedule, now, lo, hi) ==>
                  now' + hi - block <= |schedule| && if block == lo then now' == now else block < hi ==> route != []
    {
      ghost var from, held := now', route;
      var ok, span, output;
      ok, span, output, route, now' := ForwardSpan(c, input, block, hi, route, maxRetries, schedule, now');
      if !ok {
        GaveUpAt(schedule, now, from, now', lo, hi, block, held != [], maxRetries);
        return None, now', times;
      }
      OneMorePassed(schedule, times, spans, hi, maxRetries, now', span);
      StillOffered(schedule, now, from, now', block, hi, held, spans, span, route);
      RecordedNext(c, lo, x, inputs, spans, input, span);
      RunInTwoParts(c, lo, block, span.end, x);
      inputs, spans, times := inputs + [input], spans + [span], times + [now'];
      input, block := output, span.end;
    }
    r := Some(Forwarded(input, inputs, spans));
  }

  // ----- backward -----

  /** Puts the pieces together, the last one first. */
  function JoinedReversed<T>(pieces: seq<seq<T>>): seq<T>
  {
    if |pieces| == 0 then [] else pieces[|pieces| - 1] + JoinedReversed(pieces[..|pieces| - 1])
  }

  /** `done` is the span whose server answered. */
  datatype Backward<X, G, Q> = Backward(done: Span, inputs: seq<X>, spans: seq<Span>, grad: G, gradPrompts: seq<seq<Q>>)

  /** What the server sends back for the span that was done last, and the stacks without that span. */
  ghost predicate SteppedBack<X, P, G, Q>(c: Chain<X, P, G, Q>, lo: nat, end: nat, x: X, g: G, b: Backward<X, G, Q>)
    requires c.Valid()
  {
    && lo <= b.done.start < b.done.end == end <= |c.blocks| && Recorded(c, lo, b.done.start, x, b.inputs, b.spans)
    && b.grad == c.Gradient(b.done.start, end, c.Run(lo, b.done.start, x), g)
    && b.gradPrompts == if c.prompts.Some? then [c.PromptGradients(b.done.start, end, c.Run(lo, b.done.start, x), g)]
        else []
  }

  /** Stacks that are extended by a record of the blocks [mid, hi), and the last span that is then taken off. */
  lemma Extended<X, P, G, Q>(c: Chain<X, P, G, Q>, lo: nat, mid: nat, hi: nat, x: X, inputs: seq<X>, spans: seq<Span>,
                             inputs': seq<X>, spans': seq<Span>)
    requires c.Valid() && Recorded(c, lo, mid, x, inputs, spans) && lo <= mid < hi <= |c.blocks|
    requires Recorded(c, mid, hi, c.Run(lo, mid, x), inputs', spans')
    ensures var allInputs, all := inputs + inputs', spans + spans';
            var n := |all| - 1;
            && |allInputs| == n + 1 > |spans| && mid <= all[n].start < all[n].end == hi
            && Recorded(c, lo, all[n].start, x, allInputs[..n], all[..n])
            && IsInput(c, lo, all[n].start, x, allInputs[n])
            && inputs <= allInputs[..n] && spans <= all[..n] && all[..n][|spans|..] + [all[n]] == spans'
  {
    TilesRange(spans', mid, hi);
    TilesAt(spans', mid, hi, |spans'| - 1);
    RecordedJoin(c, lo, mid, hi, x, inputs, spans, inputs', spans');
    RecordedLast(c, lo, hi, x, inputs + inputs', spans + spans');
    AllButLast(inputs, inputs');
    AllButLast(spans, spans');
  }

  lemma AllButLast<T>(first: seq<T>, second: seq<T>)
    requires |second| > 0
    ensures var all := first + second;
            var n := |all| - 1;
            all[n] == second[|second| - 1] && first <= all[..n] && all[..n][|first|..] + [all[n]] == second
  {
  }

  /** Runs a span forward again, puts the spans and inputs that this yields on the stacks, and takes the last one
      off. */
  method RunAgain<X, P, G, Q>(c: Chain<X, P, G, Q>, inputs: seq<X>, spans: seq<Span>, input: X, span: Span,
                              maxRetries: Option<nat>, schedule: seq<Event>, now: nat, ghost lo: nat, ghost x: X)
    returns (ok: bool, inputs': seq<X>, spans': seq<Span>, input': X, span': Span, now': nat)
    requires c.Valid() && lo <= span.start < span.end <= |c.blocks| && now <= |schedule|
    requires Recorded(c, lo, span.start, x, inputs, spans) && IsInput(c, lo, span.start, x, input)
    ensures now <= now' <= |schedule|
    ensures span.start <= span'.start < span'.end == span.end
    ensures Recorded(c, lo, span'.start, x, inputs', spans') && IsInput(c, lo, span'.start, x, input')
    ensures FailureFree(schedule, now, span.start, span.end) ==> ok
    ensures !ok ==> GaveUp(schedule, now, now', span.start, span.end, maxRetries)
    ensures !ok ==> inputs' == inputs && spans' == spans && input' == input && span' == span
    ensures ok ==> inputs <= inputs' && spans <= spans' && Tiles(spans'[|spans|..] + [span'], span.start, span.end)
    ensures ok ==> now < now' && AllOfferedIn(schedule, now, now', span.end, spans'[|spans|..] + [span'])
  {
    inputs', spans', input', span' := inputs, spans, input, span;
    var backup;
    ghost var times;
    backup, now', times := SequentialForward(c, input, span.start, span.end, maxRetries, schedule, now);
    ok := backup.Some?;
    if ok {
      Extended(c, lo, span.start, span.end, x, inputs, spans, backup.value.inputs, backup.value.spans);
      inputs', spans' := inputs + backup.value.inputs, spans + backup.value.spans;
      input', inputs' := inputs'[|inputs'| - 1], inputs'[..|inputs'| - 1];
      span', spans' := spans'[|spans'| - 1], spans'[..|spans'| - 1];
    }
  }

  /** The span `span` on the stack `spans` was to be done, and in the last of the attempts `tries` the server of `done`
      has answered. Either it is the first attempt and the span itself; or the server failed, and after the last failure
      the span was run forward again on spans that answered events offer, of which `done` is the last. */
  ghost predicate GoneBack(schedule: seq<Event>, tries: seq<nat>, spans: seq<Span>, span: Span, spans': seq<Span>,
                           done: Span, maxRetries: Option<nat>)
  {
    var n := |tries| - 1;
    && n > 0 && AllTriesFail(schedule, tries[..n], span.start, span.end, maxRetries) && WithinRetries(n, maxRetries)
    && var now, asked, now' := tries[0], tries[n - 1], tries[n];
    && now <= asked < now' <= |schedule| && schedule[asked].answered
    && if asked == now then spans' == spans && done == span && now' == now + 1
       else
         && !schedule[now].answered && spans <= spans' && OfferedIn(schedule, asked + 1, now', span.end, done)
         && AllOfferedIn(schedule, now + 1, now', span.end, spans'[|spans|..])
  }

  /** After the attempts `tries`, which failed, `span` is to be done on the stack `spans`: what was there, or what it
      was run again on. */
  ghost predicate Stacked(schedule: seq<Event>, tries: seq<nat>, spans0: seq<Span>, span0: Span, spans: seq<Span>,
                          span: Span)
  {
    && |tries| > 0 && tries[|tries| - 1] <= |schedule| && spans0 <= spans && span.end == span0.end
    && if |tries| == 1 then spans == spans0 && span == span0
       else
         && tries[0] < tries[|tries| - 1] && !schedule[tries[0]].answered
         && (spans + [span] != spans0 + [span0] ==>
               AllOfferedIn(schedule, tries[0] + 1, tries[|tries| - 1], span0.end, spans[|spans0|..] + [span]))
  }

  /** The next attempt is ready to ask the server of `span`, after the events up to `next`. */
  ghost predicate Ready(schedule: seq<Event>, tries: seq<nat>, next: nat, spans0: seq<Span>, span0: Span,
                        spans: seq<Span>, span: Span)
  {
    && |tries| > 0 && tries[|tries| - 1] < next <= |schedule| && spans0 <= spans && span.end == span0.end
    && if |tries| == 1 then spans == spans0 && span == span0 && next == tries[0] + 1
       else
         && tries[0] < tries[|tries| - 1] && !schedule[tries[0]].answered
         && OfferedIn(schedule, tries[|tries| - 1] + 1, next, span0.end, span)
         && AllOfferedIn(schedule, tries[0] + 1, next, span0.end, spans[|spans0|..] + [span])
  }

  lemma ReadyAgain(schedule: seq<Event>, tries: seq<nat>, next: nat, spans0: seq<Span>, span0: Span, spans: seq<Span>,
                   span: Span, spans': seq<Span>, span': Span)
    requires Stacked(schedule, tries, spans0, span0, spans, span) && |tries| > 1 && span'.end == span.end
    requires tries[|tries| - 1] < next <= |schedule| && spans <= spans'
    requires AllOfferedIn(schedule, tries[|tries| - 1] + 1, next, span.end, spans'[|spans|..] + [span'])
    ensures Ready(schedule, tries, next, spans0, span0, spans', span')
  {
    var now, asked := tries[0], tries[|tries| - 1];
    var added := spans'[|spans|..] + [span'];
    assert span' == added[|added| - 1];
    OfferedInMore(schedule, asked + 1, next, now + 1, next, span0.end, added);
    assert spans'[|spans0|..] == spans[|spans0|..] + spans'[|spans|..];
    if spans + [span] != spans0 + [span0] {
      OfferedInMore(schedule, now + 1, asked, now + 1, next, span0.end, spans[|spans0|..] + [span]);
      forall s | s in spans'[|spans0|..] + [span'] ensures OfferedIn(schedule, now + 1, next, span0.end, s) {
        if s in spans[|spans0|..] {
          assert s in spans[|spans0|..] + [span];
        } else {
          assert s in added;
        }
      }
    } else {
      assert |spans| == |spans0|;
    }
  }

  lemma StackedAfter(schedule: seq<Event>, tries: seq<nat>, next: nat, spans0: seq<Span>, span0: Span, spans: seq<Span>,
                     span: Span)
    requires Ready(schedule, tries, next, spans0, span0, spans, span) && !schedule[tries[|tries| - 1]].answered
    ensures Stacked(schedule, tries + [next], spans0, span0, spans, span)
  {
  }

  lemma StackedStill(schedule: seq<Event>, tries: seq<nat>, next: nat, spans0: seq<Span>, span0: Span, spans: seq<Span>,
                     span: Span)
    requires Stacked(schedule, tries, spans0, span0, spans, span) && |tries| > 1
    requires tries[|tries| - 1] < next <= |schedule|
    ensures Stacked(schedule, tries + [next], spans0, span0, spans, span)
  {
    if spans + [span] != spans0 + [span0] {
      OfferedInMore(schedule, tries[0] + 1, tries[|tries| - 1], tries[0] + 1, next, span0.end,
                    spans[|spans0|..] + [span]);
    }
  }

  lemma AnsweredAfter(schedule: seq<Event>, tries: seq<nat>, next: nat, spans0: seq<Span>, span0: Span,
                      spans: seq<Span>, span: Span, maxRetries: Option<nat>)
    requires Ready(schedule, tries, next, spans0, span0, spans, span) && schedule[tries[|tries| - 1]].answered
    requires AllTriesFail(schedule, tries, span0.start, span0.end, maxRetries) && WithinRetries(|tries|, maxRetries)
    ensures GoneBack(schedule, tries + [next], spans0, span0, spans, span, maxRetries)
  {
    assert (tries + [next])[..|tries|] == tries;
  }

  /** The attempts to go back over the last span. Every attempt but the first runs the span forward again, on other
      servers, and puts the spans and inputs that this yields on the stacks. */
  method BackwardSpan<X, P, G, Q>(c: Chain<X, P, G, Q>, inputs0: seq<X>, spans0: seq<Span>, input0: X, span0: Span,
                                  g: G, maxRetries: Option<nat>, schedule: seq<Event>, now: nat, ghost lo: nat,
                                  ghost x: X)
    returns (r: Option<Backward<X, G, Q>>, now': nat, ghost tries: seq<nat>)
    requires c.Valid() && lo <= span0.start < span0.end <= |c.blocks| && now <= |schedule|
    requires Recorded(c, lo, span0.start, x, inputs0, spans0) && IsInput(c, lo, span0.start, x, input0)
    ensures now <= now' <= |schedule| && |tries| > 0 && tries[0] == now && tries[|tries| - 1] == now'
    ensures r.None? ==> AllTriesFail(schedule, tries, span0.start, span0.end, maxRetries)
    ensures r.None? ==> now' == |schedule| || UsedUp(|tries| - 1, maxRetries)
    ensures now < |schedule| && schedule[now].answered ==> r.Some? && now' == now + 1
    ensures r.Some? ==> GoneBack(schedule, tries, spans0, span0, r.value.spans, r.value.done, maxRetries)
    ensures r.Some? ==> SteppedBack(c, lo, span0.end, x, g, r.value)
  {
    var inputs, spans, input, span := inputs0, spans0, input0, span0;
    now', tries := now, [now];
    var attempt := 0;
    while now' < |schedule|
      invariant now <= now' <= |schedule| && |tries| == attempt + 1 && tries[0] == now && tries[attempt] == now'
      invariant span0.start <= span.start < span.end == span0.end && WithinRetries(attempt + 1, maxRetries)
      invariant Recorded(c, lo, span.start, x, inputs, spans) && IsInput(c, lo, span.start, x, input)
      invariant AllTriesFail(schedule, tries, span0.start, span0.end, maxRetries)
      invariant Stacked(schedule, tries, spans0, span0, spans, span)
      decreases |schedule| - now'
    {
      var event := schedule[now'];
      now' := now' + 1;
      var ready := true;
      if attempt >= 1 {
        ready, inputs, spans, input, span, now' := TryAgain(c, inputs, spans, input, span, maxRetries, schedule, now',
                                                            lo, x, tries, spans0, span0);
      }
      if ready && event.answered {
        var grad, slices := ServeBackward(c, span.start, span.end, input, g);
        r := Some(Backward(span, inputs, spans, grad, if c.prompts.Some? then [slices] else []));
        AnsweredAfter(schedule, tries, now', spans0, span0, spans, span, maxRetries);
        tries := tries + [now'];
        return;
      }
      if ready { StackedAfter(schedule, tries, now', spans0, span0, spans, span); }
      OneMoreTry(schedule, tries, now', span0.start, span0.end, maxRetries);
      tries := tries + [now'];
      if OutOfRetries(attempt, maxRetries) { return None, now', tries; }
      attempt := attempt + 1;
    }
    r := None;
  }

  /** `RunAgain` after the attempts `tries` and the next event. */
  method TryAgain<X, P, G, Q>(c: Chain<X, P, G, Q>, inputs: seq<X>, spans: seq<Span>, input: X, span: Span,
                              maxRetries: Option<nat>, schedule: seq<Event>, now: nat, ghost lo: nat, ghost x: X,
                              ghost tries: seq<nat>, ghost spans0: seq<Span>, ghost span0: Span)
    returns (ok: bool, inputs': seq<X>, spans': seq<Span>, input': X, span': Span, now': nat)
    requires c.Valid() && lo <= span0.start <= span.start < span.end == span0.end <= |c.blocks|
    requires Recorded(c, lo, span.start, x, inputs, spans) && IsInput(c, lo, span.start, x, input)
    requires Stacked(schedule, tries, spans0, span0, spans, span) && |tries| > 1
    requires tries[|tries| - 1] + 1 == now <= |schedule|
    ensures now <= now' <= |schedule| && span0.start <= span'.start < span'.end == span0.end
    ensures Recorded(c, lo, span'.start, x, inputs', spans') && IsInput(c, lo, span'.start, x, input')
    ensures ok ==> Ready(schedule, tries, now', spans0, span0, spans', span')
    ensures !ok ==> TryFails(schedule, tries[|tries| - 1], now', true, span0.start, span0.end, maxRetries)
                    && Stacked(schedule, tries + [now'], spans0, span0, spans', span')
  {
    ok, inputs', spans', input', span', now' := RunAgain(c, inputs, spans, input, span, maxRetries, schedule, now, lo,
                                                         x);
    if ok {
      ReadyAgain(schedule, tries, now', spans0, span0, spans, span, spans', span');
    } else {
      GaveUpInPart(schedule, now, now', span.start, span.end, maxRetries, span0.start);
      StackedStill(schedule, tries, now', spans0, span0, spans, span);
    }
  }

  /** What is still to do: `grad` and the pieces so far account for everything after block `at`. */
  ghost predicate RemainsFrom<X, P, G, Q>(c: Chain<X, P, G, Q>, lo: nat, at: nat, hi: nat, x: X, g: G, grad: G,
                                          pieces: seq<seq<Q>>)
    requires c.Valid() && lo <= at <= hi <= |c.blocks|
  {
    && c.Gradient(lo, hi, x, g) == c.Gradient(lo, at, x, grad)
    && (c.prompts.Some? ==> c.PromptGradients(lo, hi, x, g)
                            == c.PromptGradients(lo, at, x, grad) + JoinedReversed(pieces))
    && (pieces == [] <==> c.prompts.None? || at == hi)
  }

  lemma RemainsNext<X, P, G, Q>(c: Chain<X, P, G, Q>, lo: nat, at: nat, hi: nat, x: X, g: G, grad: G,
                                pieces: seq<seq<Q>>, b: Backward<X, G, Q>)
    requires c.Valid() && lo <= at <= hi <= |c.blocks| && RemainsFrom(c, lo, at, hi, x, g, grad, pieces)
    requires SteppedBack(c, lo, at, x, grad, b)
    ensures RemainsFrom(c, lo, b.done.start, hi, x, g, b.grad, pieces + b.gradPrompts)
  {
    GradientInTwoParts(c, lo, b.done.start, at, x, grad);
    if c.prompts.Some? {
      PromptGradientsInTwoParts(c, lo, b.done.start, at, x, grad);
      JoinedReversedNext(pieces, b.gradPrompts[0]);
      Associate(c.PromptGradients(lo, b.done.start, x, b.grad), b.gradPrompts[0], JoinedReversed(pieces));
    } else {
      assert pieces + b.gradPrompts == [];
    }
  }

  lemma JoinedReversedNext<T>(pieces: seq<seq<T>>, piece: seq<T>)
    ensures JoinedReversed(pieces + [piece]) == piece + JoinedReversed(pieces)
  {
    assert (pieces + [piece])[..|pieces|] == pieces;
  }

  /** One step back: the stack before it, the attempts, the stack after it, and the span whose server answered. */
  datatype Visit = Visit(before: seq<Span>, first: nat, tries: seq<nat>, next: nat, after: seq<Span>, done: Span)
  {
    ghost predicate Good(schedule: seq<Event>, maxRetries: Option<nat>)
    {
      && |before| > 0 && |tries| > 0 && first == tries[0] && next == tries[|tries| - 1]
      && GoneBack(schedule, tries, before[..|before| - 1], before[|before| - 1], after, done, maxRetries)
    }

    predicate Follows(v: Visit)
    {
      before == v.after && first == v.next && done.end == v.done.start
    }
  }

  /** Takes the last span off the stacks and goes back over it. */
  method PopSpan<X, P, G, Q>(c: Chain<X, P, G, Q>, inputs: seq<X>, spans: seq<Span>, g: G, maxRetries: Option<nat>,
                             schedule: seq<Event>, now: nat, ghost lo: nat, ghost at: nat, ghost x: X)
    returns (r: Option<Backward<X, G, Q>>, now': nat, ghost visit: Visit)
    requires c.Valid() && lo <= at <= |c.blocks| && Recorded(c, lo, at, x, inputs, spans) && |spans| > 0
    requires now <= |schedule|
    ensures now <= now' <= |schedule|
    ensures r.None? ==> GaveUpGoingBack(schedule, now, now', lo, at, maxRetries)
    ensures now < |schedule| && schedule[now].answered ==>
              r.Some? && now' == now + 1 && r.value.spans == spans[..|spans| - 1]
    ensures r.Some? ==> SteppedBack(c, lo, at, x, g, r.value)
    ensures r.Some? ==>
              && visit.Good(schedule, maxRetries) && visit.before == spans && visit.first == now && visit.next == now'
              && visit.after == r.value.spans && visit.done == r.value.done
  {
    RecordedLast(c, lo, at, x, inputs, spans);
    var n := |spans| - 1;
    ghost var tries;
    r, now', tries := BackwardSpan(c, inputs[..n], spans[..n], inputs[n], spans[n], g, maxRetries, schedule, now, lo,
                                   x);
    visit := if r.Some? then Visit(spans, now, tries, now', r.value.spans, r.value.done)
             else Visit(spans, now, tries, now', spans, spans[n]);
  }

  /** Each visit goes on with the stack, the events and the block that the one before it left. */
  ghost predicate Chained(schedule: seq<Event>, visits: seq<Visit>, maxRetries: Option<nat>)
  {
    && (forall j | 0 <= j < |visits| :: visits[j].Good(schedule, maxRetries))
    && forall j, k | 0 <= j < k == j + 1 < |visits| :: visits[k].Follows(visits[j])
  }

  /** The visits lead from the stack `spans0` at event `now` to the stack `spans` at event `now'`, and from block `hi`
      back to block `at`. */
  ghost predicate Visited(schedule: seq<Event>, now: nat, now': nat, spans0: seq<Span>, spans: seq<Span>,
                          visits: seq<Visit>, at: nat, hi: nat, maxRetries: Option<nat>)
  {
    && Chained(schedule, visits, maxRetries)
    && if visits == [] then now' == now && spans == spans0 && at == hi
       else
         var first, last := visits[0], visits[|visits| - 1];
         && first.before == spans0 && first.first == now && first.done.end == hi
         && last.after == spans && last.next == now' && last.done.start == at
  }

  lemma VisitedNext(schedule: seq<Event>, now: nat, spans0: seq<Span>, visits: seq<Visit>, v: Visit, at: nat, hi: nat,
                    maxRetries: Option<nat>)
    requires Visited(schedule, now, v.first, spans0, v.before, visits, at, hi, maxRetries)
    requires v.Good(schedule, maxRetries) && v.done.end == at
    ensures Visited(schedule, now, v.next, spans0, v.after, visits + [v], v.done.start, hi, maxRetries)
  {
  }

  /** Whatever fails on the way, the result is the chain rule over all blocks. */
  method SequentialBackward<X, P, G, Q>(c: Chain<X, P, G, Q>, g: G, inputs0: seq<X>, spans0: seq<Span>,
                                        maxRetries: Option<nat>, schedule: seq<Event>, now: nat, ghost lo: nat,
                                        ghost hi: nat, ghost x: X)
    returns (r: Option<(G, Option<seq<Q>>)>, now': nat, ghost visits: seq<Visit>)
    requires c.Valid() && lo <= hi <= |c.blocks| && Recorded(c, lo, hi, x, inputs0, spans0) && now <= |schedule|
    ensures now <= now' <= |schedule|
    ensures r.None? ==> GaveUpGoingBack(schedule, now, now', lo, hi, maxRetries)
    ensures now + |spans0| <= |schedule| && AllAnswer(schedule) ==> r.Some?
    ensures r.Some? ==> Visited(schedule, now, now', spans0, [], visits, lo, hi, maxRetries)
    ensures r.Some? ==> r.value.0 == c.Gradient(lo, hi, x, g)
    ensures r.Some? ==> r.value.1 == if c.prompts.Some? && lo < hi then Some(c.PromptGradients(lo, hi, x, g)) else None
  {
    var inputs, spans, grad := inputs0, spans0, g;
    var pieces: seq<seq<Q>> := [];
    now', visits := now, [];
    ghost var at := hi;
    assert c.prompts.Some? ==> c.PromptGradients(lo, hi, x, g) + [] == c.PromptGradients(lo, hi, x, g);
    while |spans| > 0 && |inputs| > 0
      invariant lo <= at <= hi && now <= now' <= |schedule|
      invariant Recorded(c, lo, at, x, inputs, spans) && RemainsFrom(c, lo, at, hi, x, g, grad, pieces)
      invariant Visited(schedule, now, now', spans0, spans, visits, at, hi, maxRetries)
      invariant now + |spans0| <= |schedule| && AllAnswer(schedule) ==> now' + |spans| <= |schedule|
      decreases at
    {
      ghost var visit;
      var b;
      b, now', visit := PopSpan(c, inputs, spans, grad, maxRetries, schedule, now', lo, at, x);
      if b.None? { return None, now', visits; }
      RemainsNext(c, lo, at, hi, x, g, grad, pieces, b.value);
      VisitedNext(schedule, now, spans0, visits, visit, at, hi, maxRetries);
      inputs, spans, grad, pieces := b.value.inputs, b.value.spans, b.value.grad, pieces + b.value.gradPrompts;
      at, visits := b.value.done.start, visits + [visit];
    }
    NothingLeft(c, lo, at, x, grad, spans);
    r := Some((grad, if |pieces| == 0 then None else Some(JoinedReversed(pieces))));
  }

  lemma NothingLeft<X, P, G, Q>(c: Chain<X, P, G, Q>, lo: nat, at: nat, x: X, grad: G, spans: seq<Span>)
    requires c.Valid() && lo <= at <= |c.blocks| && Tiles(spans, lo, at) && |spans| == 0
    ensures at == lo && c.Gradient(lo, at, x, grad) == grad
    ensures c.prompts.Some? ==> forall s: seq<Q> :: c.PromptGradients(lo, at, x, grad) + s == s
  {
  }
}
