/**
 Requests that may fail.

 A schedule lists what happens to the attempts, in the order in which they are made. It stands for every way in which
 servers may fail; a call whose schedule is used up never returns and yields nothing.
 */
module Failures {
  import opened SpanTilings
  import opened Wrappers

  /** The route that is found in this attempt for the blocks asked for, should it need one (anything that is no route
      stands for the router's exception), and whether the server answers. */
  datatype Event = Event(route: (nat, nat) -> seq<Span>, answered: bool)

  predicate AllAnswer(schedule: seq<Event>)
  {
    forall i | 0 <= i < |schedule| :: schedule[i].answered
  }

  predicate OutOfRetries(attempt: nat, maxRetries: Option<nat>)
  {
    maxRetries.Some? && attempt + 1 == maxRetries.value
  }

  /** An attempt at the blocks from `block` on comes through; `held` says that a route is held, so none needs to be
      found. */
  predicate ComesThrough(event: Event, block: nat, hi: nat, held: bool)
  {
    event.answered && (held || Covers(event.route(block, hi), block, hi))
  }

  /** The events [from, to) all failed an attempt at the blocks from `block` on. */
  predicate AllFail(schedule: seq<Event>, from: nat, to: nat, block: nat, hi: nat, held: bool)
  {
    from <= to <= |schedule| && forall k | from <= k < to :: !ComesThrough(schedule[k], block, hi, held && k == from)
  }

  /** `tries` attempts are as many as are made. */
  predicate UsedUp(tries: nat, maxRetries: Option<nat>)
  {
    maxRetries.Some? && maxRetries.value == tries > 0
  }

  /** No more attempts than may be made. */
  predicate WithinRetries(tries: nat, maxRetries: Option<nat>)
  {
    maxRetries.Some? && maxRetries.value > 0 ==> tries <= maxRetries.value
  }

  /** The events [from, to) are the attempts at the blocks from `block` on, of which the last one, and no other, came
      through. */
  predicate Passed(schedule: seq<Event>, from: nat, to: nat, block: nat, hi: nat, held: bool, maxRetries: Option<nat>)
  {
    && from < to <= |schedule| && ComesThrough(schedule[to - 1], block, hi, held && to == from + 1)
    && AllFail(schedule, from, to - 1, block, hi, held) && WithinRetries(to - from, maxRetries)
  }

  /** The events [times[j], times[j + 1]) are the attempts at the span `spans[j]`. */
  ghost predicate AllPassed(schedule: seq<Event>, times: seq<nat>, spans: seq<Span>, hi: nat, maxRetries: Option<nat>)
  {
    && |times| == |spans| + 1
    && forall j, k | 0 <= j < k == j + 1 < |times| ::
         Passed(schedule, times[j], times[k], spans[j].start, hi, j > 0, maxRetries)
  }

  lemma OneMorePassed(schedule: seq<Event>, times: seq<nat>, spans: seq<Span>, hi: nat, maxRetries: Option<nat>,
                      now: nat, span: Span)
    requires AllPassed(schedule, times, spans, hi, maxRetries)
    requires Passed(schedule, times[|spans|], now, span.start, hi, spans != [], maxRetries)
    ensures AllPassed(schedule, times + [now], spans + [span], hi, maxRetries)
  {
  }

  /** The schedule ends, or the last `maxRetries` attempts, all at one place in [lo, hi), failed. */
  ghost predicate GaveUp(schedule: seq<Event>, now: nat, now': nat, lo: nat, hi: nat, maxRetries: Option<nat>)
  {
    || now' == |schedule|
    || exists from, block, held {:trigger AllFail(schedule, from, now', block, hi, held)} ::
         now <= from < now' && lo <= block < hi && UsedUp(now' - from, maxRetries)
         && AllFail(schedule, from, now', block, hi, held)
  }

  lemma GaveUpAt(schedule: seq<Event>, now: nat, from: nat, now': nat, lo: nat, hi: nat, block: nat, held: bool,
                 maxRetries: Option<nat>)
    requires now <= from <= now' <= |schedule| && lo <= block < hi && AllFail(schedule, from, now', block, hi, held)
    requires now' == |schedule| || UsedUp(now' - from, maxRetries)
    ensures GaveUp(schedule, now, now', lo, hi, maxRetries)
  {
  }

  lemma GaveUpInPart(schedule: seq<Event>, now: nat, now': nat, lo: nat, hi: nat, maxRetries: Option<nat>, lo': nat)
    requires GaveUp(schedule, now, now', lo, hi, maxRetries) && lo' <= lo
    ensures GaveUp(schedule, now, now', lo', hi, maxRetries)
  {
    if now' != |schedule| {
      var from, block, held :| now <= from < now' && lo <= block < hi && UsedUp(now' - from, maxRetries)
                               && AllFail(schedule, from, now', block, hi, held);
    }
  }

  /** The events [from, to) are an attempt that failed at the blocks [lo, hi): the server of the first event did not
      answer, or the blocks were to be run again and this was given up. */
  ghost predicate TryFails(schedule: seq<Event>, from: nat, to: nat, again: bool, lo: nat, hi: nat,
                           maxRetries: Option<nat>)
  {
    && from < to <= |schedule| && (!again ==> to == from + 1)
    && (!schedule[from].answered || (again && GaveUp(schedule, from + 1, to, lo, hi, maxRetries)))
  }

  /** Attempt `j` is made of the events [tries[j], tries[j + 1]). All failed, and all but the first ran the blocks
      again. */
  ghost predicate AllTriesFail(schedule: seq<Event>, tries: seq<nat>, lo: nat, hi: nat, maxRetries: Option<nat>)
  {
    && |tries| > 0 && tries[|tries| - 1] <= |schedule|
    && forall j, k | 0 <= j < k == j + 1 < |tries| :: TryFails(schedule, tries[j], tries[k], j > 0, lo, hi, maxRetries)
  }

  lemma OneMoreTry(schedule: seq<Event>, tries: seq<nat>, next: nat, lo: nat, hi: nat, maxRetries: Option<nat>)
    requires AllTriesFail(schedule, tries, lo, hi, maxRetries)
    requires TryFails(schedule, tries[|tries| - 1], next, |tries| > 1, lo, hi, maxRetries)
    ensures AllTriesFail(schedule, tries + [next], lo, hi, maxRetries)
  {
  }

  /** The schedule ends, or `maxRetries` attempts to go back over blocks within [lo, hi) have failed. */
  ghost predicate GaveUpGoingBack(schedule: seq<Event>, now: nat, now': nat, lo: nat, hi: nat, maxRetries: Option<nat>)
  {
    || now' == |schedule|
    || exists tries: seq<nat>, a: nat, b: nat ::
         AllTriesFail(schedule, tries, a, b, maxRetries) && now <= tries[0] && lo <= a < b <= hi
         && tries[|tries| - 1] == now' && UsedUp(|tries| - 1, maxRetries)
  }

  /** Event `k` is answered, and `span` is on the route that it offers for the blocks [a, hi). */
  ghost predicate OfferedAt(schedule: seq<Event>, k: nat, a: nat, hi: nat, span: Span)
  {
    && k < |schedule| && schedule[k].answered && Covers(schedule[k].route(a, hi), a, hi)
    && span in Clipped(schedule[k].route(a, hi), hi)
  }

  /** One of the answered events [from, to) offers the span, on a route that ends at `hi`. */
  ghost predicate OfferedIn(schedule: seq<Event>, from: nat, to: nat, hi: nat, span: Span)
  {
    exists k: nat, a: nat :: from <= k < to && OfferedAt(schedule, k, a, hi, span)
  }

  ghost predicate AllOfferedIn(schedule: seq<Event>, from: nat, to: nat, hi: nat, spans: seq<Span>)
  {
    forall span | span in spans :: OfferedIn(schedule, from, to, hi, span)
  }

  lemma OfferedInMore(schedule: seq<Event>, from: nat, to: nat, from': nat, to': nat, hi: nat, spans: seq<Span>)
    requires AllOfferedIn(schedule, from, to, hi, spans) && from' <= from && to <= to'
    ensures AllOfferedIn(schedule, from', to', hi, spans)
  {
    forall span | span in spans ensures OfferedIn(schedule, from', to', hi, span) {
      var k: nat, a: nat :| from <= k < to && OfferedAt(schedule, k, a, hi, span);
    }
  }

  lemma ClippedIsOffered(schedule: seq<Event>, k: nat, a: nat, hi: nat)
    requires k < |schedule| && schedule[k].answered && Covers(schedule[k].route(a, hi), a, hi)
    ensures AllOfferedIn(schedule, k, k + 1, hi, Clipped(schedule[k].route(a, hi), hi))
  {
    forall span | span in Clipped(schedule[k].route(a, hi), hi) ensures OfferedIn(schedule, k, k + 1, hi, span) {
      assert OfferedAt(schedule, k, a, hi, span);
    }
  }
}
