/**
 The steps of an inference session: requests come from the client's own stream and from servers that push on its behalf,
 and the same step may come over both.
 */
module Handler {
  import opened Wrappers

  /** A request without tensors ends the session; a request without a step number is always served. */
  datatype Request = Request(step: Option<nat>, hasTensors: bool, id: nat)

  /** Which of the two pending tasks the wait finds done; `Neither` is a timeout. */
  datatype Ready = FromClient | FromPush | Neither

  // ----- which requests are served -----

  /** No earlier request had the same step number. */
  predicate IsFresh(examined: seq<Request>, i: nat)
    requires i < |examined|
  {
    examined[i].step.None? || forall j | 0 <= j < i :: examined[j].step != examined[i].step
  }

  /** The requests that carry tensors and whose step was not seen before. */
  function Served(examined: seq<Request>): seq<Request>
  {
    if |examined| == 0 then []
    else
      var before, n := Served(examined[..|examined| - 1]), |examined| - 1;
      if examined[n].hasTensors && IsFresh(examined, n) then before + [examined[n]] else before
  }

  lemma {:induction false} ServedWereExamined(examined: seq<Request>)
    ensures forall r | r in Served(examined) :: r in examined && r.hasTensors
  {
    if |examined| > 0 {
      ServedWereExamined(examined[..|examined| - 1]);
    }
  }

  /** No step number is served twice. */
  lemma {:induction false} StepsAreServedOnce(examined: seq<Request>)
    ensures forall i, j | 0 <= i < j < |Served(examined)| && Served(examined)[i].step.Some? ::
              Served(examined)[i].step != Served(examined)[j].step
  {
    if |examined| > 0 {
      var front := examined[..|examined| - 1];
      StepsAreServedOnce(front);
      ServedWereExamined(front);
      forall r | r in Served(front) ensures exists j :: 0 <= j < |front| && examined[j] == r {
        var j :| 0 <= j < |front| && front[j] == r;
        assert examined[j] == r;
      }
    }
  }

  /** Every step that reached the session with tensors is served, and every request without a number. */
  lemma {:induction false} EveryStepIsServed(examined: seq<Request>, i: nat)
    requires i < |examined| && forall k | 0 <= k < |examined| - 1 :: examined[k].hasTensors
    requires examined[i].hasTensors
    ensures exists r :: r in Served(examined) && r.step == examined[i].step
  {
    var n := |examined| - 1;
    var front := examined[..n];
    if i < n {
      EveryStepIsServed(front, i);
      var r :| r in Served(front) && r.step == examined[i].step;
      assert r in Served(examined);
    } else if !IsFresh(examined, n) {
      var j :| 0 <= j < n && examined[j].step == examined[n].step;
      EveryStepIsServed(front, j);
      var r :| r in Served(front) && r.step == examined[j].step;
      assert r in Served(examined);
    } else {
      assert examined[n] in Served(examined);
    }
  }

  /** Serving keeps the order: what has been served stays a prefix of what will have been. */
  lemma {:induction false} ServedGrows(examined: seq<Request>, n: nat)
    requires n <= |examined|
    ensures Served(examined[..n]) <= Served(examined)
  {
    if n < |examined| {
      var front := examined[..|examined| - 1];
      ServedGrows(front, n);
      assert front[..n] == examined[..n];
    } else {
      assert examined[..n] == examined;
    }
  }

  /** Where the served requests stand among those examined. */
  function ServedPlaces(examined: seq<Request>): (places: seq<nat>)
  {
    if |examined| == 0 then []
    else
      var before, n := ServedPlaces(examined[..|examined| - 1]), |examined| - 1;
      if examined[n].hasTensors && IsFresh(examined, n) then before + [n] else before
  }

  /** Requests are served in the order of first arrival: the places of those served rise, and they are exactly the
      places of the requests with tensors whose step had not come before. */
  lemma {:induction false} ServedInOrderOfArrival(examined: seq<Request>)
    ensures |ServedPlaces(examined)| == |Served(examined)|
    ensures forall i, j | 0 <= i < j < |ServedPlaces(examined)| :: ServedPlaces(examined)[i] < ServedPlaces(examined)[j]
    ensures forall i | 0 <= i < |ServedPlaces(examined)| ::
              ServedPlaces(examined)[i] < |examined| && Served(examined)[i] == examined[ServedPlaces(examined)[i]]
    ensures forall k | 0 <= k < |examined| :: k in ServedPlaces(examined) <==>
                                              examined[k].hasTensors && IsFresh(examined, k)
  {
    if |examined| > 0 {
      var n := |examined| - 1;
      ServedInOrderOfArrival(examined[..n]);
      forall k | 0 <= k < n ensures IsFresh(examined[..n], k) == IsFresh(examined, k) {
        assert examined[..n][k] == examined[k];
      }
    }
  }

  // ----- where requests come from -----

  function Count(order: seq<Ready>, from: Ready): nat
  {
    if |order| == 0 then 0 else Count(order[..|order| - 1], from) + (if order[|order| - 1] == from then 1 else 0)
  }

  /** `r` is the next message of the channel `from` after those that `before` names. */
  predicate IsNext(from: Ready, before: seq<Ready>, r: Request, client: seq<Request>, pushes: seq<Request>)
  {
    match from
    case FromClient => Count(before, FromClient) < |client| && r == client[Count(before, FromClient)]
    case FromPush => Count(before, FromPush) < |pushes| && r == pushes[Count(before, FromPush)]
    case Neither => false
  }

  /** The first request, then one after the other the next one of the channel that `order` names. */
  ghost predicate Interleaves(examined: seq<Request>, first: Request, client: seq<Request>, pushes: seq<Request>,
                              order: seq<Ready>)
  {
    && |examined| == 1 + |order| && examined[0] == first
    && forall k | 0 <= k < |order| :: IsNext(order[k], order[..k], examined[k + 1], client, pushes)
  }

  lemma InterleavesNext(examined: seq<Request>, first: Request, client: seq<Request>, pushes: seq<Request>,
                        order: seq<Ready>, from: Ready, r: Request)
    requires Interleaves(examined, first, client, pushes, order) && IsNext(from, order, r, client, pushes)
    ensures Interleaves(examined + [r], first, client, pushes, order + [from])
  {
    var examined', order' := examined + [r], order + [from];
    forall k | 0 <= k < |order'| ensures IsNext(order'[k], order'[..k], examined'[k + 1], client, pushes) {
      if k < |order| {
        assert order'[..k] == order[..k] && examined'[k + 1] == examined[k + 1];
      } else {
        assert order'[..k] == order;
      }
    }
  }

  lemma InterleavesBefore(examined: seq<Request>, first: Request, client: seq<Request>, pushes: seq<Request>,
                          order: seq<Ready>, n: nat)
    requires Interleaves(examined, first, client, pushes, order) && n <= |order|
    ensures Interleaves(examined[..n + 1], first, client, pushes, order[..n])
  {
    forall k | 0 <= k < n ensures IsNext(order[..n][k], order[..n][..k], examined[..n + 1][k + 1], client, pushes) {
      assert order[..n][..k] == order[..k] && IsNext(order[k], order[..k], examined[k + 1], client, pushes);
    }
  }

  /** Every message of a channel up to the last one examined is examined, and none of them twice: the messages at the
      places that `order` gives to the channel are the channel's first ones, in order. */
  lemma {:induction false} NothingSkippedOrRepeated(examined: seq<Request>, first: Request, client: seq<Request>,
                                                    pushes: seq<Request>, order: seq<Ready>, from: Ready)
    requires Interleaves(examined, first, client, pushes, order) && !from.Neither?
    ensures var channel := if from.FromClient? then client else pushes;
            Count(order, from) <= |channel| && Places(examined[1..], order, from) == channel[..Count(order, from)]
  {
    if |order| == 0 {
      assert examined[1..] == [];
    } else {
      var n := |order| - 1;
      InterleavesBefore(examined, first, client, pushes, order, n);
      NothingSkippedOrRepeated(examined[..n + 1], first, client, pushes, order[..n], from);
      assert IsNext(order[n], order[..n], examined[n + 1], client, pushes);
      assert examined[1..][..n] == examined[..n + 1][1..] && examined[1..][n] == examined[n + 1];
    }
  }

  /** The messages at the places where `order` says `from`. */
  function Places(messages: seq<Request>, order: seq<Ready>, from: Ready): seq<Request>
    requires |messages| == |order|
  {
    if |order| == 0 then []
    else
      var n := |order| - 1;
      Places(messages[..n], order[..n], from) + if order[n] == from then [messages[n]] else []
  }

  // ----- the session loop -----

  /** The two pending tasks. Each holds the number of the next message of its channel until that message is examined. */
  datatype Tasks = Tasks(anextTask: Option<nat>, nextClient: nat, getPushTask: Option<nat>, nextPush: nat)

  predicate Holds(task: Option<nat>, next: nat, taken: nat)
  {
    if task.None? then next == taken else task == Some(taken) && next == taken + 1
  }

  predicate Pending(tasks: Tasks, order: seq<Ready>)
  {
    Holds(tasks.anextTask, tasks.nextClient, Count(order, FromClient))
    && Holds(tasks.getPushTask, tasks.nextPush, Count(order, FromPush))
  }

  /** Creates the tasks that are missing, waits, and takes the message of the task that the wait finds done. */
  method NextRequest(tasks: Tasks, done: Ready, client: seq<Request>, pushes: seq<Request>, ghost order: seq<Ready>)
    returns (r: Option<Request>, tasks': Tasks)
    requires Pending(tasks, order)
    ensures r.Some? ==> IsNext(done, order, r.value, client, pushes) && Pending(tasks', order + [done])
    ensures r.None? ==> Unanswered(done, client, pushes, order)
  {
    var anextTask, nextClient := tasks.anextTask, tasks.nextClient;
    var getPushTask, nextPush := tasks.getPushTask, tasks.nextPush;
    if anextTask.None? { anextTask, nextClient := Some(nextClient), nextClient + 1; }
    if getPushTask.None? { getPushTask, nextPush := Some(nextPush), nextPush + 1; }
    r, tasks' := None, Tasks(anextTask, nextClient, getPushTask, nextPush);
    if done == FromClient && anextTask.value < |client| {
      r, tasks' := Some(client[anextTask.value]), tasks'.(anextTask := None);
    } else if done == FromPush && getPushTask.value < |pushes| {
      r, tasks' := Some(pushes[getPushTask.value]), tasks'.(getPushTask := None);
    }
    assert (order + [done])[..|order|] == order;
  }

  /** The wait timed out, or the channel has nothing more. */
  predicate Unanswered(done: Ready, client: seq<Request>, pushes: seq<Request>, order: seq<Ready>)
  {
    match done
    case FromClient => Count(order, FromClient) >= |client|
    case FromPush => Count(order, FromPush) >= |pushes|
    case Neither => true
  }

  ghost predicate Seen(examined: seq<Request>, n: nat, s: nat)
    requires n <= |examined|
  {
    exists j :: 0 <= j < n && examined[j].step == Some(s)
  }

  ghost predicate Remembers(processed: set<nat>, examined: seq<Request>, n: nat)
    requires n <= |examined|
  {
    forall s: nat :: s in processed <==> Seen(examined, n, s)
  }

  /** Serves the request unless its step was processed before. */
  method ServeOnce(served: seq<Request>, processed: set<nat>, ghost examined: seq<Request>, request: Request)
    returns (served': seq<Request>, processed': set<nat>)
    requires |examined| > 0 && request == examined[|examined| - 1] && request.hasTensors
    requires served == Served(examined[..|examined| - 1]) && Remembers(processed, examined, |examined| - 1)
    ensures served' == Served(examined) && Remembers(processed', examined, |examined|)
  {
    served', processed' := served, processed;
    ghost var n := |examined| - 1;
    assert request.step.Some? ==> (IsFresh(examined, n) <==> !Seen(examined, n, request.step.value));
    if request.step.None? || request.step.value !in processed {
      served' := served' + [request];
      if request.step.Some? { processed' := processed' + {request.step.value}; }
    }
    forall s: nat ensures s in processed' <==> Seen(examined, |examined|, s) {
      SeenNext(examined, s);
    }
  }

  lemma SeenNext(examined: seq<Request>, s: nat)
    requires |examined| > 0
    ensures Seen(examined, |examined|, s) <==> Seen(examined, |examined| - 1, s)
                                               || examined[|examined| - 1].step == Some(s)
  {
  }

  lemma RemembersStill(processed: set<nat>, examined: seq<Request>, r: Request)
    requires Remembers(processed, examined, |examined|)
    ensures Remembers(processed, examined + [r], |examined|)
  {
    forall s: nat ensures s in processed <==> Seen(examined + [r], |examined|, s) {
      assert s in processed <==> Seen(examined, |examined|, s);
      if Seen(examined, |examined|, s) {
        var j :| 0 <= j < |examined| && examined[j].step == Some(s);
        assert (examined + [r])[j].step == Some(s);
      }
    }
  }

  /** Serves a session. `client` and `pushes` are all messages that the two channels will ever deliver, and `ready` says
      which task each wait finds done. Whatever the interleaving, the messages of each channel are examined one by one
      from the first on, and the first request of every step is served. */
  method IterateInferenceSteps(first: Request, client: seq<Request>, pushes: seq<Request>, ready: seq<Ready>)
    returns (served: seq<Request>, examined: seq<Request>, order: seq<Ready>)
    ensures Interleaves(examined, first, client, pushes, order) && served == Served(examined)
    ensures forall k | 0 <= k < |examined| - 1 :: examined[k].hasTensors
    ensures |order| <= |ready| && order == ready[..|order|]
    ensures |order| == |ready| || !examined[|examined| - 1].hasTensors
            || Unanswered(ready[|order|], client, pushes, order)
  {
    var processed: set<nat> := {};
    var tasks := Tasks(None, 0, None, 0);
    var request := first;
    served, examined, order := [], [first], [];
    while request.hasTensors
      invariant Interleaves(examined, first, client, pushes, order) && request == examined[|examined| - 1]
      invariant served == Served(examined[..|examined| - 1]) && Remembers(processed, examined, |examined| - 1)
      invariant forall k | 0 <= k < |examined| - 1 :: examined[k].hasTensors
      invariant |order| <= |ready| && order == ready[..|order|] && Pending(tasks, order)
      decreases |ready| - |order|
    {
      served, processed := ServeOnce(served, processed, examined, request);
      if |order| == |ready| { return; }
      var done, r := ready[|order|], None;
      r, tasks := NextRequest(tasks, done, client, pushes, order);
      if r.None? { return; }
      request := r.value;
      InterleavesNext(examined, first, client, pushes, order, done, request);
      RemembersStill(processed, examined, request);
      assert (examined + [request])[..|examined|] == examined;
      examined, order := examined + [request], order + [done];
    }
  }
}
