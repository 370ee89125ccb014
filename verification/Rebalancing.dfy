/**
 The rebalancing loop itself: span objects and a throughput array updated in place
 (src/drift/server/block_selection.py, lines 13-96), proved against module BlockSelection.

 The dictionary of spans is a sequence in peer-id order, and a peer id is an index into it.
 */
module Rebalancing {
  import opened BlockSelection
  import opened Wrappers

  class RemoteSpanInfo {
    const throughput: real
    var start: nat
    var end: nat

    constructor (start: nat, end: nat, throughput: real)
      ensures Value() == ServerSpan(start, end, throughput)
    {
      this.start, this.end, this.throughput := start, end, throughput;
    }

    function Value(): ServerSpan
      reads this
    {
      ServerSpan(start, end, throughput)
    }

    /** `_move_span` */
    method MoveTo(newStart: nat)
      requires start <= end
      modifies this
      ensures Value() == old(Value()).MovedTo(newStart)
    {
      start, end := newStart, newStart + (end - start);
    }
  }

  function Snapshot(spans: seq<RemoteSpanInfo>): (s: Swarm)
    reads spans
    ensures |s| == |spans| && forall i | 0 <= i < |s| :: s[i] == spans[i].Value()
  {
    if spans == [] then [] else Snapshot(spans[..|spans| - 1]) + [spans[|spans| - 1].Value()]
  }

  predicate Distinct(spans: seq<RemoteSpanInfo>)
  {
    forall i, j | 0 <= i < j < |spans| :: spans[i] != spans[j]
  }

  /** `throughputs[lo:hi] += d` */
  method AddToSlice(throughputs: array<real>, lo: nat, hi: nat, d: real)
    requires lo <= hi <= throughputs.Length
    modifies throughputs
    ensures throughputs[..] == AddTo(old(throughputs[..]), lo, hi, d)
  {
    for i := lo to hi
      invariant forall k | 0 <= k < throughputs.Length ::
                  throughputs[k] == if lo <= k < i then old(throughputs[k]) + d else old(throughputs[k])
    {
      throughputs[i] := throughputs[i] + d;
    }
  }

  method ComputeThroughputs(spans: seq<RemoteSpanInfo>, total: nat) returns (throughputs: array<real>)
    requires Valid(Snapshot(spans), total)
    ensures fresh(throughputs) && throughputs[..] == Load(Snapshot(spans), total)
  {
    throughputs := new real[total](_ => 0.0);
    ghost var swarm := Snapshot(spans);
    for i := 0 to |spans|
      invariant fresh(throughputs) && throughputs[..] == Load(swarm[..i], total)
    {
      assert spans[i].Value() == swarm[i];
      AddToSlice(throughputs, spans[i].start, spans[i].end, spans[i].throughput);
      LoadOfNext(swarm, i, total);
    }
    assert swarm[..|spans|] == swarm;
  }

  lemma LoadOfNext(swarm: Swarm, i: nat, total: nat)
    requires i < |swarm|
    ensures Load(swarm[..i + 1], total) == AddTo(Load(swarm[..i], total), swarm[i].start, swarm[i].end,
                                                 swarm[i].throughput)
  {
    assert swarm[..i + 1][..i] == swarm[..i];
  }

  /** `np.random.shuffle`: any permutation may result. */
  method Shuffle(items: seq<nat>) returns (shuffled: seq<nat>)
    ensures multiset(shuffled) == multiset(items)
  {
    shuffled := items;
    for i := 0 to |items|
      invariant |shuffled| == |items| && multiset(shuffled) == multiset(items)
    {
      var j: nat :| i <= j < |items|;
      shuffled := shuffled[i := shuffled[j]][j := shuffled[i]];
    }
  }

  ghost function Settled(t: seq<real>, s: ServerSpan, s': ServerSpan): seq<real>
  {
    AddTo(AddTo(t, s.start, s.end, Excess(s.throughput)), s'.start, s'.end, s.throughput)
  }

  /** Puts a server that was taken out of the throughput array at `newStart`. */
  method Settle(span: RemoteSpanInfo, throughputs: array<real>, newStart: nat)
    requires span.start <= span.end <= throughputs.Length
    requires newStart + (span.end - span.start) <= throughputs.Length
    modifies span, throughputs
    ensures span.Value() == old(span.Value()).MovedTo(newStart)
    ensures throughputs[..] == Settled(old(throughputs[..]), old(span.Value()), span.Value())
  {
    ExcessIsEps(span.throughput);
    AddToSlice(throughputs, span.start, span.end, span.throughput * EPS);
    if span.start != newStart {
      span.MoveTo(newStart);
    }
    AddToSlice(throughputs, span.start, span.end, span.throughput);
  }

  lemma SnapshotAfter(before: Swarm, spans: seq<RemoteSpanInfo>, j: nat, value: ServerSpan)
    requires |before| == |spans| && j < |spans| && spans[j].Value() == value
    requires forall i | 0 <= i < |spans| && i != j :: spans[i].Value() == before[i]
    ensures Snapshot(spans) == before[j := value]
  {
  }

  /** Takes a server out of the throughput array and looks for its best place. */
  method TakeOut(span: RemoteSpanInfo, throughputs: array<real>) returns (newStart: nat)
    requires span.Value().Fits(throughputs.Length)
    modifies throughputs
    ensures throughputs[..] == TakenOut(old(throughputs[..]), span.Value())
    ensures newStart == ChooseBestStart(TakenOut(old(throughputs[..]), span.Value()), span.Value().Length())
  {
    ExcessIsEps(span.throughput);
    AddToSlice(throughputs, span.start, span.end, -(span.throughput * (1.0 + EPS)));
    newStart := ChooseBestStart(throughputs[..], span.end - span.start);
  }

  /** The body of the inner loop: take server `j` out, look for its best place, put it there. */
  method Relocate(spans: seq<RemoteSpanInfo>, j: nat, throughputs: array<real>) returns (moved: bool)
    requires j < |spans| && Distinct(spans) && Valid(Snapshot(spans), throughputs.Length)
    requires throughputs[..] == Load(Snapshot(spans), throughputs.Length)
    modifies spans[j], throughputs
    ensures Snapshot(spans) == Move(old(Snapshot(spans)), j, throughputs.Length)
    ensures throughputs[..] == Load(Snapshot(spans), throughputs.Length)
    ensures moved == !AtBestPlace(old(Snapshot(spans)), j, throughputs.Length)
  {
    ghost var swarm, total := Snapshot(spans), throughputs.Length;
    assert spans[j].Value() == swarm[j];
    var newStart := TakeOut(spans[j], throughputs);
    moved := spans[j].start != newStart;
    Settle(spans[j], throughputs, newStart);
    SnapshotAfter(swarm, spans, j, swarm[j].MovedTo(newStart));
    LoadAfterPlacing(swarm, j, newStart, total);
  }

  /** From `origin`, the servers in `moves` went to their best places one after another; now it is `swarm`. */
  ghost predicate Reached(origin: Swarm, moves: seq<nat>, swarm: Swarm, total: nat)
  {
    Valid(origin, total) && Legal(origin, moves, total) && Arrive(origin, moves, total) == swarm
  }

  lemma OneMoreMove(origin: Swarm, moves: seq<nat>, swarm: Swarm, j: nat, total: nat)
    requires Reached(origin, moves, swarm, total) && Misplaced(swarm, j, total)
    ensures Reached(origin, moves + [j], Move(swarm, j, total), total)
  {
    var longer := moves + [j];
    assert longer[..|longer| - 1] == moves;
  }

  lemma StayingChangesNothing(swarm: Swarm, j: nat, total: nat)
    requires Valid(swarm, total) && j < |swarm|
    ensures AtBestPlace(swarm, j, total) ==> Move(swarm, j, total) == swarm
  {
  }

  /** One turn of the inner loop, with the list of moves kept up to date. */
  method Visit(spans: seq<RemoteSpanInfo>, j: nat, throughputs: array<real>, ghost origin: Swarm, ghost moves: seq<nat>)
    returns (moved: bool, ghost moves': seq<nat>)
    requires j < |spans| && Distinct(spans) && Reached(origin, moves, Snapshot(spans), throughputs.Length)
    requires throughputs[..] == Load(Snapshot(spans), throughputs.Length)
    modifies spans[j], throughputs
    ensures Reached(origin, moves', Snapshot(spans), throughputs.Length)
    ensures throughputs[..] == Load(Snapshot(spans), throughputs.Length)
    ensures moves' == if moved then moves + [j] else moves
    ensures !moved ==> Snapshot(spans) == old(Snapshot(spans)) && AtBestPlace(Snapshot(spans), j, throughputs.Length)
  {
    ghost var swarm := Snapshot(spans);
    moved := Relocate(spans, j, throughputs);
    if moved {
      OneMoreMove(origin, moves, swarm, j, throughputs.Length);
      moves' := moves + [j];
    } else {
      StayingChangesNothing(swarm, j, throughputs.Length);
      moves' := moves;
    }
  }

  ghost predicate AllSettled(swarm: Swarm, servers: seq<nat>, count: nat, total: nat)
    requires Valid(swarm, total) && count <= |servers|
  {
    forall k | 0 <= k < count :: servers[k] < |swarm| && AtBestPlace(swarm, servers[k], total)
  }

  lemma OneMoreSettled(swarm: Swarm, servers: seq<nat>, i: nat, total: nat)
    requires Valid(swarm, total) && i < |servers| && servers[i] < |swarm|
    requires AllSettled(swarm, servers, i, total) && AtBestPlace(swarm, servers[i], total)
    ensures AllSettled(swarm, servers, i + 1, total)
  {
  }

  lemma SettledServer(swarm: Swarm, servers: seq<nat>, j: nat, total: nat)
    requires Valid(swarm, total) && AllSettled(swarm, servers, |servers|, total) && j < |swarm| && j in servers
    ensures AtBestPlace(swarm, j, total)
  {
    var k :| 0 <= k < |servers| && servers[k] == j;
    assert AtBestPlace(swarm, servers[k], total);
  }

  lemma AllSettledIsBalanced(swarm: Swarm, servers: seq<nat>, total: nat)
    requires Valid(swarm, total) && AllSettled(swarm, servers, |servers|, total)
    requires forall j: nat | j < |swarm| :: j in servers
    ensures Balanced(swarm, total)
  {
    forall j: nat | j < |swarm| {
      SettledServer(swarm, servers, j, total);
    }
  }

  lemma AllVisited(keys: seq<nat>, servers: seq<nat>)
    requires multiset(keys) == multiset(servers) && forall j | 0 <= j < |keys| :: keys[j] == j
    ensures forall j: nat | j < |keys| :: j in servers
    ensures forall i | 0 <= i < |servers| :: servers[i] < |keys|
  {
    forall j: nat | j < |keys| ensures j in servers {
      assert keys[j] in multiset(keys);
    }
    forall i | 0 <= i < |servers| ensures servers[i] < |keys| {
      assert servers[i] in multiset(servers);
    }
  }

  /** One pass of the loop over all servers in a shuffled order. */
  method RunPass(spans: seq<RemoteSpanInfo>, throughputs: array<real>, ghost origin: Swarm, ghost moves: seq<nat>)
    returns (moved: bool, ghost moves': seq<nat>)
    requires Distinct(spans) && Reached(origin, moves, Snapshot(spans), throughputs.Length)
    requires throughputs[..] == Load(Snapshot(spans), throughputs.Length)
    modifies spans, throughputs
    ensures Reached(origin, moves', Snapshot(spans), throughputs.Length) && moves <= moves'
    ensures throughputs[..] == Load(Snapshot(spans), throughputs.Length)
    ensures moved <==> |moves'| > |moves|
    ensures !moved ==> Balanced(Snapshot(spans), throughputs.Length)
  {
    var keys := seq(|spans|, i requires 0 <= i < |spans| => i);
    var servers := Shuffle(keys);
    AllVisited(keys, servers);
    moved, moves' := false, moves;
    for i := 0 to |servers|
      invariant Reached(origin, moves', Snapshot(spans), throughputs.Length) && moves <= moves'
      invariant throughputs[..] == Load(Snapshot(spans), throughputs.Length)
      invariant moved <==> |moves'| > |moves|
      invariant !moved ==> AllSettled(Snapshot(spans), servers, i, throughputs.Length)
    {
      var movedThis;
      movedThis, moves' := Visit(spans, servers[i], throughputs, origin, moves');
      if movedThis {
        moved := true;
      } else if !moved {
        OneMoreSettled(Snapshot(spans), servers, i, throughputs.Length);
      }
    }
    if !moved {
      AllSettledIsBalanced(Snapshot(spans), servers, throughputs.Length);
    }
  }

  /** The loop that moves servers until none can find a better place. */
  method Rebalance(spans: seq<RemoteSpanInfo>, throughputs: array<real>, ghost origin: Swarm, ghost moves: seq<nat>)
    returns (ghost moves': seq<nat>)
    requires Distinct(spans) && Reached(origin, moves, Snapshot(spans), throughputs.Length)
    requires throughputs[..] == Load(Snapshot(spans), throughputs.Length)
    modifies spans, throughputs
    ensures Reached(origin, moves', Snapshot(spans), throughputs.Length) && moves <= moves'
    ensures throughputs[..] == Load(Snapshot(spans), throughputs.Length)
    ensures Balanced(Snapshot(spans), throughputs.Length)
  {
    moves' := moves;
    var moved := true;
    RunsAreBounded(origin, moves', throughputs.Length);
    while moved
      invariant Reached(origin, moves', Snapshot(spans), throughputs.Length) && moves <= moves'
      invariant throughputs[..] == Load(Snapshot(spans), throughputs.Length)
      invariant |moves'| <= Rank(origin, throughputs.Length)
      invariant !moved ==> Balanced(Snapshot(spans), throughputs.Length)
      decreases Rank(origin, throughputs.Length) - |moves'|, moved
    {
      moved, moves' := RunPass(spans, throughputs, origin, moves');
      RunsAreBounded(origin, moves', throughputs.Length);
    }
  }

  /** Removing the server would leave some block without throughput in a swarm that covers all blocks. */
  predicate WouldDisconnect(swarm: Swarm, local: nat, total: nat)
    requires local < |swarm| && total > 0
  {
    MinOf(Load(swarm, total)) > EPS && MinOf(Without(swarm, local, total)) <= 0.0
  }

  /** In exact terms: every block is served with more than a thousandth, and for some block of the server the others
      together have at most a thousandth of what the server has. */
  lemma DisconnectsIfNearlyAlone(swarm: Swarm, local: nat, total: nat)
    requires Valid(swarm, total) && local < |swarm| && total > 0
    ensures WouldDisconnect(swarm, local, total) <==>
              && EveryBlockServed(swarm, total)
              && exists b: nat :: NearlyAlone(swarm, local, b)
  {
    LowestLoad(swarm, total);
    if EveryBlockServed(swarm, total) {
      LowestWithout(swarm, local, total);
    }
  }

  ghost predicate EveryBlockServed(swarm: Swarm, total: nat)
  {
    forall b: nat | b < total :: LoadAt(swarm, b) > 0.001
  }

  lemma LowestLoad(swarm: Swarm, total: nat)
    requires total > 0
    ensures MinOf(Load(swarm, total)) > 0.001 <==> EveryBlockServed(swarm, total)
  {
    var t := Load(swarm, total);
    MinIsSmallest(t);
    forall b: nat | b < total ensures MinOf(t) <= LoadAt(swarm, b) {
      assert t[b] in t;
    }
    var b :| 0 <= b < total && t[b] == MinOf(t);
    assert LoadAt(swarm, b) == MinOf(t);
  }

  /** What the other servers have at block `b` is at most a thousandth of what server `local` has there. */
  ghost predicate NearlyAlone(swarm: Swarm, local: nat, b: nat)
    requires local < |swarm|
  {
    var s := swarm[local];
    s.start <= b < s.end && LoadAt(swarm[local := s.(throughput := 0.0)], b) <= 0.001 * s.throughput
  }

  lemma OthersAtBlock(swarm: Swarm, local: nat, total: nat, b: nat)
    requires Valid(swarm, total) && local < |swarm| && b < total
    ensures swarm[local].start <= b < swarm[local].end ==>
              (Without(swarm, local, total)[b] <= 0.0 <==> NearlyAlone(swarm, local, b))
    ensures !(swarm[local].start <= b < swarm[local].end) ==> Without(swarm, local, total)[b] == LoadAt(swarm, b)
  {
    LoadOfUpdate(swarm, local, swarm[local].(throughput := 0.0), b);
    ExcessIsEps(swarm[local].throughput);
  }

  lemma LowestWithout(swarm: Swarm, local: nat, total: nat)
    requires Valid(swarm, total) && local < |swarm| && total > 0
    requires EveryBlockServed(swarm, total)
    ensures MinOf(Without(swarm, local, total)) <= 0.0 <==> exists b: nat :: NearlyAlone(swarm, local, b)
  {
    var w := Without(swarm, local, total);
    MinIsSmallest(w);
    if MinOf(w) <= 0.0 {
      var b :| 0 <= b < total && w[b] == MinOf(w);
      OthersAtBlock(swarm, local, total, b);
      assert NearlyAlone(swarm, local, b);
    }
    if b: nat :| NearlyAlone(swarm, local, b) {
      OthersAtBlock(swarm, local, total, b);
      assert w[b] in w;
    }
  }

  /** Server `local` moves to `newStart`, then all servers move until none can find a better place. */
  method BalanceFrom(local: nat, spans: seq<RemoteSpanInfo>, throughputs: array<real>, newStart: nat)
    returns (newThroughput: real, ghost moves: seq<nat>)
    requires Distinct(spans) && Valid(Snapshot(spans), throughputs.Length) && local < |spans| && throughputs.Length > 0
    requires throughputs[..] == Without(Snapshot(spans), local, throughputs.Length)
    requires newStart == BestPlace(Snapshot(spans), local, throughputs.Length) != spans[local].start
    modifies spans, throughputs
    ensures Reached(old(Snapshot(spans)), moves, Snapshot(spans), throughputs.Length) && [local] <= moves
    ensures Balanced(Snapshot(spans), throughputs.Length)
    ensures newThroughput == MinOf(Load(Snapshot(spans), throughputs.Length))
    ensures MinOf(Load(old(Snapshot(spans)), throughputs.Length)) <= newThroughput
  {
    ghost var swarm, total := Snapshot(spans), throughputs.Length;
    Settle(spans[local], throughputs, newStart);
    SnapshotAfter(swarm, spans, local, swarm[local].MovedTo(newStart));
    LoadAfterPlacing(swarm, local, newStart, total);
    OneMoreMove(swarm, [], swarm, local, total);
    moves := Rebalance(spans, throughputs, swarm, [] + [local]);
    newThroughput := MinOf(throughputs[..]);
    RunsAreBounded(swarm, moves, total);
  }

  /** The weakest block of the balanced swarm is served, and that of the present one is too far below it. */
  ghost predicate PaysOff(present: real, balanced: real, balanceQuality: real)
  {
    balanced >= 0.001 && present < (balanceQuality - 0.001) * balanced
  }

  /** What a check finds once the blocks are known to be covered: where the swarm would end up, and whether that pays
      off. */
  ghost predicate Decided(swarm: Swarm, swarm': Swarm, local: nat, total: nat, balanceQuality: real, answer: bool,
                          moves: seq<nat>)
    requires Valid(swarm, total) && local < |swarm| && total > 0
  {
    if WouldDisconnect(swarm, local, total) || AtBestPlace(swarm, local, total) then !answer && swarm' == swarm
    else
      && Reached(swarm, moves, swarm', total) && [local] <= moves && Valid(swarm', total) && Balanced(swarm', total)
      && answer == PaysOff(MinOf(Load(swarm, total)), MinOf(Load(swarm', total)), balanceQuality)
  }

  /** When servers moved, the answer compares the weakest blocks before and after, whatever their throughputs are. */
  lemma AnswerComparesWeakest(swarm: Swarm, swarm': Swarm, local: nat, total: nat, balanceQuality: real, answer: bool,
                              moves: seq<nat>, present: real, balanced: real)
    requires Valid(swarm, total) && local < |swarm| && total > 0
    requires Decided(swarm, swarm', local, total, balanceQuality, answer, moves)
    requires !WouldDisconnect(swarm, local, total) && !AtBestPlace(swarm, local, total)
    requires present == MinOf(Load(swarm, total)) && balanced == MinOf(Load(swarm', total))
    ensures answer <==> balanced >= 0.001 && present < (balanceQuality - 0.001) * balanced
    ensures answer && balanceQuality <= 1.0 ==> present < balanced
    ensures balanceQuality > 0.001 && present == 0.0 && balanced >= 0.001 ==> answer
  {
    QualityBounds(present, balanced, balanceQuality);
  }

  lemma QualityBounds(present: real, balanced: real, q: real)
    ensures PaysOff(present, balanced, q) <==> balanced >= 0.001 && present < (q - 0.001) * balanced
    ensures PaysOff(present, balanced, q) && q <= 1.0 ==> present < balanced
    ensures q > 0.001 && present == 0.0 && balanced >= 0.001 ==> PaysOff(present, balanced, q)
  {
    if balanced >= 0.001 && q <= 1.0 {
      assert (1.0 - (q - 0.001)) * balanced > 0.0;
    }
    if balanced >= 0.001 && q > 0.001 {
      assert (q - 0.001) * balanced > 0.0;
    }
  }

  lemma ScaledLess(x: real, q: real, b: real)
    requires b > 0.0
    ensures x < q <==> x * b < q * b
  {
    if x < q {
      assert (q - x) * b > 0.0;
    } else {
      assert (x - q) * b >= 0.0;
    }
  }

  /** Is the present quality too far below that of the balanced swarm? */
  method Judge(initialThroughput: real, newThroughput: real, balanceQuality: real) returns (answer: bool)
    requires initialThroughput <= newThroughput
    ensures answer == PaysOff(initialThroughput, newThroughput, balanceQuality)
  {
    if newThroughput < initialThroughput || newThroughput < EPS { return false; }
    var actualQuality := initialThroughput / newThroughput;
    ScaledLess(actualQuality, balanceQuality - EPS, newThroughput);
    answer := actualQuality < balanceQuality - EPS;
  }

  /** Takes the local server out, and unless it has to stay or wants to, lets all servers move. */
  method Decide(local: nat, spans: seq<RemoteSpanInfo>, throughputs: array<real>, balanceQuality: real)
    returns (answer: bool, ghost moves: seq<nat>)
    requires Distinct(spans) && Valid(Snapshot(spans), throughputs.Length) && local < |spans| && throughputs.Length > 0
    requires throughputs[..] == Load(Snapshot(spans), throughputs.Length)
    modifies spans, throughputs
    ensures Decided(old(Snapshot(spans)), Snapshot(spans), local, throughputs.Length, balanceQuality, answer, moves)
  {
    moves := [];
    var initialThroughput := MinOf(throughputs[..]);
    assert spans[local].Value() == Snapshot(spans)[local];
    var newStart := TakeOut(spans[local], throughputs);
    if initialThroughput > EPS && MinOf(throughputs[..]) <= 0.0 { return false, moves; }
    if spans[local].start == newStart { return false, moves; }
    var newThroughput;
    newThroughput, moves := BalanceFrom(local, spans, throughputs, newStart);
    answer := Judge(initialThroughput, newThroughput, balanceQuality);
  }

  const NO_BLOCKS := "zero-size array to reduction operation minimum"
  const NOT_ANNOUNCED := "Span served by this server is not present in the DHT"

  /**
   `should_choose_other_blocks`.  `moves` records who moved in what order; the branch that compares the new
   minimum with the initial one is dead in exact arithmetic.
   */
  method ShouldChooseOtherBlocks(local: nat, spans: seq<RemoteSpanInfo>, total: nat, balanceQuality: real)
    returns (answer: Result<bool, string>, ghost moves: seq<nat>)
    requires Distinct(spans) && Valid(Snapshot(spans), total)
    modifies spans
    ensures balanceQuality > 1.0 ==> answer == Ok(true)
    ensures balanceQuality <= 1.0 && total == 0 ==> answer == Err(NO_BLOCKS)
    ensures balanceQuality <= 1.0 && total > 0 && local >= |spans| ==> answer == Err(NOT_ANNOUNCED)
    ensures balanceQuality <= 1.0 && total > 0 && local < |spans| ==>
              answer.Ok? && Decided(old(Snapshot(spans)), Snapshot(spans), local, total, balanceQuality, answer.value,
                                    moves)
  {
    moves := [];
    if balanceQuality > 1.0 { return Ok(true), moves; }
    var throughputs := ComputeThroughputs(spans, total);
    if total == 0 { return Err(NO_BLOCKS), moves; }
    if local >= |spans| { return Err(NOT_ANNOUNCED), moves; }
    var choice;
    choice, moves := Decide(local, spans, throughputs, balanceQuality);
    answer := Ok(choice);
  }
}
