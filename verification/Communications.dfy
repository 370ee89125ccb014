/**
 AllReduce as interleaved thread steps (src/drift/utils/tensor_parallel/communications.py, lines 58-126).

 Each rank is a thread that calls AllReduce again and again.  A step is one access to state shared between
 threads; "check the length, then set the event" counts as one step.  Lists and events that are replaced on
 every call live in a heap and are named by their address, so a thread may still hold the previous ones.
 */
module Communications {
  import opened TensorSplit
  import opened AllReduceSums

  // The points of a call at which a thread may be. First the reduction:
  const APPEND := 0        // it adds its chunk to the list of rank `i`
  const CHECK := 1         // it wakes rank `i` if that list is complete
  const WAIT := 2          // it waits until its own list is complete
  const REDUCE := 3        // it adds up the chunks in its list
  const CLEAR_PARTS := 4   // it empties its list
  const CLEAR_EVENT := 5   // it resets the event of its list
  // then the exchange of what was reduced:
  const READ_PARTS := 6    // it notes the current array of results,
  const READ_UPDATED := 7  // the current list of ranks that have delivered,
  const READ_READY := 8    // and the current event
  const WRITE := 9         // it puts its result into the array
  const ANNOUNCE := 10     // it adds itself to the list of ranks
  const CHECK_ALL := 11    // it wakes everybody if that list is complete
  const WAIT_ALL := 12     // it waits until everybody has delivered
  const GATHER := 13       // it joins the results
  const LAST := 14         // it looks whether it was the last to deliver; if so, it sets up the next round:
  const NEW_PARTS := 15    // an empty array,
  const NEW_UPDATED := 16  // an empty list of ranks,
  const NEW_READY := 17    // and an event that is not set

  /** A chunk in a list of ScatterReduce, with the rank and the round it comes from. */
  datatype Part = Part(rank: nat, round: nat, values: seq<int>)

  datatype Slot = Empty | Filled(values: seq<int>)

  /** A thread: its current call of AllReduce, the step it takes next, and its local variables. */
  datatype Rank = Rank(round: nat, pc: nat, i: nat, reduced: seq<int>, parts: nat, updated: nat, ready: nat,
                       results: seq<seq<int>>)
  {
    function To(next: nat): Rank { this.(pc := next) }

    /** The call returns and the next one begins. */
    function NextCall(): Rank { this.(round := round + 1, pc := APPEND, i := 0) }
  }

  datatype State = State(
    ranks: seq<Rank>,
    tensorParts: seq<seq<Part>>, scatterReady: seq<bool>,
    partsHeap: seq<seq<Slot>>, updatedHeap: seq<seq<nat>>, readyHeap: seq<bool>,
    selfParts: nat, selfUpdated: nat, selfReady: nat)
  {
    function Set(r: nat, t: Rank): State
      requires r < |ranks|
    {
      this.(ranks := ranks[r := t])
    }
  }

  function Start(world: nat): State
  {
    State(seq(world, _ => Rank(0, APPEND, 0, [], 0, 0, 0, [])),
          seq(world, _ => []), seq(world, _ => false),
          [seq(world, _ => Empty)], [[]], [false], 0, 0, 0)
  }

  ghost predicate Shape(st: State, world: nat)
  {
    && 0 < world == |st.ranks| == |st.tensorParts| == |st.scatterReady|
    && |st.partsHeap| == st.selfParts + 1 && |st.updatedHeap| == st.selfUpdated + 1
    && |st.readyHeap| == st.selfReady + 1
    && (forall g | 0 <= g < |st.partsHeap| :: |st.partsHeap[g]| == world)
    && (forall r | 0 <= r < world :: RankShape(st.ranks[r], world))
  }

  predicate RankShape(t: Rank, world: nat)
  {
    t.pc <= NEW_READY && (t.pc <= CHECK ==> t.i < world)
  }

  // ----- steps of one rank -----

  function ValuesOf(list: seq<Part>): (v: seq<seq<int>>)
    ensures |v| == |list| && forall a | 0 <= a < |list| :: v[a] == list[a].values
  {
    seq(|list|, a requires 0 <= a < |list| => list[a].values)
  }

  function AfterScatter(st: State, r: nat, world: nat, x: Inputs): State
    requires Shape(st, world) && r < world && st.ranks[r].pc <= WAIT
  {
    var t := st.ranks[r];
    if t.pc == APPEND then
      st.Set(r, t.To(CHECK))
        .(tensorParts := st.tensorParts[t.i := st.tensorParts[t.i]
                                        + [Part(r, t.round, Chunk(x(r, t.round), world, t.i))]])
    else if t.pc == CHECK then
      st.Set(r, if t.i + 1 < world then t.To(APPEND).(i := t.i + 1) else t.To(WAIT))
        .(scatterReady := if |st.tensorParts[t.i]| == world then st.scatterReady[t.i := true] else st.scatterReady)
    else st.Set(r, t.To(REDUCE))
  }

  function AfterReduce(st: State, r: nat, world: nat): State
    requires Shape(st, world) && r < world && REDUCE <= st.ranks[r].pc <= CLEAR_EVENT
    requires st.ranks[r].pc == REDUCE ==> Summable(ValuesOf(st.tensorParts[r]))
  {
    var t := st.ranks[r];
    if t.pc == REDUCE then
      var values := ValuesOf(st.tensorParts[r]);
      st.Set(r, t.To(CLEAR_PARTS).(reduced := Sum(values, |values[0]|)))
    else if t.pc == CLEAR_PARTS then st.Set(r, t.To(CLEAR_EVENT)).(tensorParts := st.tensorParts[r := []])
    else st.Set(r, t.To(READ_PARTS)).(scatterReady := st.scatterReady[r := false])
  }

  /** `reduce_op` needs at least one tensor, and tensors of one shape. */
  predicate Summable(values: seq<seq<int>>)
  {
    values != [] && SameLength(values, |values[0]|)
  }

  function AfterRead(st: State, r: nat, world: nat): State
    requires Shape(st, world) && r < world && READ_PARTS <= st.ranks[r].pc <= READ_READY
  {
    var t := st.ranks[r];
    if t.pc == READ_PARTS then st.Set(r, t.To(READ_UPDATED).(parts := st.selfParts))
    else if t.pc == READ_UPDATED then st.Set(r, t.To(READ_READY).(updated := st.selfUpdated))
    else st.Set(r, t.To(WRITE).(ready := st.selfReady))
  }

  /** The objects that a rank holds exist. */
  predicate HoldsObjects(st: State, t: Rank)
  {
    t.parts < |st.partsHeap| && t.updated < |st.updatedHeap| && t.ready < |st.readyHeap|
  }

  function AfterGather(st: State, r: nat, world: nat): State
    requires Shape(st, world) && r < world && WRITE <= st.ranks[r].pc <= GATHER && HoldsObjects(st, st.ranks[r])
    requires st.ranks[r].pc == GATHER ==> AllFilled(st.partsHeap[st.ranks[r].parts])
  {
    var t := st.ranks[r];
    if t.pc == WRITE then
      st.Set(r, t.To(ANNOUNCE)).(partsHeap := st.partsHeap[t.parts := st.partsHeap[t.parts][r := Filled(t.reduced)]])
    else if t.pc == ANNOUNCE then
      st.Set(r, t.To(CHECK_ALL)).(updatedHeap := st.updatedHeap[t.updated := st.updatedHeap[t.updated] + [r]])
    else if t.pc == CHECK_ALL then
      st.Set(r, t.To(WAIT_ALL))
        .(readyHeap := if |st.updatedHeap[t.updated]| == world then st.readyHeap[t.ready := true] else st.readyHeap)
    else if t.pc == WAIT_ALL then st.Set(r, t.To(GATHER))
    else st.Set(r, t.To(LAST).(results := t.results + [Cat(Contents(st.partsHeap[t.parts]))]))
  }

  predicate AllFilled(slots: seq<Slot>)
  {
    forall r | 0 <= r < |slots| :: slots[r].Filled?
  }

  function Contents(slots: seq<Slot>): (v: seq<seq<int>>)
    requires AllFilled(slots)
    ensures |v| == |slots| && forall r | 0 <= r < |v| :: v[r] == slots[r].values
  {
    seq(|slots|, r requires 0 <= r < |slots| => slots[r].values)
  }

  function AfterReplace(st: State, r: nat, world: nat): State
    requires Shape(st, world) && r < world && st.ranks[r].pc >= LAST
    requires st.ranks[r].pc == LAST ==> HoldsObjects(st, st.ranks[r]) && st.updatedHeap[st.ranks[r].updated] != []
  {
    var t := st.ranks[r];
    if t.pc == LAST then st.Set(r, if LastOf(st.updatedHeap[t.updated]) == r then t.To(NEW_PARTS) else t.NextCall())
    else if t.pc == NEW_PARTS then
      st.Set(r, t.To(NEW_UPDATED)).(partsHeap := st.partsHeap + [seq(world, _ => Empty)], selfParts := |st.partsHeap|)
    else if t.pc == NEW_UPDATED then
      st.Set(r, t.To(NEW_READY)).(updatedHeap := st.updatedHeap + [[]], selfUpdated := |st.updatedHeap|)
    else st.Set(r, t.NextCall()).(readyHeap := st.readyHeap + [false], selfReady := |st.readyHeap|)
  }

  function LastOf(list: seq<nat>): nat
    requires list != []
  {
    list[|list| - 1]
  }

  ghost predicate ScatterStep(st: State, st': State, r: nat, world: nat, x: Inputs)
    requires Shape(st, world) && r < world
  {
    && st.ranks[r].pc <= WAIT && (st.ranks[r].pc == WAIT ==> st.scatterReady[r])
    && st' == AfterScatter(st, r, world, x)
  }

  ghost predicate ReduceStep(st: State, st': State, r: nat, world: nat)
    requires Shape(st, world) && r < world
  {
    && REDUCE <= st.ranks[r].pc <= CLEAR_EVENT && (st.ranks[r].pc == REDUCE ==> Summable(ValuesOf(st.tensorParts[r])))
    && st' == AfterReduce(st, r, world)
  }

  ghost predicate ReadStep(st: State, st': State, r: nat, world: nat)
    requires Shape(st, world) && r < world
  {
    READ_PARTS <= st.ranks[r].pc <= READ_READY && st' == AfterRead(st, r, world)
  }

  ghost predicate GatherStep(st: State, st': State, r: nat, world: nat)
    requires Shape(st, world) && r < world
  {
    var t := st.ranks[r];
    && WRITE <= t.pc <= GATHER && HoldsObjects(st, t)
    && (t.pc == WAIT_ALL ==> st.readyHeap[t.ready])
    && (t.pc == GATHER ==> AllFilled(st.partsHeap[t.parts]))
    && st' == AfterGather(st, r, world)
  }

  ghost predicate ReplaceStep(st: State, st': State, r: nat, world: nat)
    requires Shape(st, world) && r < world
  {
    var t := st.ranks[r];
    && t.pc >= LAST && (t.pc == LAST ==> HoldsObjects(st, t) && st.updatedHeap[t.updated] != [])
    && st' == AfterReplace(st, r, world)
  }

  ghost predicate Step(st: State, st': State, r: nat, world: nat, x: Inputs)
    requires Shape(st, world) && r < world
  {
    || ScatterStep(st, st', r, world, x) || ReduceStep(st, st', r, world) || ReadStep(st, st', r, world)
    || GatherStep(st, st', r, world) || ReplaceStep(st, st', r, world)
  }

  // ----- what a rank has done so far -----

  /** The rank has put its part `i` of round `k` into the list of rank `i`. */
  predicate Appended(t: Rank, k: nat, i: nat)
  {
    t.round > k || (t.round == k && (t.pc >= WAIT || t.i > i || (t.i == i && t.pc == CHECK)))
  }

  predicate Written(t: Rank, k: nat)
  {
    t.round > k || (t.round == k && t.pc >= ANNOUNCE)
  }

  predicate Announced(t: Rank, k: nat)
  {
    t.round > k || (t.round == k && t.pc >= CHECK_ALL)
  }

  /** The round whose parts the list of this rank is collecting. */
  function Epoch(t: Rank): nat
  {
    if t.pc <= CLEAR_PARTS then t.round else t.round + 1
  }

  ghost predicate AllAppended(ranks: seq<Rank>, k: nat, i: nat)
  {
    forall s | 0 <= s < |ranks| :: Appended(ranks[s], k, i)
  }

  ghost predicate AllAnnounced(ranks: seq<Rank>, k: nat)
  {
    forall s | 0 <= s < |ranks| :: Announced(ranks[s], k)
  }

  // ----- invariants -----

  /** No rank is more than one call ahead, and a wait that was passed was passed rightly. */
  ghost predicate Skew(ranks: seq<Rank>)
  {
    && (forall r, s | 0 <= r < |ranks| && 0 <= s < |ranks| :: InStep(ranks[r], ranks[s]))
    && (forall r | 0 <= r < |ranks| && ranks[r].pc >= REDUCE :: AllAppended(ranks, ranks[r].round, r))
    && (forall r | 0 <= r < |ranks| && ranks[r].pc >= GATHER :: AllAnnounced(ranks, ranks[r].round))
  }

  predicate InStep(t: Rank, u: Rank)
  {
    && t.round <= u.round + 1
    && (t.round == u.round + 1 ==> t.pc <= WAIT && u.pc >= CHECK_ALL)
  }

  ghost predicate HasRank(list: seq<Part>, s: nat)
  {
    exists a :: 0 <= a < |list| && list[a].rank == s
  }

  /** The list of rank `i` holds exactly the parts put there for the round it is collecting, each once. */
  ghost predicate GoodList(ranks: seq<Rank>, list: seq<Part>, i: nat, x: Inputs)
    requires i < |ranks|
  {
    && (forall a, b | 0 <= a < b < |list| :: list[a].rank != list[b].rank)
    && (forall a | 0 <= a < |list| :: GoodPart(ranks, list[a], i, x))
    && (forall s | 0 <= s < |ranks| && Appended(ranks[s], Epoch(ranks[i]), i) :: HasRank(list, s))
  }

  ghost predicate GoodPart(ranks: seq<Rank>, p: Part, i: nat, x: Inputs)
    requires i < |ranks|
  {
    && p.rank < |ranks| && p.round == Epoch(ranks[i]) && Appended(ranks[p.rank], p.round, i)
    && p.values == Chunk(x(p.rank, p.round), |ranks|, i)
  }

  ghost predicate Lists(st: State, world: nat, x: Inputs)
    requires Shape(st, world)
  {
    && (forall i | 0 <= i < world :: GoodList(st.ranks, st.tensorParts[i], i, x))
    && (forall i | 0 <= i < world && st.scatterReady[i] ::
          st.ranks[i].pc == CLEAR_EVENT || AllAppended(st.ranks, Epoch(st.ranks[i]), i))
  }

  // ----- progress of one rank -----

  /** What one step does to the thread that takes it. */
  predicate Advances(t: Rank, t': Rank)
  {
    || (t'.round == t.round + 1 && t.pc >= LAST && t'.pc == APPEND && t'.i == 0)
    || (t'.round == t.round && t.pc < t'.pc && (t.pc == APPEND ==> t'.pc == CHECK && t'.i == t.i))
    || (t'.round == t.round && t.pc == CHECK && t'.pc == APPEND && t'.i == t.i + 1)
  }

  lemma SkewAfter(ranks: seq<Rank>, r: nat, t': Rank)
    requires Skew(ranks) && r < |ranks| && Advances(ranks[r], t')
    requires forall s | 0 <= s < |ranks| && s != r :: InStep(t', ranks[s]) && InStep(ranks[s], t')
    requires t'.pc == REDUCE ==> AllAppended(ranks, t'.round, r)
    requires t'.pc == GATHER ==> AllAnnounced(ranks, t'.round)
    requires t'.round == ranks[r].round && t'.pc > ranks[r].pc ==> t'.pc <= WAIT || t'.pc == ranks[r].pc + 1
    ensures Skew(ranks[r := t'])
  {
    var ranks' := ranks[r := t'];
    forall q | 0 <= q < |ranks| && ranks'[q].pc >= REDUCE ensures AllAppended(ranks', ranks'[q].round, q) {
      assert AllAppended(ranks, ranks'[q].round, q);
    }
    forall q | 0 <= q < |ranks| && ranks'[q].pc >= GATHER ensures AllAnnounced(ranks', ranks'[q].round) {
      assert AllAnnounced(ranks, ranks'[q].round);
    }
  }

  /** What every step does to the rank that takes it and to the others. */
  ghost predicate OnlyAdvances(st: State, st': State, r: nat, world: nat)
    requires Shape(st, world) && r < world
  {
    && Shape(st', world) && st'.ranks == st.ranks[r := st'.ranks[r]]
    && var t, t' := st.ranks[r], st'.ranks[r];
       Advances(t, t') && (t'.round == t.round && t'.pc > t.pc ==> t'.pc <= WAIT || t'.pc == t.pc + 1)
  }

  lemma ScatterAdvances(st: State, st': State, r: nat, world: nat, x: Inputs)
    requires Shape(st, world) && r < world && ScatterStep(st, st', r, world, x)
    ensures OnlyAdvances(st, st', r, world)
  {
  }

  lemma ReduceAdvances(st: State, st': State, r: nat, world: nat)
    requires Shape(st, world) && r < world && (ReduceStep(st, st', r, world) || ReadStep(st, st', r, world))
    ensures OnlyAdvances(st, st', r, world)
  {
  }

  lemma GatherAdvances(st: State, st': State, r: nat, world: nat)
    requires Shape(st, world) && r < world && (GatherStep(st, st', r, world) || ReplaceStep(st, st', r, world))
    ensures OnlyAdvances(st, st', r, world)
  {
  }

  lemma StepAdvances(st: State, st': State, r: nat, world: nat, x: Inputs)
    requires Shape(st, world) && r < world && Step(st, st', r, world, x)
    ensures OnlyAdvances(st, st', r, world)
  {
    if ScatterStep(st, st', r, world, x) { ScatterAdvances(st, st', r, world, x); }
    else if ReduceStep(st, st', r, world) || ReadStep(st, st', r, world) { ReduceAdvances(st, st', r, world); }
    else { GatherAdvances(st, st', r, world); }
  }

  lemma StepKeepsSkew(st: State, st': State, r: nat, world: nat, x: Inputs)
    requires Shape(st, world) && r < world && Step(st, st', r, world, x)
    requires Skew(st.ranks)
    requires st.ranks[r].pc == WAIT ==> AllAppended(st.ranks, st.ranks[r].round, r)
    requires st.ranks[r].pc == WAIT_ALL ==> AllAnnounced(st.ranks, st.ranks[r].round)
    ensures Shape(st', world) && Skew(st'.ranks)
  {
    StepAdvances(st, st', r, world, x);
    var t, t' := st.ranks[r], st'.ranks[r];
    forall s | 0 <= s < |st.ranks| && s != r ensures InStep(t', st.ranks[s]) && InStep(st.ranks[s], t') {
      assert InStep(t, st.ranks[s]) && InStep(st.ranks[s], t);
      if t.pc == WAIT { assert Appended(st.ranks[s], t.round, r); }
      if t.pc >= GATHER { assert Announced(st.ranks[s], t.round); }
    }
    SkewAfter(st.ranks, r, t');
  }

  // ----- the lists of ScatterReduce -----

  /** Whether a thread has put a part into a list does not change. */
  ghost predicate SameParts(t: Rank, t': Rank, world: nat)
  {
    && Epoch(t) == Epoch(t')
    && forall k: nat, i: nat | i < world :: Appended(t, k, i) == Appended(t', k, i)
  }

  lemma GoodListKept(ranks: seq<Rank>, ranks': seq<Rank>, list: seq<Part>, i: nat, x: Inputs)
    requires i < |ranks| == |ranks'| && GoodList(ranks, list, i, x)
    requires Epoch(ranks[i]) == Epoch(ranks'[i])
    requires forall s | 0 <= s < |ranks| :: Appended(ranks[s], Epoch(ranks[i]), i)
                                            == Appended(ranks'[s], Epoch(ranks[i]), i)
    ensures GoodList(ranks', list, i, x)
  {
    forall a | 0 <= a < |list| ensures GoodPart(ranks', list[a], i, x) {
      assert GoodPart(ranks, list[a], i, x);
    }
  }

  lemma ListsKept(st: State, st': State, r: nat, world: nat, x: Inputs)
    requires Shape(st, world) && Shape(st', world) && r < world && Lists(st, world, x)
    requires st'.ranks == st.ranks[r := st'.ranks[r]] && SameParts(st.ranks[r], st'.ranks[r], world)
    requires st'.tensorParts == st.tensorParts
    requires forall i | 0 <= i < world && st'.scatterReady[i] ::
               st'.ranks[i].pc == CLEAR_EVENT || AllAppended(st.ranks, Epoch(st.ranks[i]), i)
    ensures Lists(st', world, x)
  {
    forall i | 0 <= i < world ensures GoodList(st'.ranks, st'.tensorParts[i], i, x) {
      assert GoodList(st.ranks, st.tensorParts[i], i, x);
      GoodListKept(st.ranks, st'.ranks, st.tensorParts[i], i, x);
    }
    forall i | 0 <= i < world && st'.scatterReady[i]
      ensures st'.ranks[i].pc == CLEAR_EVENT || AllAppended(st'.ranks, Epoch(st'.ranks[i]), i)
    {
    }
  }

  /** A part is never late or early: the list it goes to is collecting its round. */
  lemma AppendedInTime(ranks: seq<Rank>, r: nat)
    requires r < |ranks| && Skew(ranks) && ranks[r].pc == APPEND && ranks[r].i < |ranks|
    ensures Epoch(ranks[ranks[r].i]) == ranks[r].round && !Appended(ranks[r], ranks[r].round, ranks[r].i)
  {
    var t, u := ranks[r], ranks[ranks[r].i];
    assert InStep(t, u) && InStep(u, t);
    if u.pc >= REDUCE { assert AllAppended(ranks, u.round, t.i); }
  }

  lemma AppendKeepsOtherList(ranks: seq<Rank>, r: nat, list: seq<Part>, i: nat, x: Inputs)
    requires r < |ranks| && i < |ranks| && ranks[r].pc == APPEND && ranks[r].i != i && GoodList(ranks, list, i, x)
    ensures GoodList(ranks[r := ranks[r].To(CHECK)], list, i, x)
  {
    GoodListKept(ranks, ranks[r := ranks[r].To(CHECK)], list, i, x);
  }

  lemma AppendKeepsThisList(ranks: seq<Rank>, r: nat, list: seq<Part>, x: Inputs)
    requires r < |ranks| && Skew(ranks) && ranks[r].pc == APPEND && ranks[r].i < |ranks|
    requires GoodList(ranks, list, ranks[r].i, x)
    ensures var t := ranks[r];
            GoodList(ranks[r := t.To(CHECK)], list + [Part(r, t.round, Chunk(x(r, t.round), |ranks|, t.i))], t.i, x)
  {
    var t := ranks[r];
    var i, ranks' := t.i, ranks[r := t.To(CHECK)];
    var list' := list + [Part(r, t.round, Chunk(x(r, t.round), |ranks|, t.i))];
    AppendedInTime(ranks, r);
    forall a | 0 <= a < |list| ensures list[a].rank != r && GoodPart(ranks', list[a], i, x) {
      assert GoodPart(ranks, list[a], i, x);
    }
    forall s | 0 <= s < |ranks| && Appended(ranks'[s], Epoch(ranks'[i]), i) ensures HasRank(list', s) {
      if s == r {
        assert list'[|list|].rank == r;
      } else {
        assert HasRank(list, s);
        var a :| 0 <= a < |list| && list[a].rank == s;
        assert list'[a].rank == s;
      }
    }
  }

  lemma AppendKeepsLists(st: State, st': State, r: nat, world: nat, x: Inputs)
    requires Shape(st, world) && Shape(st', world) && r < world && Lists(st, world, x) && Skew(st.ranks)
    requires st.ranks[r].pc == APPEND && ScatterStep(st, st', r, world, x)
    ensures Lists(st', world, x)
  {
    AppendedInTime(st.ranks, r);
    forall i | 0 <= i < world ensures GoodList(st'.ranks, st'.tensorParts[i], i, x) {
      assert GoodList(st.ranks, st.tensorParts[i], i, x);
      if i == st.ranks[r].i {
        AppendKeepsThisList(st.ranks, r, st.tensorParts[i], x);
      } else {
        AppendKeepsOtherList(st.ranks, r, st.tensorParts[i], i, x);
      }
    }
    forall i | 0 <= i < world && st'.scatterReady[i] && st'.ranks[i].pc != CLEAR_EVENT
      ensures AllAppended(st'.ranks, Epoch(st'.ranks[i]), i)
    {
      assert AllAppended(st.ranks, Epoch(st.ranks[i]), i);
    }
  }

  lemma ClearPartsKeepsLists(st: State, st': State, r: nat, world: nat, x: Inputs)
    requires Shape(st, world) && Shape(st', world) && r < world && Lists(st, world, x) && Skew(st.ranks)
    requires st.ranks[r].pc == CLEAR_PARTS && ReduceStep(st, st', r, world)
    ensures Lists(st', world, x)
  {
    forall i | 0 <= i < world ensures GoodList(st'.ranks, st'.tensorParts[i], i, x) {
      if i == r {
        NobodyIsEarly(st.ranks, r);
      } else {
        assert GoodList(st.ranks, st.tensorParts[i], i, x);
        GoodListKept(st.ranks, st'.ranks, st.tensorParts[i], i, x);
      }
    }
    forall i | 0 <= i < world && st'.scatterReady[i] && st'.ranks[i].pc != CLEAR_EVENT
      ensures AllAppended(st'.ranks, Epoch(st'.ranks[i]), i)
    {
      assert AllAppended(st.ranks, Epoch(st.ranks[i]), i);
    }
  }

  /** While a rank clears its list, no part of the next round can have come. */
  lemma NobodyIsEarly(ranks: seq<Rank>, r: nat)
    requires r < |ranks| && Skew(ranks) && ranks[r].pc == CLEAR_PARTS
    ensures forall s | 0 <= s < |ranks| :: !Appended(ranks[s], ranks[r].round + 1, r)
  {
    forall s | 0 <= s < |ranks| ensures !Appended(ranks[s], ranks[r].round + 1, r) {
      assert InStep(ranks[s], ranks[r]);
    }
  }

  function RanksOf(list: seq<Part>): (who: seq<nat>)
    ensures |who| == |list| && forall a | 0 <= a < |list| :: who[a] == list[a].rank
  {
    seq(|list|, a requires 0 <= a < |list| => list[a].rank)
  }

  /** A list of full length has a part of every rank. */
  lemma FullList(ranks: seq<Rank>, list: seq<Part>, i: nat, x: Inputs)
    requires i < |ranks| && GoodList(ranks, list, i, x) && |list| == |ranks|
    ensures AllAppended(ranks, Epoch(ranks[i]), i) && Covers(RanksOf(list), |ranks|)
  {
    var who := RanksOf(list);
    forall a | 0 <= a < |list| ensures who[a] < |ranks| {
      assert GoodPart(ranks, list[a], i, x);
    }
    DistinctCovers(who, |ranks|);
    forall s | 0 <= s < |ranks| ensures Appended(ranks[s], Epoch(ranks[i]), i) {
      assert s in who;
      var a :| 0 <= a < |who| && who[a] == s;
      assert GoodPart(ranks, list[a], i, x);
    }
  }

  /** A list that every rank has put its part into has a part of every rank once. */
  lemma CompleteList(ranks: seq<Rank>, list: seq<Part>, i: nat, x: Inputs)
    requires i < |ranks| && GoodList(ranks, list, i, x) && AllAppended(ranks, Epoch(ranks[i]), i)
    ensures Covers(RanksOf(list), |ranks|) && |list| == |ranks|
  {
    var who := RanksOf(list);
    forall a | 0 <= a < |list| ensures who[a] < |ranks| {
      assert GoodPart(ranks, list[a], i, x);
    }
    forall s: nat | s < |ranks| ensures s in who {
      assert HasRank(list, s);
      var a :| 0 <= a < |list| && list[a].rank == s;
      assert who[a] == s;
    }
    CoversSize(who, |ranks|);
  }

  lemma CheckKeepsLists(st: State, st': State, r: nat, world: nat, x: Inputs)
    requires Shape(st, world) && Shape(st', world) && r < world && Lists(st, world, x) && Skew(st.ranks)
    requires st.ranks[r].pc == CHECK && ScatterStep(st, st', r, world, x)
    ensures Lists(st', world, x)
  {
    var i := st.ranks[r].i;
    if |st.tensorParts[i]| == world {
      FullList(st.ranks, st.tensorParts[i], i, x);
    }
    ListsKept(st, st', r, world, x);
  }

  lemma StepKeepsLists(st: State, st': State, r: nat, world: nat, x: Inputs)
    requires Shape(st, world) && Shape(st', world) && r < world && Lists(st, world, x) && Skew(st.ranks)
    requires Step(st, st', r, world, x)
    ensures Lists(st', world, x)
  {
    var pc := st.ranks[r].pc;
    if pc == APPEND {
      AppendKeepsLists(st, st', r, world, x);
    } else if pc == CHECK {
      CheckKeepsLists(st, st', r, world, x);
    } else if pc == CLEAR_PARTS {
      ClearPartsKeepsLists(st, st', r, world, x);
    } else {
      ListsKept(st, st', r, world, x);
    }
  }

  // ----- the objects of AllGather -----

  /** `ranks_updated` of round `k` lists the ranks that have announced their part, each once. */
  ghost predicate GoodUpdated(ranks: seq<Rank>, list: seq<nat>, k: nat)
  {
    && (forall a, b | 0 <= a < b < |list| :: list[a] != list[b])
    && (forall a | 0 <= a < |list| :: list[a] < |ranks| && Announced(ranks[list[a]], k))
    && (forall s | 0 <= s < |ranks| && Announced(ranks[s], k) :: s in list)
  }

  predicate IsLast(st: State, k: nat, r: nat)
  {
    k < |st.updatedHeap| && st.updatedHeap[k] != [] && LastOf(st.updatedHeap[k]) == r
  }

  /** A thread only holds objects of its own round. */
  predicate KnowsObjects(t: Rank)
  {
    && (t.pc >= READ_UPDATED ==> t.parts == t.round)
    && (t.pc >= READ_READY ==> t.updated == t.round)
    && (t.pc >= WRITE ==> t.ready == t.round)
  }

  /** Where a rank may be while the objects of round `st.selfReady` are in use. */
  ghost predicate NearGeneration(st: State, r: nat)
    requires r < |st.ranks|
  {
    var t, g := st.ranks[r], st.selfReady;
    && t.round <= g + 1
    && (t.round == g + 1 ==> t.pc <= WAIT && AllAnnounced(st.ranks, g))
    && (t.round < g ==> t.round + 1 == g && CHECK_ALL <= t.pc <= LAST && !IsLast(st, t.round, r))
    && (t.pc >= NEW_PARTS ==> IsLast(st, t.round, r))
  }

  /** Only the rank that announced itself last replaces the objects, one after the other. */
  ghost predicate SelfRefs(st: State)
    requires |st.updatedHeap| == st.selfUpdated + 1
  {
    var g := st.selfReady;
    && g <= st.selfUpdated <= st.selfParts
    && if AllAnnounced(st.ranks, g) then
         && st.updatedHeap[g] != [] && LastOf(st.updatedHeap[g]) < |st.ranks|
         && var t := st.ranks[LastOf(st.updatedHeap[g])];
            && t.round == g && t.pc >= CHECK_ALL
            && st.selfParts == (if t.pc >= NEW_UPDATED then g + 1 else g)
            && st.selfUpdated == (if t.pc >= NEW_READY then g + 1 else g)
       else st.selfParts == g
  }

  ghost predicate Objects(st: State, world: nat)
    requires Shape(st, world)
  {
    && (forall r | 0 <= r < world :: KnowsObjects(st.ranks[r]) && NearGeneration(st, r))
    && (forall k | 0 <= k < |st.updatedHeap| :: GoodUpdated(st.ranks, st.updatedHeap[k], k))
    && (forall k | 0 <= k < |st.readyHeap| && st.readyHeap[k] :: AllAnnounced(st.ranks, k))
    && SelfRefs(st)
  }

  ghost predicate SameAnnounced(t: Rank, t': Rank)
  {
    forall k: nat :: Announced(t, k) == Announced(t', k)
  }

  lemma AllAnnouncedKept(ranks: seq<Rank>, r: nat, t': Rank, k: nat)
    requires r < |ranks| && SameAnnounced(ranks[r], t')
    ensures AllAnnounced(ranks[r := t'], k) == AllAnnounced(ranks, k)
  {
    var ranks' := ranks[r := t'];
    assert forall s | 0 <= s < |ranks| :: Announced(ranks'[s], k) == Announced(ranks[s], k);
  }

  lemma QuietStepKeepsObjects(st: State, st': State, r: nat, world: nat)
    requires Shape(st, world) && Shape(st', world) && r < world && Objects(st, world)
    requires st'.ranks == st.ranks[r := st'.ranks[r]] && SameAnnounced(st.ranks[r], st'.ranks[r])
    requires st'.updatedHeap == st.updatedHeap && |st'.readyHeap| == |st.readyHeap|
    requires st'.selfParts == st.selfParts
    requires forall k | 0 <= k < |st.readyHeap| && st'.readyHeap[k] :: st.readyHeap[k] || AllAnnounced(st.ranks, k)
    requires KnowsObjects(st'.ranks[r]) && NearGeneration(st', r)
    requires IsLast(st, st.selfReady, r) && AllAnnounced(st.ranks, st.selfReady)
             ==> st'.ranks[r].round == st.ranks[r].round && CHECK_ALL <= st'.ranks[r].pc <= NEW_PARTS
                 && st.ranks[r].pc <= NEW_PARTS
    ensures Objects(st', world)
  {
    AllAnnouncedKept(st.ranks, r, st'.ranks[r], st.selfReady);
    forall k | 0 <= k < |st.readyHeap| { AllAnnouncedKept(st.ranks, r, st'.ranks[r], k); }
    forall k | 0 <= k < |st.updatedHeap| ensures GoodUpdated(st'.ranks, st'.updatedHeap[k], k) {
      assert GoodUpdated(st.ranks, st.updatedHeap[k], k);
    }
    forall s | 0 <= s < world ensures KnowsObjects(st'.ranks[s]) && NearGeneration(st', s) {
      assert KnowsObjects(st.ranks[s]) && NearGeneration(st, s);
    }
  }

  /** A rank between its first wait and its announcement is in the round whose objects are in use. */
  lemma BeforeAnnouncing(st: State, r: nat, world: nat)
    requires Shape(st, world) && Objects(st, world) && r < world && REDUCE <= st.ranks[r].pc <= ANNOUNCE
    ensures st.ranks[r].round == st.selfReady == st.selfUpdated == st.selfParts
    ensures !AllAnnounced(st.ranks, st.selfReady)
  {
    assert NearGeneration(st, r);
    assert !Announced(st.ranks[r], st.selfReady);
  }

  /** A round for which some list is complete is not ahead of the objects in use. */
  lemma AppendedRoundIsCurrent(st: State, k: nat, i: nat)
    requires |st.updatedHeap| == st.selfUpdated + 1 && SelfRefs(st) && AllAppended(st.ranks, k, i)
    ensures k <= st.selfReady
  {
    var g := st.selfReady;
    var s :| 0 <= s < |st.ranks| && (AllAnnounced(st.ranks, g) ==> s == LastOf(st.updatedHeap[g]))
             && (!AllAnnounced(st.ranks, g) ==> !Announced(st.ranks[s], g));
    assert Appended(st.ranks[s], k, i);
  }

  lemma ScatterKeepsObjects(st: State, st': State, r: nat, world: nat, x: Inputs)
    requires Shape(st, world) && Shape(st', world) && r < world && Objects(st, world)
    requires ScatterStep(st, st', r, world, x) && st.ranks[r].pc <= WAIT
    requires st.ranks[r].pc == WAIT ==> AllAppended(st.ranks, st.ranks[r].round, r)
    ensures Objects(st', world)
  {
    var t := st.ranks[r];
    assert KnowsObjects(t) && NearGeneration(st, r);
    if t.pc == WAIT { AppendedRoundIsCurrent(st, t.round, r); }
    AllAnnouncedKept(st.ranks, r, st'.ranks[r], st.selfReady);
    QuietStepKeepsObjects(st, st', r, world);
  }

  lemma ReduceKeepsObjects(st: State, st': State, r: nat, world: nat)
    requires Shape(st, world) && Shape(st', world) && r < world && Objects(st, world)
    requires ReduceStep(st, st', r, world) || ReadStep(st, st', r, world)
    ensures Objects(st', world)
  {
    BeforeAnnouncing(st, r, world);
    assert KnowsObjects(st.ranks[r]) && NearGeneration(st, r);
    QuietStepKeepsObjects(st, st', r, world);
  }

  lemma WriteKeepsObjects(st: State, st': State, r: nat, world: nat)
    requires Shape(st, world) && Shape(st', world) && r < world && Objects(st, world)
    requires st.ranks[r].pc == WRITE && GatherStep(st, st', r, world)
    ensures Objects(st', world)
  {
    BeforeAnnouncing(st, r, world);
    assert KnowsObjects(st.ranks[r]) && NearGeneration(st, r);
    QuietStepKeepsObjects(st, st', r, world);
  }

  lemma AnnouncedList(ranks: seq<Rank>, r: nat, list: seq<nat>, k: nat)
    requires r < |ranks| && ranks[r].pc == ANNOUNCE && GoodUpdated(ranks, list, k)
    ensures GoodUpdated(ranks[r := ranks[r].To(CHECK_ALL)], if ranks[r].round == k then list + [r] else list, k)
  {
    var ranks' := ranks[r := ranks[r].To(CHECK_ALL)];
    if ranks[r].round == k {
      assert !Announced(ranks[r], k);
    }
    forall s | 0 <= s < |ranks| && Announced(ranks'[s], k) && s != r ensures s in list {
      assert Announced(ranks[s], k);
    }
  }

  lemma AnnounceKeepsUpdated(st: State, st': State, r: nat, world: nat)
    requires Shape(st, world) && Shape(st', world) && r < world && Objects(st, world)
    requires st.ranks[r].pc == ANNOUNCE && GatherStep(st, st', r, world)
    ensures forall k | 0 <= k < |st'.updatedHeap| :: GoodUpdated(st'.ranks, st'.updatedHeap[k], k)
  {
    assert KnowsObjects(st.ranks[r]);
    forall k | 0 <= k < |st'.updatedHeap| ensures GoodUpdated(st'.ranks, st'.updatedHeap[k], k) {
      assert GoodUpdated(st.ranks, st.updatedHeap[k], k);
      AnnouncedList(st.ranks, r, st.updatedHeap[k], k);
    }
  }

  lemma AnnounceKeepsObjects(st: State, st': State, r: nat, world: nat)
    requires Shape(st, world) && Shape(st', world) && r < world && Objects(st, world) && Skew(st.ranks)
    requires st.ranks[r].pc == ANNOUNCE && GatherStep(st, st', r, world)
    ensures Objects(st', world)
  {
    BeforeAnnouncing(st, r, world);
    var t, g := st.ranks[r], st.selfReady;
    assert KnowsObjects(t) && NearGeneration(st, r);
    AnnounceKeepsUpdated(st, st', r, world);
    forall k | 0 <= k < |st.readyHeap| && st'.readyHeap[k] ensures AllAnnounced(st'.ranks, k) {
      assert AllAnnounced(st.ranks, k);
    }
    forall s | 0 <= s < world ensures KnowsObjects(st'.ranks[s]) && NearGeneration(st', s) {
      assert KnowsObjects(st.ranks[s]) && NearGeneration(st, s);
      var u := st.ranks[s];
      assert u.pc >= GATHER ==> AllAnnounced(st.ranks, u.round);
    }
  }

  lemma CheckAllKeepsObjects(st: State, st': State, r: nat, world: nat)
    requires Shape(st, world) && Shape(st', world) && r < world && Objects(st, world)
    requires CHECK_ALL <= st.ranks[r].pc <= GATHER && GatherStep(st, st', r, world)
    ensures Objects(st', world)
  {
    var t := st.ranks[r];
    assert KnowsObjects(t) && NearGeneration(st, r);
    if t.pc == CHECK_ALL && |st.updatedHeap[t.updated]| == world {
      FullUpdated(st.ranks, st.updatedHeap[t.round], t.round);
    }
    QuietStepKeepsObjects(st, st', r, world);
  }

  lemma FullUpdated(ranks: seq<Rank>, list: seq<nat>, k: nat)
    requires GoodUpdated(ranks, list, k) && |list| == |ranks|
    ensures AllAnnounced(ranks, k)
  {
    DistinctCovers(list, |ranks|);
    forall s: nat | s < |ranks| ensures Announced(ranks[s], k) {
      assert s in list;
    }
  }

  lemma LastKeepsObjects(st: State, st': State, r: nat, world: nat)
    requires Shape(st, world) && Shape(st', world) && r < world && Objects(st, world) && Skew(st.ranks)
    requires st.ranks[r].pc == LAST && ReplaceStep(st, st', r, world)
    ensures Objects(st', world)
  {
    var t := st.ranks[r];
    assert KnowsObjects(t) && NearGeneration(st, r) && AllAnnounced(st.ranks, t.round);
    assert AllAnnounced(st'.ranks, t.round);
    QuietStepKeepsObjects(st, st', r, world);
  }

  lemma ReplacingRank(st: State, r: nat, world: nat)
    requires Shape(st, world) && r < world && Objects(st, world) && Skew(st.ranks) && st.ranks[r].pc >= NEW_PARTS
    ensures var t, g := st.ranks[r], st.selfReady;
            && t.round == g && AllAnnounced(st.ranks, g) && IsLast(st, g, r)
            && st.selfParts == (if t.pc >= NEW_UPDATED then g + 1 else g)
            && st.selfUpdated == (if t.pc >= NEW_READY then g + 1 else g)
  {
    assert NearGeneration(st, r) && AllAnnounced(st.ranks, st.ranks[r].round);
  }

  lemma NewPartsKeepsObjects(st: State, st': State, r: nat, world: nat)
    requires Shape(st, world) && Shape(st', world) && r < world && Objects(st, world) && Skew(st.ranks)
    requires st.ranks[r].pc == NEW_PARTS && ReplaceStep(st, st', r, world)
    ensures Objects(st', world)
  {
    ReplacingRank(st, r, world);
    AllAnnouncedKept(st.ranks, r, st'.ranks[r], st.selfReady);
    forall k | 0 <= k < |st.updatedHeap| ensures GoodUpdated(st'.ranks, st'.updatedHeap[k], k) {
      assert GoodUpdated(st.ranks, st.updatedHeap[k], k);
    }
    forall k | 0 <= k < |st.readyHeap| { AllAnnouncedKept(st.ranks, r, st'.ranks[r], k); }
    forall s | 0 <= s < world ensures KnowsObjects(st'.ranks[s]) && NearGeneration(st', s) {
      assert KnowsObjects(st.ranks[s]) && NearGeneration(st, s);
    }
  }

  lemma NobodyAhead(st: State, r: nat, world: nat, s: nat)
    requires Shape(st, world) && r < world && s < world && Objects(st, world)
    ensures !Announced(st.ranks[s], st.selfReady + 1)
  {
    assert NearGeneration(st, s);
  }

  lemma NewUpdatedKeepsObjects(st: State, st': State, r: nat, world: nat)
    requires Shape(st, world) && Shape(st', world) && r < world && Objects(st, world) && Skew(st.ranks)
    requires st.ranks[r].pc == NEW_UPDATED && ReplaceStep(st, st', r, world)
    ensures Objects(st', world)
  {
    ReplacingRank(st, r, world);
    AllAnnouncedKept(st.ranks, r, st'.ranks[r], st.selfReady);
    forall s | 0 <= s < world { NobodyAhead(st, r, world, s); }
    forall k | 0 <= k < |st'.updatedHeap| ensures GoodUpdated(st'.ranks, st'.updatedHeap[k], k) {
      assert k < |st.updatedHeap| ==> GoodUpdated(st.ranks, st.updatedHeap[k], k);
    }
    forall k | 0 <= k < |st.readyHeap| { AllAnnouncedKept(st.ranks, r, st'.ranks[r], k); }
    forall s | 0 <= s < world ensures KnowsObjects(st'.ranks[s]) && NearGeneration(st', s) {
      assert KnowsObjects(st.ranks[s]) && NearGeneration(st, s);
    }
  }

  lemma NewReadyKeepsObjects(st: State, st': State, r: nat, world: nat)
    requires Shape(st, world) && Shape(st', world) && r < world && Objects(st, world) && Skew(st.ranks)
    requires st.ranks[r].pc == NEW_READY && ReplaceStep(st, st', r, world)
    ensures Objects(st', world)
  {
    ReplacingRank(st, r, world);
    var g := st.selfReady;
    forall k | 0 <= k < |st.updatedHeap| ensures GoodUpdated(st'.ranks, st'.updatedHeap[k], k) {
      assert GoodUpdated(st.ranks, st.updatedHeap[k], k);
    }
    forall k | 0 <= k < |st.readyHeap| { AllAnnouncedKept(st.ranks, r, st'.ranks[r], k); }
    forall s | 0 <= s < world ensures KnowsObjects(st'.ranks[s]) && NearGeneration(st', s) {
      assert KnowsObjects(st.ranks[s]) && NearGeneration(st, s) && Announced(st.ranks[s], g);
      AllAnnouncedKept(st.ranks, r, st'.ranks[r], g);
    }
    assert !Announced(st'.ranks[r], g + 1);
  }

  lemma StepKeepsObjects(st: State, st': State, r: nat, world: nat, x: Inputs)
    requires Shape(st, world) && Shape(st', world) && r < world && Objects(st, world) && Skew(st.ranks)
    requires Step(st, st', r, world, x)
    requires st.ranks[r].pc == WAIT ==> AllAppended(st.ranks, st.ranks[r].round, r)
    ensures Objects(st', world)
  {
    var pc := st.ranks[r].pc;
    if pc <= WAIT { ScatterKeepsObjects(st, st', r, world, x); }
    else if pc < WRITE { ReduceKeepsObjects(st, st', r, world); }
    else if pc == WRITE { WriteKeepsObjects(st, st', r, world); }
    else if pc == ANNOUNCE { AnnounceKeepsObjects(st, st', r, world); }
    else if pc <= GATHER { CheckAllKeepsObjects(st, st', r, world); }
    else if pc == LAST { LastKeepsObjects(st, st', r, world); }
    else if pc == NEW_PARTS { NewPartsKeepsObjects(st, st', r, world); }
    else if pc == NEW_UPDATED { NewUpdatedKeepsObjects(st, st', r, world); }
    else { NewReadyKeepsObjects(st, st', r, world); }
  }

  // ----- the values -----

  ghost predicate GoodSlots(ranks: seq<Rank>, slots: seq<Slot>, k: nat, x: Inputs)
    requires 0 < |ranks| == |slots| && SameShapes(x, |ranks|)
  {
    forall s | 0 <= s < |ranks| && Written(ranks[s], k) :: slots[s] == Filled(Reduced(x, |ranks|, k, s))
  }

  /** What rank `r` holds and has returned so far. */
  ghost predicate GoodRank(t: Rank, r: nat, world: nat, x: Inputs)
    requires r < world && SameShapes(x, world)
  {
    && (t.pc >= CLEAR_PARTS ==> t.reduced == Reduced(x, world, t.round, r))
    && |t.results| == t.round + (if t.pc >= LAST then 1 else 0)
    && (forall k | 0 <= k < |t.results| :: t.results[k] == Expected(x, world, k))
  }

  ghost predicate Values(st: State, world: nat, x: Inputs)
    requires Shape(st, world) && SameShapes(x, world)
  {
    && (forall r | 0 <= r < world :: GoodRank(st.ranks[r], r, world, x))
    && (forall k | 0 <= k < |st.partsHeap| :: GoodSlots(st.ranks, st.partsHeap[k], k, x))
  }

  ghost predicate SameWritten(t: Rank, t': Rank)
  {
    forall k: nat :: Written(t, k) == Written(t', k)
  }

  lemma ValuesKept(st: State, st': State, r: nat, world: nat, x: Inputs)
    requires Shape(st, world) && Shape(st', world) && r < world && SameShapes(x, world) && Values(st, world, x)
    requires st'.ranks == st.ranks[r := st'.ranks[r]] && SameWritten(st.ranks[r], st'.ranks[r])
    requires GoodRank(st'.ranks[r], r, world, x) && st'.partsHeap == st.partsHeap
    ensures Values(st', world, x)
  {
    forall s | 0 <= s < world ensures GoodRank(st'.ranks[s], s, world, x) {
      assert GoodRank(st.ranks[s], s, world, x);
    }
    forall k | 0 <= k < |st.partsHeap| ensures GoodSlots(st'.ranks, st'.partsHeap[k], k, x) {
      assert GoodSlots(st.ranks, st.partsHeap[k], k, x);
    }
  }

  /** A rank that got past its wait reduces exactly the parts of its round. */
  lemma ReducedIsRight(ranks: seq<Rank>, list: seq<Part>, r: nat, x: Inputs)
    requires r < |ranks| && SameShapes(x, |ranks|) && GoodList(ranks, list, r, x)
    requires ranks[r].pc == REDUCE && AllAppended(ranks, ranks[r].round, r)
    ensures var values := ValuesOf(list);
            Summable(values) && Sum(values, |values[0]|) == Reduced(x, |ranks|, ranks[r].round, r)
  {
    var k, who, values := ranks[r].round, RanksOf(list), ValuesOf(list);
    CompleteList(ranks, list, r, x);
    forall a | 0 <= a < |who| ensures who[a] < |ranks| && values[a] == Chunk(x(who[a], k), |ranks|, r) {
      assert GoodPart(ranks, list[a], r, x);
    }
    ArrivedChunksAddUp(x, |ranks|, k, r, who, values);
  }

  lemma GatheredIsRight(ranks: seq<Rank>, slots: seq<Slot>, k: nat, x: Inputs)
    requires 0 < |ranks| == |slots| && SameShapes(x, |ranks|) && GoodSlots(ranks, slots, k, x) && AllAnnounced(ranks, k)
    ensures AllFilled(slots) && Cat(Contents(slots)) == Expected(x, |ranks|, k)
  {
    forall s | 0 <= s < |ranks| ensures slots[s] == Filled(Reduced(x, |ranks|, k, s)) {
      assert Announced(ranks[s], k);
    }
    GatheredPartsAreTheSum(x, |ranks|, k, Contents(slots));
  }

  lemma WriteKeepsValues(st: State, st': State, r: nat, world: nat, x: Inputs)
    requires Shape(st, world) && Shape(st', world) && r < world && SameShapes(x, world)
    requires Objects(st, world) && Values(st, world, x)
    requires st.ranks[r].pc == WRITE && GatherStep(st, st', r, world)
    ensures Values(st', world, x)
  {
    var t := st.ranks[r];
    assert KnowsObjects(t) && GoodRank(t, r, world, x);
    forall s | 0 <= s < world ensures GoodRank(st'.ranks[s], s, world, x) {
      assert GoodRank(st.ranks[s], s, world, x);
    }
    forall k | 0 <= k < |st.partsHeap| ensures GoodSlots(st'.ranks, st'.partsHeap[k], k, x) {
      assert GoodSlots(st.ranks, st.partsHeap[k], k, x);
    }
  }

  lemma NewPartsKeepsValues(st: State, st': State, r: nat, world: nat, x: Inputs)
    requires Shape(st, world) && Shape(st', world) && r < world && SameShapes(x, world)
    requires Objects(st, world) && Skew(st.ranks) && Values(st, world, x)
    requires st.ranks[r].pc == NEW_PARTS && ReplaceStep(st, st', r, world)
    ensures Values(st', world, x)
  {
    ReplacingRank(st, r, world);
    forall s | 0 <= s < world ensures GoodRank(st'.ranks[s], s, world, x) {
      assert GoodRank(st.ranks[s], s, world, x);
    }
    forall k | 0 <= k < |st'.partsHeap| ensures GoodSlots(st'.ranks, st'.partsHeap[k], k, x) {
      assert k < |st.partsHeap| ==> GoodSlots(st.ranks, st.partsHeap[k], k, x);
      forall s | 0 <= s < world && k == st.selfReady + 1 ensures !Written(st'.ranks[s], k) {
        assert NearGeneration(st, s);
      }
    }
  }

  lemma ReduceKeepsValues(st: State, st': State, r: nat, world: nat, x: Inputs)
    requires Shape(st, world) && Shape(st', world) && r < world && SameShapes(x, world)
    requires Skew(st.ranks) && Lists(st, world, x) && Values(st, world, x)
    requires st.ranks[r].pc == REDUCE && ReduceStep(st, st', r, world)
    ensures Values(st', world, x)
  {
    assert GoodRank(st.ranks[r], r, world, x);
    ReducedIsRight(st.ranks, st.tensorParts[r], r, x);
    ValuesKept(st, st', r, world, x);
  }

  lemma GatherKeepsValues(st: State, st': State, r: nat, world: nat, x: Inputs)
    requires Shape(st, world) && Shape(st', world) && r < world && SameShapes(x, world)
    requires Skew(st.ranks) && Objects(st, world) && Values(st, world, x)
    requires st.ranks[r].pc == GATHER && GatherStep(st, st', r, world)
    ensures Values(st', world, x)
  {
    assert KnowsObjects(st.ranks[r]) && GoodRank(st.ranks[r], r, world, x);
    GatherStepAddsResult(st, st', r, world, x);
    ResultKeepsRank(st.ranks[r], r, world, x);
    ValuesKept(st, st', r, world, x);
  }

  lemma GatherStepAddsResult(st: State, st': State, r: nat, world: nat, x: Inputs)
    requires Shape(st, world) && r < world && SameShapes(x, world) && Skew(st.ranks) && Values(st, world, x)
    requires st.ranks[r].pc == GATHER && KnowsObjects(st.ranks[r]) && GatherStep(st, st', r, world)
    ensures var t := st.ranks[r];
            && st'.ranks == st.ranks[r := t.To(LAST).(results := t.results + [Expected(x, world, t.round)])]
            && st'.partsHeap == st.partsHeap
  {
    var k := st.ranks[r].round;
    assert GoodSlots(st.ranks, st.partsHeap[k], k, x);
    GatheredIsRight(st.ranks, st.partsHeap[k], k, x);
  }

  lemma ResultKeepsRank(t: Rank, r: nat, world: nat, x: Inputs)
    requires 0 < world && r < world && SameShapes(x, world) && GoodRank(t, r, world, x) && t.pc == GATHER
    ensures var t' := t.To(LAST).(results := t.results + [Expected(x, world, t.round)]);
            GoodRank(t', r, world, x) && SameWritten(t, t')
  {
  }

  lemma OtherStepsKeepValues(st: State, st': State, r: nat, world: nat, x: Inputs)
    requires Shape(st, world) && Shape(st', world) && r < world && SameShapes(x, world) && Values(st, world, x)
    requires st'.ranks == st.ranks[r := st'.ranks[r]] && st'.partsHeap == st.partsHeap
    requires var t, t' := st.ranks[r], st'.ranks[r];
             && Advances(t, t') && t'.reduced == t.reduced && t'.results == t.results
             && t.pc != REDUCE && t.pc != WRITE && t.pc != GATHER
             && (t'.round == t.round && t'.pc > t.pc ==> t'.pc <= WAIT || t'.pc == t.pc + 1)
    ensures Values(st', world, x)
  {
    assert GoodRank(st.ranks[r], r, world, x);
    ValuesKept(st, st', r, world, x);
  }

  lemma StepKeepsValues(st: State, st': State, r: nat, world: nat, x: Inputs)
    requires Shape(st, world) && Shape(st', world) && r < world && SameShapes(x, world)
    requires Skew(st.ranks) && Lists(st, world, x) && Objects(st, world) && Values(st, world, x)
    requires Step(st, st', r, world, x)
    ensures Values(st', world, x)
  {
    var pc := st.ranks[r].pc;
    if pc == REDUCE { ReduceKeepsValues(st, st', r, world, x); }
    else if pc == WRITE { WriteKeepsValues(st, st', r, world, x); }
    else if pc == GATHER { GatherKeepsValues(st, st', r, world, x); }
    else if pc == NEW_PARTS { NewPartsKeepsValues(st, st', r, world, x); }
    else { PlainStepKeepsValues(st, st', r, world, x); }
  }

  lemma PlainStepKeepsValues(st: State, st': State, r: nat, world: nat, x: Inputs)
    requires Shape(st, world) && Shape(st', world) && r < world && SameShapes(x, world) && Values(st, world, x)
    requires st.ranks[r].pc !in {REDUCE, WRITE, GATHER, NEW_PARTS} && Step(st, st', r, world, x)
    ensures Values(st', world, x)
  {
    StepAdvances(st, st', r, world, x);
    OtherStepsKeepValues(st, st', r, world, x);
  }

  // ----- nobody waits forever -----

  ghost predicate ChecksList(ranks: seq<Rank>, i: nat)
  {
    exists s :: 0 <= s < |ranks| && ranks[s].pc == CHECK && ranks[s].i == i
  }

  ghost predicate ChecksAll(ranks: seq<Rank>, k: nat)
  {
    exists s :: 0 <= s < |ranks| && ranks[s].pc == CHECK_ALL && ranks[s].round == k
  }

  ghost predicate WakesList(st: State, i: nat)
    requires i < |st.ranks| == |st.scatterReady|
  {
    AllAppended(st.ranks, Epoch(st.ranks[i]), i) ==> st.scatterReady[i] || ChecksList(st.ranks, i)
  }

  ghost predicate WakesAll(st: State, k: nat)
    requires k < |st.readyHeap|
  {
    AllAnnounced(st.ranks, k) ==> st.readyHeap[k] || ChecksAll(st.ranks, k)
  }

  /** Once everybody has delivered, the event is set or somebody is about to set it. */
  ghost predicate Wakes(st: State, world: nat)
    requires Shape(st, world)
  {
    && (forall i | 0 <= i < world :: WakesList(st, i))
    && (forall k | 0 <= k < |st.readyHeap| :: WakesAll(st, k))
  }

  lemma AppendKeepsWakes(st: State, st': State, r: nat, i: nat, world: nat, x: Inputs)
    requires Shape(st, world) && r < world && i < world && WakesList(st, i)
    requires st.ranks[r].pc == APPEND && ScatterStep(st, st', r, world, x) && Shape(st', world)
    ensures WakesList(st', i)
  {
    var t' := st'.ranks[r];
    if i == t'.i {
      assert st'.ranks[r].pc == CHECK && st'.ranks[r].i == i;
    } else {
      SameElsewhere(st, st', r, i);
    }
  }

  /** A step that changes nothing about list `i` keeps its wake-up. */
  lemma SameElsewhere(st: State, st': State, r: nat, i: nat)
    requires i < |st.ranks| == |st.scatterReady| == |st'.scatterReady| == |st'.ranks| && r < |st.ranks|
             && WakesList(st, i)
    requires st'.ranks == st.ranks[r := st'.ranks[r]] && Epoch(st'.ranks[i]) == Epoch(st.ranks[i])
    requires Appended(st'.ranks[r], Epoch(st.ranks[i]), i) ==> Appended(st.ranks[r], Epoch(st.ranks[i]), i)
    requires st.scatterReady[i] ==> st'.scatterReady[i]
    requires st.ranks[r].pc != CHECK || st.ranks[r].i != i
    ensures WakesList(st', i)
  {
    if AllAppended(st'.ranks, Epoch(st.ranks[i]), i) {
      forall s | 0 <= s < |st.ranks| ensures Appended(st.ranks[s], Epoch(st.ranks[i]), i) {
        assert Appended(st'.ranks[s], Epoch(st.ranks[i]), i);
      }
      if !st.scatterReady[i] {
        var s :| 0 <= s < |st.ranks| && st.ranks[s].pc == CHECK && st.ranks[s].i == i;
        assert st'.ranks[s] == st.ranks[s];
      }
    }
  }

  lemma CheckKeepsWakes(st: State, st': State, r: nat, i: nat, world: nat, x: Inputs)
    requires Shape(st, world) && r < world && i < world && WakesList(st, i) && Lists(st, world, x)
    requires st.ranks[r].pc == CHECK && ScatterStep(st, st', r, world, x) && Shape(st', world)
    ensures WakesList(st', i)
  {
    if i != st.ranks[r].i {
      SameElsewhere(st, st', r, i);
    } else if AllAppended(st'.ranks, Epoch(st'.ranks[i]), i) {
      forall s | 0 <= s < world ensures Appended(st.ranks[s], Epoch(st.ranks[i]), i) {
        assert Appended(st'.ranks[s], Epoch(st'.ranks[i]), i);
      }
      CompleteList(st.ranks, st.tensorParts[i], i, x);
    }
  }

  lemma StepKeepsWakesList(st: State, st': State, r: nat, i: nat, world: nat, x: Inputs)
    requires Shape(st, world) && Shape(st', world) && r < world && i < world && Lists(st, world, x) && WakesList(st, i)
    requires Step(st, st', r, world, x)
    ensures WakesList(st', i)
  {
    var t := st.ranks[r];
    StepAdvances(st, st', r, world, x);
    if t.pc == APPEND {
      AppendKeepsWakes(st, st', r, i, world, x);
    } else if t.pc == CHECK {
      CheckKeepsWakes(st, st', r, i, world, x);
    } else if i == r && (t.pc == CLEAR_PARTS || t.pc == CLEAR_EVENT) {
      assert !Appended(st'.ranks[r], t.round + 1, i);
    } else {
      SameElsewhere(st, st', r, i);
    }
  }

  lemma CheckAllWakes(st: State, st': State, r: nat, world: nat)
    requires Shape(st, world) && Shape(st', world) && r < world && Objects(st, world)
    requires st.ranks[r].pc == CHECK_ALL && GatherStep(st, st', r, world)
    ensures st.ranks[r].round < |st'.readyHeap| && WakesAll(st', st.ranks[r].round)
  {
    var k := st.ranks[r].round;
    assert KnowsObjects(st.ranks[r]);
    AllAnnouncedKept(st.ranks, r, st'.ranks[r], k);
    if AllAnnounced(st.ranks, k) {
      assert GoodUpdated(st.ranks, st.updatedHeap[k], k);
      AllUpdated(st.ranks, st.updatedHeap[k], k);
    }
  }

  /** A step that changes nothing about the objects of round `k` keeps their wake-up. */
  lemma SameRoundElsewhere(st: State, st': State, r: nat, k: nat)
    requires r < |st.ranks| == |st'.ranks| && k < |st.readyHeap| <= |st'.readyHeap| && WakesAll(st, k)
    requires st'.ranks == st.ranks[r := st'.ranks[r]] && (Announced(st'.ranks[r], k) ==> Announced(st.ranks[r], k))
    requires st.readyHeap[k] ==> st'.readyHeap[k]
    requires st.ranks[r].pc != CHECK_ALL || st.ranks[r].round != k
    ensures WakesAll(st', k)
  {
    if AllAnnounced(st'.ranks, k) {
      forall s | 0 <= s < |st.ranks| ensures Announced(st.ranks[s], k) {
        assert Announced(st'.ranks[s], k);
      }
      if !st.readyHeap[k] {
        var s :| 0 <= s < |st.ranks| && st.ranks[s].pc == CHECK_ALL && st.ranks[s].round == k;
        assert st'.ranks[s] == st.ranks[s];
      }
    }
  }

  /** Only announcing, and setting the event, concern the objects of a round. */
  lemma StepElsewhere(st: State, st': State, r: nat, k: nat, world: nat, x: Inputs)
    requires Shape(st, world) && Shape(st', world) && r < world && k < |st.readyHeap|
    requires Step(st, st', r, world, x) && KnowsObjects(st.ranks[r])
    requires st.ranks[r].round == k ==> st.ranks[r].pc != ANNOUNCE
    ensures st'.ranks == st.ranks[r := st'.ranks[r]] && (Announced(st'.ranks[r], k) ==> Announced(st.ranks[r], k))
    ensures |st.readyHeap| <= |st'.readyHeap| && (st.readyHeap[k] ==> st'.readyHeap[k])
  {
    StepAdvances(st, st', r, world, x);
  }

  lemma StepKeepsWakesAll(st: State, st': State, r: nat, k: nat, world: nat, x: Inputs)
    requires Shape(st, world) && Shape(st', world) && r < world && k < |st.readyHeap|
    requires Objects(st, world) && WakesAll(st, k) && Step(st, st', r, world, x)
    ensures k < |st'.readyHeap| && WakesAll(st', k)
  {
    var t := st.ranks[r];
    assert KnowsObjects(t);
    if t.pc == ANNOUNCE && t.round == k {
      assert st'.ranks[r].pc == CHECK_ALL && st'.ranks[r].round == k;
    } else if t.pc == CHECK_ALL && t.round == k {
      CheckAllWakes(st, st', r, world);
    } else {
      StepElsewhere(st, st', r, k, world, x);
      SameRoundElsewhere(st, st', r, k);
    }
  }

  lemma AllUpdated(ranks: seq<Rank>, list: seq<nat>, k: nat)
    requires GoodUpdated(ranks, list, k) && AllAnnounced(ranks, k)
    ensures |list| == |ranks|
  {
    CoversSize(list, |ranks|);
  }

  lemma StepKeepsWakes(st: State, st': State, r: nat, world: nat, x: Inputs)
    requires Shape(st, world) && Shape(st', world) && r < world
    requires Lists(st, world, x) && Objects(st, world) && Skew(st.ranks) && Wakes(st, world)
    requires Step(st, st', r, world, x) && Objects(st', world)
    ensures Wakes(st', world)
  {
    forall i | 0 <= i < world ensures WakesList(st', i) {
      assert WakesList(st, i);
      StepKeepsWakesList(st, st', r, i, world, x);
    }
    forall k | 0 <= k < |st'.readyHeap| ensures WakesAll(st', k) {
      if k < |st.readyHeap| {
        assert WakesAll(st, k);
        StepKeepsWakesAll(st, st', r, k, world, x);
      } else {
        assert NearGeneration(st, r);
        NewEventWakes(st, st', r, k, world, x);
      }
    }
  }

  lemma NewEventWakes(st: State, st': State, r: nat, k: nat, world: nat, x: Inputs)
    requires Shape(st, world) && Shape(st', world) && r < world && NearGeneration(st, r) && Step(st, st', r, world, x)
    requires |st.readyHeap| <= k < |st'.readyHeap|
    ensures WakesAll(st', k)
  {
    assert st.ranks[r].pc == NEW_READY;
    assert st'.ranks[r].pc == APPEND && st'.ranks[r].round <= k;
    assert !Announced(st'.ranks[r], k);
  }

  // ----- every run -----

  ghost predicate Invariant(st: State, world: nat, x: Inputs)
    requires SameShapes(x, world)
  {
    && Shape(st, world) && Skew(st.ranks) && Lists(st, world, x)
    && Objects(st, world) && Values(st, world, x) && Wakes(st, world)
  }

  lemma StepKeepsInvariant(st: State, st': State, r: nat, world: nat, x: Inputs)
    requires SameShapes(x, world) && Invariant(st, world, x) && r < world && Step(st, st', r, world, x)
    ensures Invariant(st', world, x)
  {
    assert KnowsObjects(st.ranks[r]);
    StepKeepsSkew(st, st', r, world, x);
    StepKeepsLists(st, st', r, world, x);
    StepKeepsObjects(st, st', r, world, x);
    StepKeepsValues(st, st', r, world, x);
    StepKeepsWakes(st, st', r, world, x);
  }

  lemma StartIsGood(world: nat, x: Inputs)
    requires 0 < world && SameShapes(x, world)
    ensures Invariant(Start(world), world, x)
  {
    var st := Start(world);
    assert forall r | 0 <= r < world :: st.ranks[r].round == 0 && st.ranks[r].pc == APPEND
                                        && !Appended(st.ranks[r], 0, r);
    assert !Announced(st.ranks[0], 0);
  }

  /** States that threads reach by steps taken in any order. */
  ghost predicate IsRun(run: seq<State>, world: nat, x: Inputs)
  {
    && run != [] && run[0] == Start(world)
    && forall i, k | 0 <= i < k == i + 1 < |run| :: SomeStep(run[i], run[k], world, x)
  }

  ghost predicate SomeStep(st: State, st': State, world: nat, x: Inputs)
  {
    Shape(st, world) && exists r | 0 <= r < world :: Step(st, st', r, world, x)
  }

  lemma {:induction false} EveryRunIsGood(run: seq<State>, world: nat, x: Inputs)
    requires 0 < world && SameShapes(x, world) && IsRun(run, world, x)
    ensures Invariant(run[|run| - 1], world, x)
  {
    var n := |run| - 1;
    if n == 0 {
      StartIsGood(world, x);
    } else {
      EveryRunIsGood(run[..n], world, x);
      assert SomeStep(run[n - 1], run[n], world, x);
      var r :| 0 <= r < world && Step(run[n - 1], run[n], r, world, x);
      StepKeepsInvariant(run[n - 1], run[n], r, world, x);
    }
  }

  /**
   Whatever the interleaving and however many calls were made: every call of AllReduce that has its result
   has the element-wise sum of what all ranks passed in in that very round.
   */
  lemma AllReduceIsCorrect(run: seq<State>, world: nat, x: Inputs, r: nat)
    requires 0 < world && SameShapes(x, world) && IsRun(run, world, x) && r < world
    ensures |run[|run| - 1].ranks| == world
    ensures var t := run[|run| - 1].ranks[r];
            && |t.results| == t.round + (if t.pc >= LAST then 1 else 0)
            && forall k | 0 <= k < |t.results| :: t.results[k] == Expected(x, world, k)
  {
    EveryRunIsGood(run, world, x);
    assert GoodRank(run[|run| - 1].ranks[r], r, world, x);
  }

  /** A list never holds parts of two rounds, nor two parts of one rank. */
  lemma NoPartLeaks(run: seq<State>, world: nat, x: Inputs, i: nat, a: nat, b: nat)
    requires 0 < world && SameShapes(x, world) && IsRun(run, world, x) && i < world
    requires var st := run[|run| - 1]; i < |st.tensorParts| && a < b < |st.tensorParts[i]|
    ensures var list := run[|run| - 1].tensorParts[i];
            && list[a].round == list[b].round && list[a].rank != list[b].rank
            && list[a].rank < world && list[a].values == Chunk(x(list[a].rank, list[a].round), world, i)
  {
    var st := run[|run| - 1];
    EveryRunIsGood(run, world, x);
    assert GoodList(st.ranks, st.tensorParts[i], i, x);
    assert GoodPart(st.ranks, st.tensorParts[i][a], i, x) && GoodPart(st.ranks, st.tensorParts[i][b], i, x);
  }

  /** No event is seen in a round it was not set in: who passes a wait has the parts of its own round, from all ranks,
      before it. */
  lemma NoEventLeaks(run: seq<State>, world: nat, x: Inputs, r: nat)
    requires 0 < world && SameShapes(x, world) && IsRun(run, world, x) && r < world
    ensures var st := run[|run| - 1];
            && |st.ranks| == |st.scatterReady| == world
            && (st.ranks[r].pc <= WAIT && st.scatterReady[r] ==> AllAppended(st.ranks, st.ranks[r].round, r))
            && (st.ranks[r].pc >= READ_PARTS && st.scatterReady[r] ==> AllAppended(st.ranks, st.ranks[r].round + 1, r))
            && (st.ranks[r].pc == WAIT_ALL ==> st.ranks[r].ready == st.ranks[r].round < |st.readyHeap|)
            && (st.ranks[r].pc == WAIT_ALL && st.readyHeap[st.ranks[r].ready] ==>
                AllAnnounced(st.ranks, st.ranks[r].round))
  {
    var st := run[|run| - 1];
    EveryRunIsGood(run, world, x);
    assert KnowsObjects(st.ranks[r]) && NearGeneration(st, r);
  }

  predicate Blocked(st: State, r: nat)
    requires r < |st.ranks| == |st.scatterReady|
  {
    var t := st.ranks[r];
    (t.pc == WAIT && !st.scatterReady[r]) || (t.pc == WAIT_ALL && t.ready < |st.readyHeap| && !st.readyHeap[t.ready])
  }

  lemma UnblockedCanStep(st: State, r: nat, world: nat, x: Inputs)
    requires SameShapes(x, world) && Invariant(st, world, x) && r < world && !Blocked(st, r)
    ensures exists st' :: Step(st, st', r, world, x)
  {
    var t := st.ranks[r];
    assert KnowsObjects(t) && NearGeneration(st, r);
    if t.pc <= WAIT {
      assert Step(st, AfterScatter(st, r, world, x), r, world, x);
    } else if t.pc <= CLEAR_EVENT {
      if t.pc == REDUCE { ReducedIsRight(st.ranks, st.tensorParts[r], r, x); }
      assert Step(st, AfterReduce(st, r, world), r, world, x);
    } else if t.pc <= READ_READY {
      assert Step(st, AfterRead(st, r, world), r, world, x);
    } else if t.pc <= GATHER {
      if t.pc == GATHER { GatheredIsRight(st.ranks, st.partsHeap[t.round], t.round, x); }
      assert Step(st, AfterGather(st, r, world), r, world, x);
    } else {
      assert t.pc == LAST ==> Announced(t, t.round) && GoodUpdated(st.ranks, st.updatedHeap[t.round], t.round);
      assert Step(st, AfterReplace(st, r, world), r, world, x);
    }
  }

  /** In every reachable state only a wait for an event holds a rank back: no other step fails. */
  lemma EveryUnblockedRankCanStep(run: seq<State>, world: nat, x: Inputs, r: nat)
    requires 0 < world && SameShapes(x, world) && IsRun(run, world, x) && r < world
    ensures var st := run[|run| - 1];
            && Shape(st, world)
            && (Blocked(st, r) || exists st' :: Step(st, st', r, world, x))
  {
    EveryRunIsGood(run, world, x);
    if !Blocked(run[|run| - 1], r) { UnblockedCanStep(run[|run| - 1], r, world, x); }
  }

  /** A rank that waits, waits for a rank that has not delivered yet or is about to set the event: no wake-up is
      lost. */
  lemma WaitsForAnotherRank(run: seq<State>, world: nat, x: Inputs, r: nat)
    requires 0 < world && SameShapes(x, world) && IsRun(run, world, x) && r < world
    requires var st := run[|run| - 1]; r < |st.ranks| == |st.scatterReady| && Blocked(st, r)
    ensures var ranks, k := run[|run| - 1].ranks, run[|run| - 1].ranks[r].round;
            if ranks[r].pc == WAIT then !AllAppended(ranks, k, r) || ChecksList(ranks, r)
            else !AllAnnounced(ranks, k) || ChecksAll(ranks, k)
  {
    var st := run[|run| - 1];
    EveryRunIsGood(run, world, x);
    assert KnowsObjects(st.ranks[r]) && NearGeneration(st, r) && WakesList(st, r);
    assert st.ranks[r].pc == WAIT_ALL ==> WakesAll(st, st.ranks[r].round);
  }

  /** The rank that is furthest behind. */
  lemma {:induction false} Slowest(ranks: seq<Rank>) returns (m: nat)
    requires ranks != []
    ensures m < |ranks| && forall s | 0 <= s < |ranks| :: ranks[m].round <= ranks[s].round
  {
    m := 0;
    for i := 1 to |ranks|
      invariant m < |ranks| && forall s | 0 <= s < i :: ranks[m].round <= ranks[s].round
    {
      if ranks[i].round < ranks[m].round { m := i; }
    }
  }

  lemma SlowestWaitsForAll(st: State, m: nat, s: nat, world: nat)
    requires Shape(st, world) && m < world && s < world && Wakes(st, world)
    requires forall q | 0 <= q < world :: Blocked(st, q) && st.ranks[m].round <= st.ranks[q].round
    requires st.ranks[s].round == st.ranks[m].round
    ensures st.ranks[s].pc == WAIT_ALL
  {
    if st.ranks[s].pc == WAIT {
      assert WakesList(st, s);
      assert AllAppended(st.ranks, st.ranks[s].round, s);
    }
  }

  ghost predicate CanGoOn(st: State, world: nat, x: Inputs)
  {
    exists st' :: SomeStep(st, st', world, x)
  }

  /** No deadlock: in every reachable state some rank can take a step. */
  lemma SomeRankCanGoOn(run: seq<State>, world: nat, x: Inputs)
    requires 0 < world && SameShapes(x, world) && IsRun(run, world, x)
    ensures CanGoOn(run[|run| - 1], world, x)
  {
    var st := run[|run| - 1];
    EveryRunIsGood(run, world, x);
    var m := Slowest(st.ranks);
    assert KnowsObjects(st.ranks[m]) && NearGeneration(st, m);
    assert st.ranks[m].pc == WAIT_ALL ==> WakesAll(st, st.ranks[m].round);
    if r :| 0 <= r < world && !Blocked(st, r) {
      UnblockedCanStep(st, r, world, x);
      var st' :| Step(st, st', r, world, x);
      assert SomeStep(st, st', world, x);
    } else {
      forall s | 0 <= s < world ensures Announced(st.ranks[s], st.ranks[m].round) {
        if st.ranks[s].round == st.ranks[m].round { SlowestWaitsForAll(st, m, s, world); }
      }
      SlowestWaitsForAll(st, m, m, world);
      assert false;
    }
  }
}
