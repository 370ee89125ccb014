/**
 The bounded tensor cache: handlers reserve memory against a budget and tell the runtime through a pipe, which the
 runtime reads later.

 A state machine over any number of allocations. The steps of one allocation interleave with those of all others, with
 the thread that waits for memory, and with the runtime. Testing that a request fits and raising the budget counter are
 one step, as with a single event loop.
 */
module MemoryCache {
  import opened Wrappers

  // ----- allocations -----

  /** One tensor: the device it lives on and its size. */
  datatype Descriptor = Descriptor(device: nat, bytes: nat)

  function OnDevice(descrs: seq<Descriptor>, d: nat): nat
  {
    if |descrs| == 0 then 0
    else OnDevice(descrs[..|descrs| - 1], d) + (if descrs[|descrs| - 1].device == d then descrs[|descrs| - 1].bytes
                                                else 0)
  }

  /** Adds up the tensors by device and takes the largest sum. */
  method GetAllocationSize(descrs: seq<Descriptor>) returns (size: nat)
    requires |descrs| > 0
    ensures IsAllocationSize(descrs, size)
  {
    var byDevice: map<nat, nat> := map[];
    for i := 0 to |descrs|
      invariant forall d: nat :: OnDevice(descrs[..i], d) == if d in byDevice then byDevice[d] else 0
      invariant i > 0 ==> descrs[0].device in byDevice
    {
      assert descrs[..i + 1][..i] == descrs[..i];
      var d := descrs[i].device;
      byDevice := byDevice[d := (if d in byDevice then byDevice[d] else 0) + descrs[i].bytes];
    }
    assert descrs[..|descrs|] == descrs;
    size := byDevice[descrs[0].device];
    var devices := byDevice.Keys;
    while devices != {}
      invariant devices <= byDevice.Keys
      invariant forall d | d in byDevice && d !in devices :: byDevice[d] <= size
      invariant exists d :: d in byDevice && byDevice[d] == size
      decreases devices
    {
      var d :| d in devices;
      if byDevice[d] > size { size := byDevice[d]; }
      devices := devices - {d};
    }
    var d :| d in byDevice && byDevice[d] == size;
    assert OnDevice(descrs, d) == size;
  }

  datatype Phase =
    | Queued       // counted as enqueued, waits for the lock
    | Holding      // has the lock
    | ToCheck      // the waiting thread is about to test whether the request fits
    | ToWait       // it did not fit; the thread waits for the event
    | ToClear      // the event was set; the thread is about to clear it
    | Fitting      // the thread has seen that the request fits
    | Admitted     // the memory is reserved and the runtime has been told
    | Sent         // the runtime has been told to free
    | Decremented  // the budget counter is lowered; the event is not set yet
    | Freed
    | Failed

  /** `allocAt` and `freeAt` are the numbers of its messages to the runtime. */
  datatype Task = Task(descrs: seq<Descriptor>, size: nat, phase: Phase, first: nat, allocAt: nat, freeAt: nat)
  {
    predicate Waiting() { phase.Queued? || HasLock() }
    predicate HasLock() { phase.Holding? || phase.ToCheck? || phase.ToWait? || phase.ToClear? || phase.Fitting? }
    predicate Counted() { phase.Admitted? || phase.Sent? }
    predicate FreeSent() { phase.Sent? || phase.Decremented? || phase.Freed? }
    predicate AllocSent() { phase.Admitted? || FreeSent() }

    /** After the runtime has read the first `k` messages, are the tensors of this allocation there? */
    predicate LiveAt(k: nat) { AllocSent() && allocAt < k && !(FreeSent() && freeAt < k) }
  }

  /** A message, and the value of the budget counter when it was sent. */
  datatype Message =
    | Create(owner: nat, first: nat, descrs: seq<Descriptor>, tag: int)
    | Delete(owner: nat, first: nat, count: nat, tag: int)

  datatype State = State(
    tasks: seq<Task>, current: int, enqueued: int, counter: nat, lock: Option<nat>, event: bool,
    log: seq<Message>, drained: nat, tensors: map<nat, Descriptor>)

  // ----- sums over allocations -----

  function Sum(tasks: seq<Task>, w: Task -> nat): nat
  {
    if |tasks| == 0 then 0 else Sum(tasks[..|tasks| - 1], w) + w(tasks[|tasks| - 1])
  }

  lemma {:induction false} SumUpdate(tasks: seq<Task>, i: nat, t: Task, w: Task -> nat)
    requires i < |tasks|
    ensures Sum(tasks[i := t], w) == Sum(tasks, w) - w(tasks[i]) + w(t)
  {
    var n := |tasks| - 1;
    if i == n {
      assert tasks[i := t][..n] == tasks[..n];
    } else {
      SumUpdate(tasks[..n], i, t, w);
      assert tasks[i := t][..n] == tasks[..n][i := t];
    }
  }

  lemma SumAppend(tasks: seq<Task>, t: Task, w: Task -> nat)
    ensures Sum(tasks + [t], w) == Sum(tasks, w) + w(t)
  {
    assert (tasks + [t])[..|tasks|] == tasks;
  }

  lemma {:induction false} SumAtMost(tasks: seq<Task>, w: Task -> nat, w': Task -> nat)
    requires forall i | 0 <= i < |tasks| :: w(tasks[i]) <= w'(tasks[i])
    ensures Sum(tasks, w) <= Sum(tasks, w')
  {
    if |tasks| > 0 {
      SumAtMost(tasks[..|tasks| - 1], w, w');
    }
  }

  lemma {:induction false} SumSame(tasks: seq<Task>, tasks': seq<Task>, w: Task -> nat, w': Task -> nat)
    requires |tasks| == |tasks'| && forall i | 0 <= i < |tasks| :: w(tasks[i]) == w'(tasks'[i])
    ensures Sum(tasks, w) == Sum(tasks', w')
  {
    if |tasks| > 0 {
      SumSame(tasks[..|tasks| - 1], tasks'[..|tasks| - 1], w, w');
    }
  }

  function CountedSize(): Task -> nat { (t: Task) => if t.Counted() then t.size else 0 }
  function WaitingSize(): Task -> nat { (t: Task) => if t.Waiting() then t.size else 0 }
  function LiveBytes(k: nat, d: nat): Task -> nat { (t: Task) => if t.LiveAt(k) then OnDevice(t.descrs, d) else 0 }

  // ----- steps -----

  function NewTask(descrs: seq<Descriptor>, size: nat): Task { Task(descrs, size, Queued, 0, 0, 0) }

  function Put(st: State, i: nat, t: Task): State
    requires i < |st.tasks|
  {
    st.(tasks := st.tasks[i := t])
  }

  function AtPhase(st: State, i: nat, phase: Phase): State
    requires i < |st.tasks|
  {
    Put(st, i, st.tasks[i].(phase := phase))
  }

  /** A request arrives; its size is the most it needs on any one device. */
  function AfterArrive(st: State, descrs: seq<Descriptor>, size: nat): State
  {
    st.(tasks := st.tasks + [NewTask(descrs, size)], enqueued := st.enqueued + size)
  }

  function AfterLock(st: State, i: nat): State
    requires i < |st.tasks|
  {
    AtPhase(st, i, Holding).(lock := Some(i))
  }

  /** Reserves the memory, hands out the next handles and tells the runtime. */
  function AfterAdmit(st: State, i: nat): State
    requires i < |st.tasks|
  {
    var t := st.tasks[i];
    var current := st.current + t.size;
    Put(st, i, t.(phase := Admitted, first := st.counter, allocAt := |st.log|))
      .(current := current, enqueued := st.enqueued - t.size, counter := st.counter + |t.descrs|, lock := None,
        log := st.log + [Create(i, st.counter, t.descrs, current)])
  }

  /** A request that waits gives up: it timed out, or it can never fit. */
  function AfterFail(st: State, i: nat): State
    requires i < |st.tasks|
  {
    AtPhase(st, i, Failed).(enqueued := st.enqueued - st.tasks[i].size,
                            lock := if st.tasks[i].HasLock() then None else st.lock)
  }

  function AfterClear(st: State, i: nat): State
    requires i < |st.tasks|
  {
    AtPhase(st, i, ToCheck).(event := false)
  }

  function AfterSendFree(st: State, i: nat): State
    requires i < |st.tasks|
  {
    var t := st.tasks[i];
    Put(st, i, t.(phase := Sent, freeAt := |st.log|)).(log := st.log + [Delete(i, t.first, |t.descrs|, st.current)])
  }

  function AfterDecrement(st: State, i: nat): State
    requires i < |st.tasks|
  {
    AtPhase(st, i, Decremented).(current := st.current - st.tasks[i].size)
  }

  function AfterSet(st: State, i: nat): State
    requires i < |st.tasks|
  {
    AtPhase(st, i, Freed).(event := true)
  }

  /** The tensors after those of `descrs` were made under the handles from `first` on. */
  function Created(tensors: map<nat, Descriptor>, first: nat, descrs: seq<Descriptor>): map<nat, Descriptor>
  {
    if |descrs| == 0 then tensors
    else Created(tensors, first, descrs[..|descrs| - 1])[first + |descrs| - 1 := descrs[|descrs| - 1]]
  }

  /** Handles that are not there are skipped, with a warning. */
  function Deleted(tensors: map<nat, Descriptor>, first: nat, count: nat): map<nat, Descriptor>
  {
    if count == 0 then tensors else Deleted(tensors, first, count - 1) - {first + count - 1}
  }

  function AfterDrain(st: State): State
    requires st.drained < |st.log|
  {
    var m := st.log[st.drained];
    st.(drained := st.drained + 1,
        tensors := if m.Create? then Created(st.tensors, m.first, m.descrs) else Deleted(st.tensors, m.first, m.count))
  }

  /** What an allocation, or the thread that waits for it, may do next. */
  ghost predicate TaskStep(st: State, st': State, max: nat, i: nat)
    requires i < |st.tasks|
  {
    var t := st.tasks[i];
    var fits := st.current + t.size <= max;
    match t.phase
    case Queued => st' == AfterFail(st, i) || (st.lock.None? && st' == AfterLock(st, i))
    case Holding => if fits then st' == AfterAdmit(st, i) else st' == AfterFail(st, i) || st' == AtPhase(st, i, ToCheck)
    case ToCheck => if t.size > max then st' == AfterFail(st, i)
        else st' == AtPhase(st, i, if fits then Fitting else ToWait)
    case ToWait => (st.event && st' == AtPhase(st, i, ToClear)) || st' == AfterFail(st, i)
    case ToClear => st' == AfterClear(st, i)
    case Fitting => st' == AfterAdmit(st, i)
    case Admitted => st' == AfterSendFree(st, i)
    case Sent => st' == AfterDecrement(st, i)
    case Decremented => st' == AfterSet(st, i)
    case _ => false
  }

  /** The most that the tensors need on any one device. */
  ghost predicate IsAllocationSize(descrs: seq<Descriptor>, size: nat)
  {
    (forall d: nat :: OnDevice(descrs, d) <= size) && exists d: nat :: OnDevice(descrs, d) == size
  }

  ghost predicate Arrival(st: State, st': State)
  {
    exists descrs: seq<Descriptor>, size: nat :: st' == AfterArrive(st, descrs, size) && IsAllocationSize(descrs, size)
  }

  ghost predicate Step(st: State, st': State, max: nat)
  {
    || Arrival(st, st')
    || (exists i: nat | i < |st.tasks| :: TaskStep(st, st', max, i))
    || (st.drained < |st.log| && st' == AfterDrain(st))
  }

  /** Only an allocation's own steps change it. */
  lemma OnlyOwnSteps(st: State, st': State, max: nat, i: nat)
    requires Step(st, st', max) && i < |st.tasks|
    ensures i < |st'.tasks| && (st'.tasks[i] == st.tasks[i] || TaskStep(st, st', max, i))
  {
    if k: nat :| k < |st.tasks| && TaskStep(st, st', max, k) {
      if k != i { OthersStay(st, st', max, k, i); }
    }
  }

  lemma OthersStay(st: State, st': State, max: nat, k: nat, i: nat)
    requires k < |st.tasks| && i < |st.tasks| && i != k && TaskStep(st, st', max, k)
    ensures |st'.tasks| == |st.tasks| && st'.tasks[i] == st.tasks[i]
  {
  }

  /** A request that has the lock and fits is admitted: its memory is reserved and the runtime is told. */
  lemma FittingRequestIsAdmitted(st: State, st': State, max: nat, i: nat)
    requires Step(st, st', max) && i < |st.tasks| && st.tasks[i].phase.Holding?
    requires st.current + st.tasks[i].size <= max
    ensures i < |st'.tasks|
    ensures st'.tasks[i] == st.tasks[i]
         || (st'.tasks[i].phase.Admitted? && st'.current == st.current + st.tasks[i].size
             && st'.log == st.log + [Create(i, st.counter, st.tasks[i].descrs, st'.current)])
  {
    OnlyOwnSteps(st, st', max, i);
  }

  /** A request fails only while it waits, for the lock or for memory, or when it can never fit. */
  lemma FailsOnlyWhileWaiting(st: State, st': State, max: nat, i: nat)
    requires Step(st, st', max) && i < |st.tasks| && i < |st'.tasks|
    requires !st.tasks[i].phase.Failed? && st'.tasks[i].phase.Failed?
    ensures var t := st.tasks[i];
            || t.phase.Queued? || t.phase.ToWait? || (t.phase.Holding? && st.current + t.size > max)
            || (t.phase.ToCheck? && t.size > max)
  {
    OnlyOwnSteps(st, st', max, i);
  }

  /** The waiting thread lets a request go on only when it fits, and lets it wait only when it does not. */
  lemma WaitsOnlyWithoutMemory(st: State, st': State, max: nat, i: nat)
    requires Step(st, st', max) && i < |st.tasks| && st.tasks[i].phase.ToCheck?
    ensures i < |st'.tasks|
    ensures st'.tasks[i] == st.tasks[i]
         || (st.tasks[i].size > max && st'.tasks[i].phase.Failed?)
         || (st.tasks[i].size <= max
             && st'.tasks[i].phase == if st.current + st.tasks[i].size <= max then Fitting else ToWait)
  {
    OnlyOwnSteps(st, st', max, i);
  }

  /** A task that has lowered the counter sets the event, and the waiting thread uses it up when it wakes. */
  lemma WakeUpUsesTheEvent(st: State, st': State, max: nat, i: nat)
    requires Step(st, st', max) && i < |st.tasks|
    ensures i < |st'.tasks|
    ensures st.tasks[i].phase.Decremented? ==> st'.tasks[i] == st.tasks[i] || (st'.tasks[i].phase.Freed? && st'.event)
    ensures st.tasks[i].phase.ToClear? ==> st'.tasks[i] == st.tasks[i] || (st'.tasks[i].phase.ToCheck? && !st'.event)
  {
    OnlyOwnSteps(st, st', max, i);
  }

  /** Nothing else touches the event. */
  lemma EventFollowsFrees(st: State, st': State, max: nat)
    requires Step(st, st', max)
    ensures !st.event && st'.event ==> exists k: nat :: Turns(st, st', k, Decremented, Freed)
    ensures st.event && !st'.event ==> exists k: nat :: Turns(st, st', k, ToClear, ToCheck)
  {
    if st.event != st'.event {
      var k: nat :| k < |st.tasks| && TaskStep(st, st', max, k);
      assert Turns(st, st', k, if st'.event then Decremented else ToClear, if st'.event then Freed else ToCheck);
    }
  }

  predicate Turns(st: State, st': State, k: nat, phase: Phase, phase': Phase)
  {
    k < |st.tasks| && k < |st'.tasks| && st.tasks[k].phase == phase && st'.tasks[k].phase == phase'
  }

  function Start(): State { State([], 0, 0, 0, None, false, [], 0, map[]) }

  ghost predicate Run(run: seq<State>, max: nat)
  {
    && |run| > 0 && run[0] == Start()
    && forall i, k | 0 <= i < k == i + 1 < |run| :: Step(run[i], run[k], max)
  }

  // ----- the invariant -----

  ghost predicate Counters(st: State, max: nat)
  {
    st.current == Sum(st.tasks, CountedSize()) <= max && st.enqueued == Sum(st.tasks, WaitingSize())
  }

  ghost predicate Locks(st: State)
  {
    (forall i: nat | i < |st.tasks| :: st.tasks[i].HasLock() <==> st.lock == Some(i))
    && (st.lock.Some? ==> st.lock.value < |st.tasks|)
  }

  ghost predicate Fits(st: State, max: nat)
  {
    forall i: nat | i < |st.tasks| && st.tasks[i].phase.Fitting? :: st.current + st.tasks[i].size <= max
  }

  /** Someone has lowered the counter and is about to set the event. */
  ghost predicate WakeupUnderWay(st: State)
  {
    exists j: nat :: j < |st.tasks| && st.tasks[j].phase.Decremented?
  }

  ghost predicate Wakes(st: State, max: nat)
  {
    forall i: nat | i < |st.tasks| && st.tasks[i].phase.ToWait? ::
      st.event || st.current + st.tasks[i].size > max || WakeupUnderWay(st)
  }

  ghost predicate Sizes(st: State)
  {
    forall i: nat, d: nat | i < |st.tasks| :: OnDevice(st.tasks[i].descrs, d) <= st.tasks[i].size
  }

  ghost predicate Control(st: State, max: nat)
  {
    Locks(st) && Fits(st, max) && Wakes(st, max) && Sizes(st)
  }

  /** The messages of an allocation are where it says. */
  ghost predicate Sends(log: seq<Message>, i: nat, t: Task)
  {
    && (t.AllocSent() ==> t.allocAt < |log| && log[t.allocAt].Create? && log[t.allocAt].owner == i
                          && log[t.allocAt].first == t.first && log[t.allocAt].descrs == t.descrs)
    && (t.FreeSent() ==> t.allocAt < t.freeAt < |log| && log[t.freeAt].Delete? && log[t.freeAt].owner == i
                         && log[t.freeAt].first == t.first && log[t.freeAt].count == |t.descrs|)
  }

  ghost predicate SentBy(m: Message, k: nat, tasks: seq<Task>)
  {
    && m.owner < |tasks|
    && (m.Create? ==> tasks[m.owner].AllocSent() && tasks[m.owner].allocAt == k)
    && (m.Delete? ==> tasks[m.owner].FreeSent() && tasks[m.owner].freeAt == k)
  }

  ghost predicate Messages(st: State)
  {
    && st.drained <= |st.log|
    && (forall i: nat | i < |st.tasks| :: Sends(st.log, i, st.tasks[i]))
    && (forall k: nat | k < |st.log| :: SentBy(st.log[k], k, st.tasks))
  }

  /** Different allocations have different handles. */
  ghost predicate Handles(st: State)
  {
    && (forall i: nat | i < |st.tasks| && st.tasks[i].AllocSent() ::
        st.tasks[i].first + |st.tasks[i].descrs| <= st.counter)
    && (forall i: nat, j: nat | i < |st.tasks| && j < |st.tasks| && i != j && st.tasks[i].AllocSent()
        && st.tasks[j].AllocSent() ::
          Apart(st.tasks[i], st.tasks[j]))
  }

  predicate Apart(a: Task, b: Task)
  {
    a.first + |a.descrs| <= b.first || b.first + |b.descrs| <= a.first
  }

  /** What the runtime holds after a message is within the budget counter at the time when the message was sent. */
  ghost predicate Tags(st: State, max: nat)
  {
    forall k: nat, d: nat | k < |st.log| :: TagBounds(st, max, k, d)
  }

  ghost predicate TagBounds(st: State, max: nat, k: nat, d: nat)
    requires k < |st.log|
  {
    Sum(st.tasks, LiveBytes(k + 1, d)) <= st.log[k].tag <= max
  }

  // ----- what every step keeps -----

  /** A step that tells the runtime nothing. */
  ghost predicate Quiet(st: State, st': State, i: nat)
  {
    && i < |st.tasks| == |st'.tasks| && st'.tasks == st.tasks[i := st.tasks[i].(phase := st'.tasks[i].phase)]
    && st'.tasks[i].AllocSent() == st.tasks[i].AllocSent() && st'.tasks[i].FreeSent() == st.tasks[i].FreeSent()
    && st'.log == st.log && st'.counter == st.counter && st'.drained == st.drained && st'.tensors == st.tensors
  }

  lemma StepKinds(st: State, st': State, max: nat, i: nat)
    requires i < |st.tasks| && TaskStep(st, st', max, i)
    ensures || (st' == AfterAdmit(st, i) && st.tasks[i].HasLock())
            || (st' == AfterSendFree(st, i) && st.tasks[i].phase.Admitted?)
            || Quiet(st, st', i)
  {
  }

  /** Task `i` moves on; nothing that the runtime has read or will read from the present log changes its meaning. */
  ghost predicate MovesOn(st: State, st': State, i: nat)
  {
    && i < |st.tasks| == |st'.tasks| && st'.tasks == st.tasks[i := st'.tasks[i]]
    && st'.tasks[i].descrs == st.tasks[i].descrs && st'.tasks[i].size == st.tasks[i].size
    && st.log <= st'.log && st'.drained == st.drained && st'.tensors == st.tensors && st.counter <= st'.counter
    && (st.tasks[i].AllocSent() ==> st'.tasks[i].AllocSent() && st'.tasks[i].first == st.tasks[i].first)
    && forall k: nat | k <= |st.log| :: st'.tasks[i].LiveAt(k) == st.tasks[i].LiveAt(k)
  }

  lemma TaskMovesOn(st: State, st': State, max: nat, i: nat)
    requires Messages(st) && i < |st.tasks| && TaskStep(st, st', max, i)
    ensures MovesOn(st, st', i)
  {
    StepKinds(st, st', max, i);
    assert Sends(st.log, i, st.tasks[i]);
  }

  lemma TaskKeepsCounters(st: State, st': State, max: nat, i: nat)
    requires Counters(st, max) && Fits(st, max) && i < |st.tasks| && TaskStep(st, st', max, i)
    ensures Counters(st', max)
  {
    SumUpdate(st.tasks, i, st'.tasks[i], CountedSize());
    SumUpdate(st.tasks, i, st'.tasks[i], WaitingSize());
    CurrentMoves(st, st', max, i);
    EnqueuedMoves(st, st', max, i);
    CurrentStaysBounded(st, st', max, i);
    TasksMove(st, st', max, i);
  }

  lemma TasksMove(st: State, st': State, max: nat, i: nat)
    requires i < |st.tasks| && TaskStep(st, st', max, i)
    ensures st'.tasks == st.tasks[i := st'.tasks[i]]
  {
  }

  lemma CurrentMoves(st: State, st': State, max: nat, i: nat)
    requires i < |st.tasks| && TaskStep(st, st', max, i)
    ensures st'.current - st.current == CountedSize()(st'.tasks[i]) - CountedSize()(st.tasks[i])
  {
  }

  lemma EnqueuedMoves(st: State, st': State, max: nat, i: nat)
    requires i < |st.tasks| && TaskStep(st, st', max, i)
    ensures st'.enqueued - st.enqueued == WaitingSize()(st'.tasks[i]) - WaitingSize()(st.tasks[i])
  {
  }

  lemma CurrentStaysBounded(st: State, st': State, max: nat, i: nat)
    requires i < |st.tasks| && TaskStep(st, st', max, i) && Fits(st, max) && st.current <= max
    ensures st'.current <= max
  {
  }

  lemma TaskKeepsControl(st: State, st': State, max: nat, i: nat)
    requires Control(st, max) && i < |st.tasks| && TaskStep(st, st', max, i)
    ensures Control(st', max)
  {
    TaskKeepsLocks(st, st', max, i);
    TaskKeepsFits(st, st', max, i);
    TaskKeepsWakes(st, st', max, i);
    assert forall j: nat | j < |st.tasks| :: st'.tasks[j].descrs == st.tasks[j].descrs
                                             && st'.tasks[j].size == st.tasks[j].size;
  }

  lemma TaskKeepsLocks(st: State, st': State, max: nat, i: nat)
    requires Locks(st) && i < |st.tasks| && TaskStep(st, st', max, i)
    ensures Locks(st')
  {
  }

  lemma TaskKeepsFits(st: State, st': State, max: nat, i: nat)
    requires Locks(st) && Fits(st, max) && i < |st.tasks| && TaskStep(st, st', max, i)
    ensures Fits(st', max)
  {
  }

  lemma TaskKeepsWakes(st: State, st': State, max: nat, i: nat)
    requires Locks(st) && Wakes(st, max) && i < |st.tasks| && TaskStep(st, st', max, i)
    ensures Wakes(st', max)
  {
    forall j: nat | j < |st'.tasks| && st'.tasks[j].phase.ToWait?
      ensures st'.event || st'.current + st'.tasks[j].size > max || WakeupUnderWay(st')
    {
      if st.tasks[i].phase.Sent? {
        assert st'.tasks[i].phase.Decremented?;
      } else if WakeupUnderWay(st) && !st'.event {
        var f: nat :| f < |st.tasks| && st.tasks[f].phase.Decremented?;
        assert st'.tasks[f].phase.Decremented?;
      }
    }
  }

  lemma TaskKeepsMessages(st: State, st': State, max: nat, i: nat)
    requires Messages(st) && i < |st.tasks| && TaskStep(st, st', max, i)
    ensures Messages(st')
  {
    StepKinds(st, st', max, i);
    assert Sends(st.log, i, st.tasks[i]);
    if Quiet(st, st', i) {
      QuietKeepsMessages(st, st', i);
    } else if st.tasks[i].phase.Admitted? {
      SendFreeKeepsMessages(st, i);
    } else {
      AdmitKeepsMessages(st, i);
    }
  }

  lemma QuietKeepsMessages(st: State, st': State, i: nat)
    requires Messages(st) && Quiet(st, st', i)
    ensures Messages(st')
  {
    forall j: nat | j < |st'.tasks| ensures Sends(st'.log, j, st'.tasks[j]) {
      assert Sends(st.log, j, st.tasks[j]);
    }
    forall k: nat | k < |st'.log| ensures SentBy(st'.log[k], k, st'.tasks) {
      assert SentBy(st.log[k], k, st.tasks);
    }
  }

  lemma AdmitKeepsMessages(st: State, i: nat)
    requires Messages(st) && i < |st.tasks| && st.tasks[i].HasLock()
    ensures Messages(AfterAdmit(st, i))
  {
    var st' := AfterAdmit(st, i);
    forall j: nat | j < |st'.tasks| ensures Sends(st'.log, j, st'.tasks[j]) {
      assert Sends(st.log, j, st.tasks[j]);
    }
    forall k: nat | k < |st'.log| ensures SentBy(st'.log[k], k, st'.tasks) {
      if k < |st.log| { assert SentBy(st.log[k], k, st.tasks); }
    }
  }

  lemma SendFreeKeepsMessages(st: State, i: nat)
    requires Messages(st) && i < |st.tasks| && st.tasks[i].phase.Admitted?
    ensures Messages(AfterSendFree(st, i))
  {
    var st' := AfterSendFree(st, i);
    forall j: nat | j < |st'.tasks| ensures Sends(st'.log, j, st'.tasks[j]) {
      assert Sends(st.log, j, st.tasks[j]);
    }
    forall k: nat | k < |st'.log| ensures SentBy(st'.log[k], k, st'.tasks) {
      if k < |st.log| { assert SentBy(st.log[k], k, st.tasks); }
    }
  }

  lemma TaskKeepsHandles(st: State, st': State, max: nat, i: nat)
    requires Handles(st) && i < |st.tasks| && TaskStep(st, st', max, i)
    ensures Handles(st')
  {
    StepKinds(st, st', max, i);
    if st' == AfterAdmit(st, i) {
      AdmitKeepsHandles(st, i);
    }
  }

  lemma AdmitKeepsHandles(st: State, i: nat)
    requires Handles(st) && i < |st.tasks|
    ensures Handles(AfterAdmit(st, i))
  {
  }

  lemma LiveBytesKept(st: State, st': State, i: nat, k: nat, d: nat)
    requires MovesOn(st, st', i) && k <= |st.log|
    ensures Sum(st'.tasks, LiveBytes(k, d)) == Sum(st.tasks, LiveBytes(k, d))
  {
    SumUpdate(st.tasks, i, st'.tasks[i], LiveBytes(k, d));
  }

  /** Of the allocations that are alive once everything is read, each is counted in the budget. */
  lemma LiveIsCounted(st: State, max: nat, d: nat, k: nat)
    requires Messages(st) && Sizes(st) && Counters(st, max) && k >= |st.log|
    ensures Sum(st.tasks, LiveBytes(k, d)) <= st.current
  {
    forall i | 0 <= i < |st.tasks| ensures LiveBytes(k, d)(st.tasks[i]) <= CountedSize()(st.tasks[i]) {
      assert Sends(st.log, i, st.tasks[i]);
    }
    SumAtMost(st.tasks, LiveBytes(k, d), CountedSize());
  }

  lemma TaskKeepsTags(st: State, st': State, max: nat, i: nat)
    requires Messages(st) && Sizes(st') && Tags(st, max) && Counters(st, max) && Counters(st', max) && Messages(st')
    requires i < |st.tasks| && TaskStep(st, st', max, i)
    ensures Tags(st', max)
  {
    TaskMovesOn(st, st', max, i);
    forall k: nat, d: nat | k < |st'.log| ensures TagBounds(st', max, k, d) {
      if k < |st.log| {
        OldTagKept(st, st', max, i, k, d);
      } else {
        NewTagBounded(st, st', max, i, k, d);
      }
    }
  }

  lemma NewTagBounded(st: State, st': State, max: nat, i: nat, k: nat, d: nat)
    requires i < |st.tasks| && TaskStep(st, st', max, i) && |st.log| <= k < |st'.log|
    requires Messages(st') && Sizes(st') && Counters(st', max)
    ensures TagBounds(st', max, k, d)
  {
    LastTag(st, st', max, i, k);
    LiveIsCounted(st', max, d, k + 1);
  }

  lemma OldTagKept(st: State, st': State, max: nat, i: nat, k: nat, d: nat)
    requires MovesOn(st, st', i) && k < |st.log| && TagBounds(st, max, k, d)
    ensures k < |st'.log| && TagBounds(st', max, k, d)
  {
    LiveBytesKept(st, st', i, k + 1, d);
  }

  /** A message carries the value of the budget counter at the end of the step that sends it. */
  lemma LastTag(st: State, st': State, max: nat, i: nat, k: nat)
    requires i < |st.tasks| && TaskStep(st, st', max, i) && |st.log| <= k < |st'.log|
    ensures k == |st'.log| - 1 && st'.log[k].tag == st'.current
  {
    StepKinds(st, st', max, i);
  }

  lemma ArrivalKeepsCounters(st: State, st': State, max: nat)
    requires Counters(st, max) && Arrival(st, st')
    ensures Counters(st', max)
  {
    var descrs, size :| st' == AfterArrive(st, descrs, size) && IsAllocationSize(descrs, size);
    QueuedKeepsCounters(st, descrs, size, max);
  }

  lemma QueuedKeepsCounters(st: State, descrs: seq<Descriptor>, size: nat, max: nat)
    requires Counters(st, max)
    ensures Counters(AfterArrive(st, descrs, size), max)
  {
    SumAppend(st.tasks, NewTask(descrs, size), CountedSize());
    SumAppend(st.tasks, NewTask(descrs, size), WaitingSize());
  }

  lemma ArrivalKeepsControl(st: State, st': State, max: nat)
    requires Control(st, max) && Arrival(st, st')
    ensures Control(st', max)
  {
    forall i: nat | i < |st'.tasks| && st'.tasks[i].phase.ToWait?
      ensures st'.event || st'.current + st'.tasks[i].size > max || WakeupUnderWay(st')
    {
      if WakeupUnderWay(st) {
        var f: nat :| f < |st.tasks| && st.tasks[f].phase.Decremented?;
        assert st'.tasks[f].phase.Decremented?;
      }
    }
  }

  lemma ArrivalKeepsMessages(st: State, st': State)
    requires Messages(st) && Handles(st) && Arrival(st, st')
    ensures Messages(st') && Handles(st')
  {
    forall j: nat | j < |st'.tasks| ensures Sends(st'.log, j, st'.tasks[j]) {
      if j < |st.tasks| { assert Sends(st.log, j, st.tasks[j]); }
    }
    forall k: nat | k < |st'.log| ensures SentBy(st'.log[k], k, st'.tasks) {
      assert SentBy(st.log[k], k, st.tasks);
    }
  }

  lemma ArrivalKeepsLiveBytes(st: State, st': State, k: nat, d: nat)
    requires Arrival(st, st')
    ensures Sum(st'.tasks, LiveBytes(k, d)) == Sum(st.tasks, LiveBytes(k, d))
  {
    SumAppend(st.tasks, st'.tasks[|st.tasks|], LiveBytes(k, d));
  }

  lemma ArrivalKeepsTags(st: State, st': State, max: nat)
    requires Tags(st, max) && Arrival(st, st')
    ensures Tags(st', max)
  {
    forall k: nat, d: nat | k < |st'.log| ensures TagBounds(st', max, k, d) {
      assert TagBounds(st, max, k, d);
      ArrivalKeepsLiveBytes(st, st', k + 1, d);
    }
  }

  // ----- what the runtime holds -----

  /** The bytes of the tensors on device `d` whose handles are below `n`. */
  function HeldBytes(tensors: map<nat, Descriptor>, d: nat, n: nat): nat
  {
    if n == 0 then 0
    else HeldBytes(tensors, d, n - 1)
         + (if n - 1 in tensors && tensors[n - 1].device == d then tensors[n - 1].bytes else 0)
  }

  lemma {:induction false} HeldOneMore(tensors: map<nat, Descriptor>, h: nat, x: Descriptor, d: nat, n: nat)
    requires h !in tensors
    ensures HeldBytes(tensors[h := x], d, n) == HeldBytes(tensors, d, n) + if h < n && x.device == d then x.bytes else 0
  {
    if n > 0 { HeldOneMore(tensors, h, x, d, n - 1); }
  }

  lemma HeldOneLess(tensors: map<nat, Descriptor>, h: nat, d: nat, n: nat)
    requires h in tensors
    ensures HeldBytes(tensors - {h}, d, n) == HeldBytes(tensors, d, n)
            - if h < n && tensors[h].device == d then tensors[h].bytes else 0
  {
    HeldOneMore(tensors - {h}, h, tensors[h], d, n);
    assert (tensors - {h})[h := tensors[h]] == tensors;
  }

  lemma {:induction false} HeldBelow(tensors: map<nat, Descriptor>, d: nat, n: nat, n': nat)
    requires n <= n' && forall h | h in tensors :: h < n
    ensures HeldBytes(tensors, d, n') == HeldBytes(tensors, d, n)
  {
    if n < n' { HeldBelow(tensors, d, n, n' - 1); }
  }

  /** The tensors of `descrs` are there, under the handles from `first` on. */
  ghost predicate Present(tensors: map<nat, Descriptor>, first: nat, descrs: seq<Descriptor>)
  {
    forall h | first <= h < first + |descrs| :: h in tensors && tensors[h] == descrs[h - first]
  }

  lemma {:induction false} CreatedHolds(tensors: map<nat, Descriptor>, first: nat, descrs: seq<Descriptor>, d: nat,
                                        n: nat)
    requires first + |descrs| <= n && forall h | first <= h < first + |descrs| :: h !in tensors
    ensures forall h :: h in Created(tensors, first, descrs) <==> h in tensors || first <= h < first + |descrs|
    ensures forall h | h in Created(tensors, first, descrs) ::
              Created(tensors, first, descrs)[h] == if first <= h < first + |descrs| then descrs[h - first]
                  else tensors[h]
    ensures HeldBytes(Created(tensors, first, descrs), d, n) == HeldBytes(tensors, d, n) + OnDevice(descrs, d)
  {
    if |descrs| > 0 {
      var m := |descrs| - 1;
      CreatedHolds(tensors, first, descrs[..m], d, n);
      HeldOneMore(Created(tensors, first, descrs[..m]), first + m, descrs[m], d, n);
    }
  }

  lemma {:induction false} DeletedHolds(tensors: map<nat, Descriptor>, first: nat, descrs: seq<Descriptor>, d: nat,
                                        n: nat)
    requires first + |descrs| <= n
    requires Present(tensors, first, descrs)
    ensures forall h :: h in Deleted(tensors, first, |descrs|) <==> h in tensors && !(first <= h < first + |descrs|)
    ensures forall h | h in Deleted(tensors, first, |descrs|) :: Deleted(tensors, first, |descrs|)[h] == tensors[h]
    ensures HeldBytes(Deleted(tensors, first, |descrs|), d, n) == HeldBytes(tensors, d, n) - OnDevice(descrs, d)
  {
    if |descrs| > 0 {
      var m := |descrs| - 1;
      DeletedHolds(tensors, first, descrs[..m], d, n);
      HeldOneLess(Deleted(tensors, first, m), first + m, d, n);
    }
  }

  ghost predicate IsPresent(tensors: map<nat, Descriptor>, t: Task)
  {
    Present(tensors, t.first, t.descrs)
  }

  predicate Owns(t: Task, h: nat, k: nat)
  {
    t.LiveAt(k) && t.first <= h < t.first + |t.descrs|
  }

  ghost predicate Owned(st: State, h: nat)
  {
    exists i: nat :: i < |st.tasks| && Owns(st.tasks[i], h, st.drained)
  }

  /** The runtime holds the tensors of the allocations that are alive after the messages it has read, and nothing
      else. */
  ghost predicate Tensors(st: State)
  {
    && (forall i: nat | i < |st.tasks| && st.tasks[i].LiveAt(st.drained) :: IsPresent(st.tensors, st.tasks[i]))
    && (forall h | h in st.tensors :: Owned(st, h))
  }

  ghost predicate Bytes(st: State)
  {
    forall d: nat :: HeldBytes(st.tensors, d, st.counter) == Sum(st.tasks, LiveBytes(st.drained, d))
  }

  lemma HandlesAreBelow(st: State)
    requires Tensors(st) && Handles(st)
    ensures forall h | h in st.tensors :: h < st.counter
  {
    forall h | h in st.tensors ensures h < st.counter {
      assert Owned(st, h);
    }
  }

  lemma TaskKeepsTensors(st: State, st': State, max: nat, i: nat)
    requires Messages(st) && Handles(st) && Tensors(st) && Bytes(st) && i < |st.tasks| && TaskStep(st, st', max, i)
    ensures Tensors(st') && Bytes(st')
  {
    TaskMovesOn(st, st', max, i);
    MovingKeepsTensors(st, st', i);
    HandlesAreBelow(st);
    forall d: nat ensures HeldBytes(st'.tensors, d, st'.counter) == Sum(st'.tasks, LiveBytes(st'.drained, d)) {
      HeldBelow(st.tensors, d, st.counter, st'.counter);
      LiveBytesKept(st, st', i, st.drained, d);
    }
  }

  lemma MovingKeepsTensors(st: State, st': State, i: nat)
    requires MovesOn(st, st', i) && st.drained <= |st.log| && Tensors(st)
    ensures Tensors(st')
  {
    forall j: nat | j < |st'.tasks| && st'.tasks[j].LiveAt(st'.drained) ensures IsPresent(st'.tensors, st'.tasks[j]) {
      assert IsPresent(st.tensors, st.tasks[j]);
    }
    forall h | h in st'.tensors ensures Owned(st', h) {
      assert Owned(st, h);
      var j: nat :| j < |st.tasks| && Owns(st.tasks[j], h, st.drained);
      assert Owns(st'.tasks[j], h, st'.drained);
    }
  }

  lemma ArrivalKeepsTensors(st: State, st': State)
    requires Tensors(st) && Bytes(st) && Arrival(st, st')
    ensures Tensors(st') && Bytes(st')
  {
    forall j: nat | j < |st'.tasks| && st'.tasks[j].LiveAt(st'.drained) ensures IsPresent(st'.tensors, st'.tasks[j]) {
      assert IsPresent(st.tensors, st.tasks[j]);
    }
    forall h | h in st'.tensors ensures Owned(st', h) {
      assert Owned(st, h);
      var j: nat :| j < |st.tasks| && Owns(st.tasks[j], h, st.drained);
      assert Owns(st'.tasks[j], h, st'.drained);
    }
    forall d: nat ensures HeldBytes(st'.tensors, d, st'.counter) == Sum(st'.tasks, LiveBytes(st'.drained, d)) {
      ArrivalKeepsLiveBytes(st, st', st.drained, d);
    }
  }

  // ----- the runtime reads a message -----

  lemma {:induction false} SumDiffersAt(tasks: seq<Task>, i: nat, w: Task -> nat, w': Task -> nat)
    requires i < |tasks| && forall j | 0 <= j < |tasks| && j != i :: w(tasks[j]) == w'(tasks[j])
    ensures Sum(tasks, w') == Sum(tasks, w) - w(tasks[i]) + w'(tasks[i])
  {
    var n := |tasks| - 1;
    if i == n {
      SumSame(tasks[..n], tasks[..n], w, w');
    } else {
      SumDiffersAt(tasks[..n], i, w, w');
    }
  }

  /** Reading a message changes what is alive for its sender only. */
  lemma OnlySenderChanges(st: State)
    requires Messages(st) && st.drained < |st.log|
    ensures var m := st.log[st.drained];
            && m.owner < |st.tasks|
            && (forall j: nat | j < |st.tasks| && j != m.owner ::
                st.tasks[j].LiveAt(st.drained + 1) == st.tasks[j].LiveAt(st.drained))
            && st.tasks[m.owner].LiveAt(st.drained) == m.Delete?
            && st.tasks[m.owner].LiveAt(st.drained + 1) == m.Create?
            && st.tasks[m.owner].first == m.first
            && (m.Create? ==> m.descrs == st.tasks[m.owner].descrs)
            && (m.Delete? ==> m.count == |st.tasks[m.owner].descrs|)
  {
    var k, m := st.drained, st.log[st.drained];
    assert SentBy(m, k, st.tasks);
    assert Sends(st.log, m.owner, st.tasks[m.owner]);
    forall j: nat | j < |st.tasks| && j != m.owner ensures st.tasks[j].LiveAt(k + 1) == st.tasks[j].LiveAt(k) {
      assert Sends(st.log, j, st.tasks[j]);
    }
  }

  /** The handles of a message that creates tensors are not in use. */
  lemma NewHandlesAreFree(st: State)
    requires Messages(st) && Handles(st) && Tensors(st) && st.drained < |st.log| && st.log[st.drained].Create?
    ensures var m := st.log[st.drained];
            m.first + |m.descrs| <= st.counter && forall h | m.first <= h < m.first + |m.descrs| :: h !in st.tensors
  {
    OnlySenderChanges(st);
    var m := st.log[st.drained];
    forall h | h in st.tensors ensures h < m.first || h >= m.first + |m.descrs| {
      assert Owned(st, h);
      var j: nat :| j < |st.tasks| && Owns(st.tasks[j], h, st.drained);
      assert j != m.owner ==> Apart(st.tasks[j], st.tasks[m.owner]);
    }
  }

  predicate InRange(h: nat, t: Task)
  {
    t.first <= h < t.first + |t.descrs|
  }

  lemma CreatedTensors(st: State, d: nat)
    requires Messages(st) && Handles(st) && Tensors(st) && st.drained < |st.log| && st.log[st.drained].Create?
    ensures var t, tensors := st.tasks[st.log[st.drained].owner], AfterDrain(st).tensors;
            && (forall h: nat :: h in tensors <==> h in st.tensors || InRange(h, t))
            && (forall h: nat | h in tensors :: tensors[h] == if InRange(h, t) then t.descrs[h - t.first]
                                                else st.tensors[h])
            && HeldBytes(tensors, d, st.counter) == HeldBytes(st.tensors, d, st.counter) + OnDevice(t.descrs, d)
  {
    OnlySenderChanges(st);
    NewHandlesAreFree(st);
    CreatedHolds(st.tensors, st.log[st.drained].first, st.log[st.drained].descrs, d, st.counter);
  }

  lemma DeletedTensors(st: State, d: nat)
    requires Messages(st) && Handles(st) && Tensors(st) && st.drained < |st.log| && st.log[st.drained].Delete?
    ensures var t, tensors := st.tasks[st.log[st.drained].owner], AfterDrain(st).tensors;
            && (forall h: nat :: h in tensors <==> h in st.tensors && !InRange(h, t))
            && (forall h: nat | h in tensors :: tensors[h] == st.tensors[h])
            && HeldBytes(tensors, d, st.counter) == HeldBytes(st.tensors, d, st.counter) - OnDevice(t.descrs, d)
  {
    OnlySenderChanges(st);
    var t := st.tasks[st.log[st.drained].owner];
    assert IsPresent(st.tensors, t);
    DeletedHolds(st.tensors, t.first, t.descrs, d, st.counter);
  }

  lemma DrainKeepsBytes(st: State, d: nat)
    requires Messages(st) && Handles(st) && Tensors(st) && st.drained < |st.log|
    requires HeldBytes(st.tensors, d, st.counter) == Sum(st.tasks, LiveBytes(st.drained, d))
    ensures HeldBytes(AfterDrain(st).tensors, d, st.counter) == Sum(st.tasks, LiveBytes(st.drained + 1, d))
  {
    OnlySenderChanges(st);
    SumDiffersAt(st.tasks, st.log[st.drained].owner, LiveBytes(st.drained, d), LiveBytes(st.drained + 1, d));
    if st.log[st.drained].Create? { CreatedTensors(st, d); } else { DeletedTensors(st, d); }
  }

  lemma DrainKeepsPresent(st: State, i: nat)
    requires Messages(st) && Handles(st) && Tensors(st) && st.drained < |st.log|
    requires i < |st.tasks| && st.tasks[i].LiveAt(st.drained + 1)
    ensures IsPresent(AfterDrain(st).tensors, st.tasks[i])
  {
    OnlySenderChanges(st);
    if i == st.log[st.drained].owner {
      CreatedTensors(st, 0);
    } else {
      OthersStayPresent(st, i);
    }
  }

  lemma OthersStayPresent(st: State, i: nat)
    requires Messages(st) && Handles(st) && Tensors(st) && st.drained < |st.log|
    requires i < |st.tasks| && st.tasks[i].LiveAt(st.drained) && i != st.log[st.drained].owner
    ensures IsPresent(AfterDrain(st).tensors, st.tasks[i])
  {
    OnlySenderChanges(st);
    var owner := st.log[st.drained].owner;
    assert IsPresent(st.tensors, st.tasks[i]);
    assert Apart(st.tasks[i], st.tasks[owner]);
    if st.log[st.drained].Create? { CreatedTensors(st, 0); } else { DeletedTensors(st, 0); }
    ApartStaysPresent(st.tensors, AfterDrain(st).tensors, st.tasks[i], st.tasks[owner]);
  }

  lemma ApartStaysPresent(tensors: map<nat, Descriptor>, tensors': map<nat, Descriptor>, t: Task, changed: Task)
    requires IsPresent(tensors, t) && Apart(t, changed)
    requires forall h: nat | h in tensors && !InRange(h, changed) :: h in tensors' && tensors'[h] == tensors[h]
    ensures IsPresent(tensors', t)
  {
    forall h | t.first <= h < t.first + |t.descrs| ensures h in tensors' && tensors'[h] == t.descrs[h - t.first] {
      assert h in tensors && !InRange(h, changed);
    }
  }

  lemma DrainKeepsOwned(st: State, h: nat)
    requires Messages(st) && Handles(st) && Tensors(st) && st.drained < |st.log| && h in AfterDrain(st).tensors
    ensures Owned(AfterDrain(st), h)
  {
    OnlySenderChanges(st);
    var m, st' := st.log[st.drained], AfterDrain(st);
    if m.Create? { CreatedTensors(st, 0); } else { DeletedTensors(st, 0); }
    if h in st.tensors {
      assert Owned(st, h);
      var j: nat :| j < |st.tasks| && Owns(st.tasks[j], h, st.drained);
      assert Owns(st'.tasks[j], h, st'.drained);
    } else {
      assert Owns(st'.tasks[m.owner], h, st'.drained);
    }
  }

  lemma DrainKeepsTensors(st: State)
    requires Messages(st) && Handles(st) && Tensors(st) && Bytes(st) && st.drained < |st.log|
    ensures Tensors(AfterDrain(st)) && Bytes(AfterDrain(st))
  {
    var st' := AfterDrain(st);
    forall i: nat | i < |st'.tasks| && st'.tasks[i].LiveAt(st'.drained) ensures IsPresent(st'.tensors, st'.tasks[i]) {
      DrainKeepsPresent(st, i);
    }
    forall h | h in st'.tensors ensures Owned(st', h) {
      DrainKeepsOwned(st, h);
    }
    forall d: nat ensures HeldBytes(st'.tensors, d, st'.counter) == Sum(st'.tasks, LiveBytes(st'.drained, d)) {
      DrainKeepsBytes(st, d);
    }
  }

  // ----- every reachable state -----

  ghost predicate Good(st: State, max: nat)
  {
    Counters(st, max) && Control(st, max) && Messages(st) && Handles(st) && Tags(st, max) && Tensors(st) && Bytes(st)
  }

  lemma StartIsGood(max: nat)
    ensures Good(Start(), max)
  {
  }

  lemma TaskKeepsGood(st: State, st': State, max: nat, i: nat)
    requires Good(st, max) && i < |st.tasks| && TaskStep(st, st', max, i)
    ensures Good(st', max)
  {
    TaskKeepsCounters(st, st', max, i);
    TaskKeepsControl(st, st', max, i);
    TaskKeepsMessages(st, st', max, i);
    TaskKeepsHandles(st, st', max, i);
    TaskKeepsTags(st, st', max, i);
    TaskKeepsTensors(st, st', max, i);
  }

  lemma ArrivalKeepsGood(st: State, st': State, max: nat)
    requires Good(st, max) && Arrival(st, st')
    ensures Good(st', max)
  {
    ArrivalKeepsCounters(st, st', max);
    ArrivalKeepsControl(st, st', max);
    ArrivalKeepsMessages(st, st');
    ArrivalKeepsTags(st, st', max);
    ArrivalKeepsTensors(st, st');
  }

  lemma DrainKeepsGood(st: State, max: nat)
    requires Good(st, max) && st.drained < |st.log|
    ensures Good(AfterDrain(st), max)
  {
    DrainKeepsTensors(st);
    DrainKeepsRest(st, max);
  }

  lemma DrainKeepsRest(st: State, max: nat)
    requires Counters(st, max) && Control(st, max) && Messages(st) && Handles(st) && Tags(st, max)
             && st.drained < |st.log|
    ensures var st' := AfterDrain(st);
            Counters(st', max) && Control(st', max) && Messages(st') && Handles(st') && Tags(st', max)
  {
    DrainKeepsControl(st, max);
    DrainKeepsTags(st, max);
  }

  lemma DrainKeepsTags(st: State, max: nat)
    requires Tags(st, max) && st.drained < |st.log|
    ensures Tags(AfterDrain(st), max)
  {
    forall k: nat, d: nat | k < |st.log| ensures TagBounds(AfterDrain(st), max, k, d) {
      assert TagBounds(st, max, k, d);
    }
  }

  lemma DrainKeepsControl(st: State, max: nat)
    requires Control(st, max) && st.drained < |st.log|
    ensures Control(AfterDrain(st), max)
  {
    if WakeupUnderWay(st) {
      var f: nat :| f < |st.tasks| && st.tasks[f].phase.Decremented?;
      assert AfterDrain(st).tasks[f].phase.Decremented?;
    }
  }

  lemma {:induction false} EveryRunIsGood(run: seq<State>, max: nat)
    requires Run(run, max)
    ensures Good(run[|run| - 1], max)
  {
    var n := |run| - 1;
    if n == 0 {
      StartIsGood(max);
    } else {
      EveryRunIsGood(run[..n], max);
      var st, st' := run[n - 1], run[n];
      assert Step(st, st', max);
      if Arrival(st, st') {
        ArrivalKeepsGood(st, st', max);
      } else if st.drained < |st.log| && st' == AfterDrain(st) {
        DrainKeepsGood(st, max);
      } else {
        var i: nat :| i < |st.tasks| && TaskStep(st, st', max, i);
        TaskKeepsGood(st, st', max, i);
      }
    }
  }

  /** After any message, the bytes held on each device are within the budget counter as it was when the message was
      sent, and so within the limit. */
  lemma RuntimeStaysWithinBudget(run: seq<State>, max: nat, d: nat)
    requires Run(run, max)
    ensures var st := run[|run| - 1];
            && st.drained <= |st.log| && (forall h | h in st.tensors :: h < st.counter)
            && HeldBytes(st.tensors, d, st.counter) <= (if st.drained == 0 then 0 else st.log[st.drained - 1].tag)
            && HeldBytes(st.tensors, d, st.counter) <= max
  {
    EveryRunIsGood(run, max);
    var st := run[|run| - 1];
    HandlesAreBelow(st);
    if st.drained == 0 {
      SumSame(st.tasks, st.tasks, LiveBytes(0, d), (t: Task) => 0);
      ZeroSum(st.tasks);
    } else {
      assert TagBounds(st, max, st.drained - 1, d);
    }
  }

  lemma {:induction false} ZeroSum(tasks: seq<Task>)
    ensures Sum(tasks, (t: Task) => 0) == 0
  {
    if |tasks| > 0 { ZeroSum(tasks[..|tasks| - 1]); }
  }

  /** The runtime is never told to delete a handle it does not hold. */
  lemma NoUnknownHandleIsDeleted(run: seq<State>, max: nat)
    requires Run(run, max)
    ensures var st := run[|run| - 1];
            st.drained < |st.log| && st.log[st.drained].Delete? ==>
              forall h | st.log[st.drained].first <= h < st.log[st.drained].first + st.log[st.drained].count ::
                h in st.tensors
  {
    EveryRunIsGood(run, max);
    var st := run[|run| - 1];
    if st.drained < |st.log| && st.log[st.drained].Delete? {
      OnlySenderChanges(st);
      assert IsPresent(st.tensors, st.tasks[st.log[st.drained].owner]);
    }
  }

  /** Once the runtime has read everything, the tensors of every admitted allocation are there. */
  lemma LiveHandlesAreFound(run: seq<State>, max: nat, i: nat)
    requires Run(run, max)
    requires var st := run[|run| - 1]; i < |st.tasks| && st.tasks[i].phase.Admitted? && st.drained == |st.log|
    ensures var st := run[|run| - 1]; Present(st.tensors, st.tasks[i].first, st.tasks[i].descrs)
  {
    EveryRunIsGood(run, max);
    var st := run[|run| - 1];
    assert Sends(st.log, i, st.tasks[i]);
    assert IsPresent(st.tensors, st.tasks[i]);
  }

  /** A thread that waits for an event that is not set cannot be served yet, or someone is about to set the event. */
  lemma NoLostWakeup(run: seq<State>, max: nat, i: nat)
    requires Run(run, max)
    requires var st := run[|run| - 1]; i < |st.tasks| && st.tasks[i].phase.ToWait? && !st.event
    ensures var st := run[|run| - 1]; st.current + st.tasks[i].size > max || WakeupUnderWay(st)
    ensures var st := run[|run| - 1]; forall j: nat | j < |st.tasks| && st.tasks[j].HasLock() :: j == i
  {
    EveryRunIsGood(run, max);
  }

  /** `enqueued` is the sum of the requests that are neither admitted nor failed, and `current` that of the reserved
      ones. */
  lemma CountersAreSums(run: seq<State>, max: nat)
    requires Run(run, max)
    ensures var st := run[|run| - 1];
            && st.enqueued == Sum(st.tasks, WaitingSize())
            && st.current == Sum(st.tasks, CountedSize()) <= max
  {
    EveryRunIsGood(run, max);
  }
}
