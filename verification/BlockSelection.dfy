/**
 The swarm rebalancer (src/drift/server/block_selection.py) in exact arithmetic.

 A server serves a window of consecutive blocks.  The rebalancing loop repeatedly takes a server out of
 the throughput array, finds the weakest window of its length and moves the server there.  The value
 level of this module describes one such move and proves that it strictly raises the sorted throughput
 vector, which is why the loop stops.
 */
module BlockSelection {
  import opened FiniteSets
  import opened LexOrder

  const EPS: real := 0.001

  datatype ServerSpan = ServerSpan(start: nat, end: nat, throughput: real)
  {
    function Length(): int { end - start }

    function MovedTo(newStart: nat): ServerSpan
      requires start <= end
    {
      ServerSpan(newStart, newStart + Length(), throughput)
    }

    predicate Fits(total: nat)
    {
      start < end <= total && throughput >= 0.0
    }
  }

  type Swarm = seq<ServerSpan>

  predicate Valid(swarm: Swarm, total: nat)
  {
    forall i | 0 <= i < |swarm| :: swarm[i].Fits(total)
  }

  /** The extra share of its throughput that a server is charged when it is taken out. */
  function Excess(w: real): (e: real)
    ensures w > 0.0 ==> e > 0.0
    ensures w == 0.0 ==> e == 0.0
  {
    w / 1000.0
  }

  /** Charging `w + Excess(w)` is multiplying by 1 + EPS. */
  lemma ExcessIsEps(w: real)
    ensures w + Excess(w) == w * (1.0 + EPS) && Excess(w) == w * EPS
  {
  }

  // ----- arrays of throughputs -----

  /** `t[lo:hi] += d` */
  function AddTo(t: seq<real>, lo: nat, hi: nat, d: real): (r: seq<real>)
    ensures |r| == |t|
    ensures forall i | 0 <= i < |t| :: r[i] == if lo <= i < hi then t[i] + d else t[i]
  {
    seq(|t|, i requires 0 <= i < |t| => if lo <= i < hi then t[i] + d else t[i])
  }

  function Contribution(s: ServerSpan, block: nat): real
  {
    if s.start <= block < s.end then s.throughput else 0.0
  }

  function LoadAt(swarm: Swarm, block: nat): real
  {
    if swarm == [] then 0.0 else LoadAt(swarm[..|swarm| - 1], block) + Contribution(swarm[|swarm| - 1], block)
  }

  /** Where no server is, there is no throughput; one server more adds its own to its blocks. */
  lemma {:induction false} LoadIsWhatServersHave(swarm: Swarm, s: ServerSpan, block: nat)
    ensures (forall i | 0 <= i < |swarm| :: !(swarm[i].start <= block < swarm[i].end)) ==> LoadAt(swarm, block) == 0.0
    ensures LoadAt(swarm + [s], block)
         == LoadAt(swarm, block) + if s.start <= block < s.end then s.throughput else 0.0
  {
    assert (swarm + [s])[..|swarm|] == swarm;
    if swarm != [] {
      LoadIsWhatServersHave(swarm[..|swarm| - 1], s, block);
      assert forall i | 0 <= i < |swarm| - 1 :: swarm[..|swarm| - 1][i] == swarm[i];
    }
  }

  /** What `compute_throughputs` returns: for every block, the throughputs of the servers holding it. */
  function Load(swarm: Swarm, total: nat): (t: seq<real>)
    ensures |t| == total
  {
    seq(total, i requires 0 <= i < total => LoadAt(swarm, i))
  }

  /** The sorted throughput vector, the potential of the rebalancing loop. */
  function Potential(swarm: Swarm, total: nat): seq<real>
  {
    Sorted(Load(swarm, total))
  }

  // ----- the best start -----

  function Window(t: seq<real>, numBlocks: nat, start: nat): (w: seq<real>)
    requires start + numBlocks <= |t|
    ensures |w| == numBlocks
  {
    Sorted(t[start..start + numBlocks])
  }

  /** `start` is the first among the windows that no other window is lexicographically below. */
  ghost predicate IsBestStart(t: seq<real>, numBlocks: nat, start: nat, options: nat)
    requires options + numBlocks <= |t| + 1
  {
    && start < options
    && (forall j: nat | j < options :: !LexLess(Window(t, numBlocks, j), Window(t, numBlocks, start)))
    && (forall j: nat | j < start :: LexLess(Window(t, numBlocks, start), Window(t, numBlocks, j)))
  }

  function BestStartUpTo(t: seq<real>, numBlocks: nat, options: nat): (start: nat)
    requires 0 < options && options + numBlocks <= |t| + 1
    ensures start < options
  {
    if options == 1 then 0
    else
      var i, last := BestStartUpTo(t, numBlocks, options - 1), options - 1;
      if LexLess(Window(t, numBlocks, last), Window(t, numBlocks, i)) then last else i
  }

  lemma {:induction false} BestStartUpToIsBest(t: seq<real>, numBlocks: nat, options: nat)
    requires 0 < options && options + numBlocks <= |t| + 1
    ensures IsBestStart(t, numBlocks, BestStartUpTo(t, numBlocks, options), options)
  {
    if options == 1 {
      LexLessIrreflexive(Window(t, numBlocks, 0));
    } else {
      BestStartUpToIsBest(t, numBlocks, options - 1);
      BestStartExtends(t, numBlocks, options - 1, BestStartUpTo(t, numBlocks, options - 1));
    }
  }

  lemma BestStartExtends(t: seq<real>, numBlocks: nat, options: nat, i: nat)
    requires options + numBlocks <= |t| && IsBestStart(t, numBlocks, i, options)
    ensures var wi, wl := Window(t, numBlocks, i), Window(t, numBlocks, options);
            if LexLess(wl, wi) then IsBestStart(t, numBlocks, options, options + 1)
            else IsBestStart(t, numBlocks, i, options + 1)
  {
    var wi, wl := Window(t, numBlocks, i), Window(t, numBlocks, options);
    LexLessIrreflexive(wl);
    if LexLess(wl, wi) {
      forall j: nat | j < options ensures LexLess(wl, Window(t, numBlocks, j))
          && !LexLess(Window(t, numBlocks, j), wl) {
        var wj := Window(t, numBlocks, j);
        LexTotal(wi, wj);
        if LexLess(wi, wj) { LexLessTransitive(wl, wi, wj); }
        if LexLess(wj, wl) { LexLessTransitive(wl, wj, wl); }
      }
    }
  }

  /** `_choose_best_start`: the minimum over (sorted window, start) pairs. */
  function ChooseBestStart(t: seq<real>, numBlocks: nat): (start: nat)
    requires numBlocks <= |t|
    ensures start + numBlocks <= |t|
  {
    BestStartUpTo(t, numBlocks, |t| - numBlocks + 1)
  }

  // ----- one move -----

  /** A server is taken out of the throughput array with a factor 1 + EPS. */
  function TakenOut(t: seq<real>, s: ServerSpan): (r: seq<real>)
    ensures |r| == |t|
  {
    AddTo(t, s.start, s.end, -(s.throughput + Excess(s.throughput)))
  }

  /** The array in which the code looks for a new place. */
  function Without(swarm: Swarm, j: nat, total: nat): (t: seq<real>)
    requires j < |swarm|
    ensures |t| == total
  {
    TakenOut(Load(swarm, total), swarm[j])
  }

  function BestPlace(swarm: Swarm, j: nat, total: nat): (start: nat)
    requires j < |swarm| && swarm[j].Fits(total)
    ensures start + swarm[j].Length() <= total
  {
    ChooseBestStart(Without(swarm, j, total), swarm[j].Length())
  }

  predicate AtBestPlace(swarm: Swarm, j: nat, total: nat)
    requires j < |swarm| && swarm[j].Fits(total)
  {
    BestPlace(swarm, j, total) == swarm[j].start
  }

  function Move(swarm: Swarm, j: nat, total: nat): (r: Swarm)
    requires j < |swarm| && Valid(swarm, total)
    ensures |r| == |swarm| && Valid(r, total)
  {
    swarm[j := swarm[j].MovedTo(BestPlace(swarm, j, total))]
  }

  /** No server can find a better place. */
  predicate Balanced(swarm: Swarm, total: nat)
    requires Valid(swarm, total)
  {
    forall j | 0 <= j < |swarm| :: AtBestPlace(swarm, j, total)
  }

  // ----- counting values in throughput arrays -----

  /** How many of the blocks `lo..hi` have throughput `u`. */
  ghost function Count(t: seq<real>, lo: nat, hi: nat, u: real): nat
    requires lo <= hi <= |t|
  {
    if lo == hi then 0 else Count(t, lo, hi - 1, u) + if t[hi - 1] == u then 1 else 0
  }

  lemma {:induction false} CountIsMultiplicity(t: seq<real>, lo: nat, hi: nat, u: real)
    requires lo <= hi <= |t|
    ensures Count(t, lo, hi, u) == multiset(t[lo..hi])[u]
  {
    if lo < hi {
      CountIsMultiplicity(t, lo, hi - 1, u);
      assert t[lo..hi] == t[lo..hi - 1] + [t[hi - 1]];
    }
  }

  lemma {:induction false} CountSplits(t: seq<real>, lo: nat, mid: nat, hi: nat, u: real)
    requires lo <= mid <= hi <= |t|
    ensures Count(t, lo, hi, u) == Count(t, lo, mid, u) + Count(t, mid, hi, u)
  {
    if mid < hi { CountSplits(t, lo, mid, hi - 1, u); }
  }

  lemma {:induction false} CountOfShifted(t: seq<real>, r: seq<real>, lo: nat, hi: nat, d: real, u: real)
    requires lo <= hi <= |t| && |r| == |t|
    requires forall i | lo <= i < hi :: r[i] == t[i] + d
    ensures Count(r, lo, hi, u) == Count(t, lo, hi, u - d)
  {
    if lo < hi { CountOfShifted(t, r, lo, hi - 1, d, u); }
  }

  lemma {:induction false} SmallestValue(t: seq<real>, lo: nat, hi: nat) returns (m: real)
    requires lo < hi <= |t|
    ensures Count(t, lo, hi, m) > 0 && forall u | u < m :: Count(t, lo, hi, u) == 0
  {
    m := t[hi - 1];
    if lo + 1 < hi {
      var m' := SmallestValue(t, lo, hi - 1);
      m := if m' < m then m' else m;
    }
  }

  lemma AddToCounts(t: seq<real>, lo: nat, hi: nat, d: real, u: real)
    requires lo <= hi <= |t|
    ensures multiset(AddTo(t, lo, hi, d))[u] + Count(t, lo, hi, u) == Count(t, 0, |t|, u) + Count(t, lo, hi, u - d)
  {
    var r := AddTo(t, lo, hi, d);
    CountIsMultiplicity(r, 0, |r|, u);
    assert r[0..|r|] == r;
    CountSplits(r, 0, lo, |t|, u);
    CountSplits(r, lo, hi, |t|, u);
    CountSplits(t, 0, lo, |t|, u);
    CountSplits(t, lo, hi, |t|, u);
    CountOfShifted(t, r, 0, lo, 0.0, u);
    CountOfShifted(t, r, lo, hi, d, u);
    CountOfShifted(t, r, hi, |t|, 0.0, u);
  }

  type Range = r: (nat, nat) | r.0 <= r.1 witness (0, 0)

  ghost function CountIn(t: seq<real>, r: Range, u: real): nat
    requires r.1 <= |t|
  {
    Count(t, r.0, r.1, u)
  }

  /** The blocks only the first of two windows has, those both have, and those only the second has. */
  function Parts(a: nat, b: nat, length: nat): (p: (Range, Range, Range))
  {
    if a + length <= b || b + length <= a then ((a, a + length), (a, a), (b, b + length))
    else if a < b then ((a, b), (b, a + length), (a + length, b + length))
    else ((b + length, a + length), (a, b + length), (b, a))
  }

  ghost function WindowCount(t: seq<real>, start: nat, length: nat, u: real): nat
    requires start + length <= |t|
  {
    Count(t, start, start + length, u)
  }

  lemma CountsOfParts(t: seq<real>, a: nat, b: nat, length: nat, u: real)
    requires a + length <= |t| && b + length <= |t|
    ensures var (left, kept, entered) := Parts(a, b, length);
            && WindowCount(t, a, length, u) == CountIn(t, left, u) + CountIn(t, kept, u)
            && WindowCount(t, b, length, u) == CountIn(t, entered, u) + CountIn(t, kept, u)
  {
    if a + length <= b || b + length <= a {
    } else if a < b {
      CountSplits(t, a, b, a + length, u);
      CountSplits(t, b, a + length, b + length, u);
    } else {
      CountSplits(t, a, b + length, a + length, u);
      CountSplits(t, b, a, b + length, u);
    }
  }

  /** `t` is `base` lowered by `d` in the old window `a..a + length`. */
  lemma LoweredParts(base: seq<real>, t: seq<real>, a: nat, b: nat, length: nat, d: real, u: real)
    requires a + length <= |base| == |t| && b + length <= |base| && t == AddTo(base, a, a + length, -d)
    ensures var (left, kept, entered) := Parts(a, b, length);
            && CountIn(t, left, u) == CountIn(base, left, u + d)
            && CountIn(t, kept, u) == CountIn(base, kept, u + d)
            && CountIn(t, entered, u) == CountIn(base, entered, u)
  {
    var (left, kept, entered) := Parts(a, b, length);
    CountOfShifted(base, t, left.0, left.1, -d, u);
    CountOfShifted(base, t, kept.0, kept.1, -d, u);
    CountOfShifted(base, t, entered.0, entered.1, 0.0, u);
  }

  lemma CountsOfExchange(base: seq<real>, t: seq<real>, a: nat, b: nat, length: nat, d: real, u: real)
    requires a + length <= |base| == |t| && b + length <= |base| && t == AddTo(base, a, a + length, -d)
    ensures var (left, kept, entered) := Parts(a, b, length);
            && WindowCount(base, a, length, u) == CountIn(base, left, u) + CountIn(base, kept, u)
            && WindowCount(base, b, length, u) == CountIn(base, entered, u) + CountIn(base, kept, u)
            && WindowCount(t, a, length, u) == CountIn(base, left, u + d) + CountIn(base, kept, u + d)
            && WindowCount(t, b, length, u) == CountIn(base, entered, u) + CountIn(base, kept, u + d)
  {
    CountsOfParts(base, a, b, length, u);
    CountsOfParts(t, a, b, length, u);
    LoweredParts(base, t, a, b, length, d, u);
  }

  lemma WindowMultiplicity(t: seq<real>, start: nat, length: nat, u: real)
    requires start + length <= |t|
    ensures multiset(Window(t, length, start))[u] == WindowCount(t, start, length, u)
  {
    SortedSorts(t[start..start + length]);
    CountIsMultiplicity(t, start, start + length, u);
  }

  ghost predicate WindowsDifferFirstAt(t: seq<real>, x: nat, y: nat, length: nat, v: real)
    requires x + length <= |t| && y + length <= |t|
  {
    && WindowCount(t, x, length, v) > WindowCount(t, y, length, v)
    && forall u | u < v :: WindowCount(t, x, length, u) == WindowCount(t, y, length, u)
  }

  /** A window that is not below another one either comes after it or has the same values. */
  lemma NotBelow(t: seq<real>, x: nat, y: nat, length: nat) returns (differ: bool, v: real)
    requires x + length <= |t| && y + length <= |t|
    requires !LexLess(Window(t, length, x), Window(t, length, y))
    ensures if differ then WindowsDifferFirstAt(t, y, x, length, v)
            else forall u :: WindowCount(t, x, length, u) == WindowCount(t, y, length, u)
  {
    var wx, wy := Window(t, length, x), Window(t, length, y);
    LexTotal(wx, wy);
    forall u { WindowMultiplicity(t, x, length, u); }
    forall u { WindowMultiplicity(t, y, length, u); }
    differ := LexLess(wy, wx);
    if differ {
      SortedSorts(t[x..x + length]);
      SortedSorts(t[y..y + length]);
      LexLessIffCountLess(wy, wx);
      v :| DiffersFirstAt(multiset(wy), multiset(wx), v);
    } else {
      v := 0.0;
    }
  }

  /**
   The role of EPS.  In the array the code searches, everything the server held is lower by `d`.  If its old
   window is not strictly below the new one there, then without the server the new window is strictly weaker.
   */
  lemma ChosenWindowIsWeaker(base: seq<real>, a: nat, b: nat, length: nat, d: real) returns (v: real)
    requires a != b && length > 0 && a + length <= |base| && b + length <= |base| && d > 0.0
    requires var t := AddTo(base, a, a + length, -d);
             !LexLess(Window(t, length, a), Window(t, length, b))
    ensures WindowsDifferFirstAt(base, b, a, length, v)
  {
    var t := AddTo(base, a, a + length, -d);
    var (left, kept, entered) := Parts(a, b, length);
    var m := SmallestValue(base, left.0, left.1);
    var differ, w := NotBelow(t, a, b, length);
    v := if differ && w <= m - d then w else m - d;
    forall u | u <= v
      ensures if u == v then WindowCount(base, b, length, u) > WindowCount(base, a, length, u)
              else WindowCount(base, b, length, u) == WindowCount(base, a, length, u)
    {
      assert Count(base, left.0, left.1, u) == 0;
      CompareAt(base, t, a, b, length, d, u, m);
    }
  }

  lemma CompareAt(base: seq<real>, t: seq<real>, a: nat, b: nat, length: nat, d: real, u: real, m: real)
    requires a + length <= |base| == |t| && b + length <= |base| && t == AddTo(base, a, a + length, -d)
    requires var (left, kept, entered) := Parts(a, b, length);
             CountIn(base, left, u) == 0 && (CountIn(base, left, u + d) > 0 <==> u == m - d)
    ensures WindowCount(t, b, length, u) > WindowCount(t, a, length, u)
            ==> WindowCount(base, b, length, u) > WindowCount(base, a, length, u)
    ensures WindowCount(t, b, length, u) == WindowCount(t, a, length, u)
            ==> if u == m - d then WindowCount(base, b, length, u) > WindowCount(base, a, length, u)
                else WindowCount(base, b, length, u) == WindowCount(base, a, length, u)
  {
    CountsOfExchange(base, t, a, b, length, d, u);
  }

  lemma CountsAfterStrengthening(base: seq<real>, a: nat, b: nat, length: nat, w: real, u: real)
    requires a + length <= |base| && b + length <= |base|
    ensures multiset(AddTo(base, a, a + length, w))[u] + WindowCount(base, a, length, u)
            + WindowCount(base, b, length, u - w)
         == multiset(AddTo(base, b, b + length, w))[u] + WindowCount(base, b, length, u)
            + WindowCount(base, a, length, u - w)
  {
    AddToCounts(base, a, a + length, w, u);
    AddToCounts(base, b, b + length, w, u);
  }

  /** Adding a server's throughput to the weaker of two windows gives the larger throughput vector. */
  lemma StrengtheningTheWeakerWindow(base: seq<real>, a: nat, b: nat, length: nat, w: real, v: real)
    requires a + length <= |base| && b + length <= |base| && w > 0.0
    requires WindowsDifferFirstAt(base, b, a, length, v)
    ensures LexLess(Sorted(AddTo(base, a, a + length, w)), Sorted(AddTo(base, b, b + length, w)))
  {
    var ta, tb := AddTo(base, a, a + length, w), AddTo(base, b, b + length, w);
    forall u | u <= v
      ensures if u == v then multiset(ta)[u] > multiset(tb)[u] else multiset(ta)[u] == multiset(tb)[u]
    {
      CountsAfterStrengthening(base, a, b, length, w, u);
    }
    assert DiffersFirstAt(multiset(ta), multiset(tb), v);
    SortedSorts(ta);
    SortedSorts(tb);
    LexLessIffCountLess(Sorted(ta), Sorted(tb));
  }

  lemma {:induction false} LoadOfUpdate(swarm: Swarm, j: nat, s: ServerSpan, block: nat)
    requires j < |swarm|
    ensures LoadAt(swarm[j := s], block)
         == LoadAt(swarm, block) - Contribution(swarm[j], block) + Contribution(s, block)
  {
    var n := |swarm| - 1;
    if j == n {
      assert swarm[j := s][..n] == swarm[..n];
    } else {
      assert swarm[j := s][..n] == swarm[..n][j := s];
      LoadOfUpdate(swarm[..n], j, s, block);
    }
  }

  /** Incremental bookkeeping: after the three in-place additions the array is again the load of the swarm. */
  lemma LoadAfterPlacing(swarm: Swarm, j: nat, newStart: nat, total: nat)
    requires j < |swarm| && swarm[j].Fits(total) && newStart + swarm[j].Length() <= total
    ensures var s := swarm[j];
            var s' := s.MovedTo(newStart);
            AddTo(AddTo(Without(swarm, j, total), s.start, s.end, Excess(s.throughput)), s'.start, s'.end, s.throughput)
            == Load(swarm[j := s'], total)
  {
    var s := swarm[j];
    var s' := s.MovedTo(newStart);
    forall i: nat | i < total
      ensures LoadAt(swarm[j := s'], i) == LoadAt(swarm, i) - Contribution(s, i) + Contribution(s', i)
    {
      LoadOfUpdate(swarm, j, s', i);
    }
  }

  lemma BestPlaceIsNotAbove(swarm: Swarm, j: nat, total: nat)
    requires j < |swarm| && swarm[j].Fits(total)
    ensures var t, length := Without(swarm, j, total), swarm[j].Length();
            !LexLess(Window(t, length, swarm[j].start), Window(t, length, BestPlace(swarm, j, total)))
  {
    BestStartUpToIsBest(Without(swarm, j, total), swarm[j].Length(), total - swarm[j].Length() + 1);
  }

  /** Every move of a server with positive throughput strictly raises the sorted throughput vector. */
  lemma MoveRaisesPotential(swarm: Swarm, j: nat, total: nat)
    requires Valid(swarm, total) && j < |swarm| && swarm[j].throughput > 0.0 && !AtBestPlace(swarm, j, total)
    ensures LexLess(Potential(swarm, total), Potential(Move(swarm, j, total), total))
  {
    BestPlaceIsNotAbove(swarm, j, total);
    var b := BestPlace(swarm, j, total);
    ReplacingRaisesLoad(Load(swarm, total), swarm[j].start, b, swarm[j].Length(), swarm[j].throughput);
    LoadOfMove(swarm, j, b, total);
  }

  lemma ReplacingRaisesLoad(t: seq<real>, a: nat, b: nat, length: nat, w: real)
    requires a != b && length > 0 && a + length <= |t| && b + length <= |t| && w > 0.0
    requires var t' := AddTo(t, a, a + length, -(w + Excess(w)));
             !LexLess(Window(t', length, a), Window(t', length, b))
    ensures LexLess(Sorted(t), Sorted(AddTo(AddTo(t, a, a + length, -w), b, b + length, w)))
  {
    var base := AddTo(t, a, a + length, -w);
    TakingOutTwice(t, a, a + length, w);
    var v := ChosenWindowIsWeaker(base, a, b, length, Excess(w));
    StrengtheningTheWeakerWindow(base, a, b, length, w, v);
  }

  lemma TakingOutTwice(t: seq<real>, lo: nat, hi: nat, w: real)
    ensures AddTo(t, lo, hi, -(w + Excess(w))) == AddTo(AddTo(t, lo, hi, -w), lo, hi, -Excess(w))
    ensures AddTo(AddTo(t, lo, hi, -w), lo, hi, w) == t
  {
  }

  lemma LoadOfMove(swarm: Swarm, j: nat, newStart: nat, total: nat)
    requires j < |swarm| && swarm[j].Fits(total) && newStart + swarm[j].Length() <= total
    ensures var s := swarm[j];
            AddTo(AddTo(Load(swarm, total), s.start, s.end, -s.throughput), newStart, newStart + s.Length(),
                  s.throughput)
            == Load(swarm[j := s.MovedTo(newStart)], total)
  {
    forall i: nat | i < total { LoadOfUpdate(swarm, j, swarm[j].MovedTo(newStart), i); }
  }

  /** Moving a server with zero throughput changes no throughput. */
  lemma IdleMoveKeepsLoad(swarm: Swarm, j: nat, total: nat)
    requires Valid(swarm, total) && j < |swarm| && swarm[j].throughput == 0.0
    ensures Load(Move(swarm, j, total), total) == Load(swarm, total) == Without(swarm, j, total)
  {
    LoadAfterPlacing(swarm, j, BestPlace(swarm, j, total), total);
  }

  // ----- the weakest block -----

  /** `throughputs.min()` */
  function MinOf(t: seq<real>): real
    requires t != []
  {
    if |t| == 1 then t[0] else
      var m := MinOf(t[1..]);
      if t[0] < m then t[0] else m
  }

  lemma {:induction false} MinIsSmallest(t: seq<real>)
    requires t != []
    ensures MinOf(t) in t && forall x | x in t :: MinOf(t) <= x
  {
    if |t| > 1 {
      MinIsSmallest(t[1..]);
      assert t == [t[0]] + t[1..];
    }
  }

  lemma MinIsHeadOfSorted(t: seq<real>)
    requires t != []
    ensures MinOf(t) == Sorted(t)[0]
  {
    var r := Sorted(t);
    SortedSorts(t);
    MinIsSmallest(t);
    assert r[0] in multiset(r);
    assert MinOf(t) in multiset(r);
  }

  /** A move never lowers the throughput of the weakest block. */
  lemma MoveKeepsMinimum(swarm: Swarm, j: nat, total: nat)
    requires Valid(swarm, total) && j < |swarm| && total > 0
    ensures MinOf(Load(swarm, total)) <= MinOf(Load(Move(swarm, j, total), total))
  {
    var swarm' := Move(swarm, j, total);
    MinIsHeadOfSorted(Load(swarm, total));
    MinIsHeadOfSorted(Load(swarm', total));
    if AtBestPlace(swarm, j, total) {
      assert swarm' == swarm;
    } else if swarm[j].throughput == 0.0 {
      IdleMoveKeepsLoad(swarm, j, total);
    } else {
      MoveRaisesPotential(swarm, j, total);
    }
  }

  // ----- termination -----

  /** All ways of giving `n` servers a start in `0..total`. */
  ghost function Placements(n: nat, total: nat): set<seq<nat>>
  {
    if n == 0 then {[]}
    else set p, start: nat | p in Placements(n - 1, total) && start <= total :: p + [start]
  }

  lemma {:induction false} PlacementsComplete(p: seq<nat>, total: nat)
    requires forall i | 0 <= i < |p| :: p[i] <= total
    ensures p in Placements(|p|, total)
  {
    if p != [] {
      var n := |p| - 1;
      PlacementsComplete(p[..n], total);
      assert p == p[..n] + [p[n]];
    }
  }

  ghost function Starts(swarm: Swarm): (p: seq<nat>)
    ensures |p| == |swarm|
  {
    seq(|swarm|, i requires 0 <= i < |swarm| => swarm[i].start)
  }

  ghost function Place(swarm: Swarm, p: seq<nat>): (r: Swarm)
    requires |p| == |swarm| && forall i | 0 <= i < |swarm| :: swarm[i].start <= swarm[i].end
    ensures |r| == |swarm|
  {
    seq(|swarm|, i requires 0 <= i < |swarm| => swarm[i].MovedTo(p[i]))
  }

  /** The placements whose sorted throughput vector is above the current one. */
  ghost function Above(swarm: Swarm, total: nat): set<seq<nat>>
    requires Valid(swarm, total)
  {
    set p | p in Placements(|swarm|, total) && |p| == |swarm|
            && LexLess(Potential(swarm, total), Potential(Place(swarm, p), total))
  }

  ghost function IdleAndMisplaced(swarm: Swarm, total: nat): set<nat>
    requires Valid(swarm, total)
  {
    set j | j in Below(|swarm|) && swarm[j].throughput == 0.0 && !AtBestPlace(swarm, j, total)
  }

  /** `high * base + low` */
  ghost function TwoDigits(high: nat, base: nat, low: nat): nat
  {
    if high == 0 then low else base + TwoDigits(high - 1, base, low)
  }

  /**
   The measure of the rebalancing loop.  Moves of working servers raise the potential; moves of servers with
   zero throughput keep it and bring one more of them to its best place.
   */
  ghost function Rank(swarm: Swarm, total: nat): nat
    requires Valid(swarm, total)
  {
    RankOf(Above(swarm, total), IdleAndMisplaced(swarm, total), |swarm|)
  }

  ghost function RankOf(above: set<seq<nat>>, idle: set<nat>, servers: nat): nat
  {
    TwoDigits(|above|, servers + 1, |idle|)
  }

  ghost predicate MeasureBelow(above': set<seq<nat>>, idle': set<nat>, above: set<seq<nat>>, idle: set<nat>,
                               servers: nat)
  {
    (|above'| < |above| && |idle'| <= servers) || (|above'| == |above| && |idle'| < |idle|)
  }

  lemma IdleIsBounded(swarm: Swarm, total: nat)
    requires Valid(swarm, total)
    ensures |IdleAndMisplaced(swarm, total)| <= |swarm|
  {
    SubsetSize(IdleAndMisplaced(swarm, total), Below(|swarm|));
  }

  lemma PlacingAfterMove(swarm: Swarm, j: nat, total: nat, p: seq<nat>)
    requires Valid(swarm, total) && j < |swarm| && |p| == |swarm|
    ensures Place(Move(swarm, j, total), p) == Place(swarm, p)
  {
  }

  lemma PlacedByMove(swarm: Swarm, j: nat, total: nat) returns (p: seq<nat>)
    requires Valid(swarm, total) && j < |swarm|
    ensures |p| == |swarm| && p in Placements(|swarm|, total) && Place(swarm, p) == Move(swarm, j, total)
  {
    p := Starts(Move(swarm, j, total));
    PlacementsComplete(p, total);
  }

  lemma MoveShrinksAbove(swarm: Swarm, j: nat, total: nat)
    requires Valid(swarm, total) && j < |swarm| && swarm[j].throughput > 0.0 && !AtBestPlace(swarm, j, total)
    ensures |Above(Move(swarm, j, total), total)| < |Above(swarm, total)|
  {
    var swarm' := Move(swarm, j, total);
    var p := PlacedByMove(swarm, j, total);
    MoveRaisesPotential(swarm, j, total);
    PlacingAfterMove(swarm, j, total, p);
    LexLessIrreflexive(Potential(swarm', total));
    assert p in Above(swarm, total) && p !in Above(swarm', total);
    forall q | q in Above(swarm', total) ensures q in Above(swarm, total) {
      PlacingAfterMove(swarm, j, total, q);
      LexLessTransitive(Potential(swarm, total), Potential(swarm', total), Potential(Place(swarm, q), total));
    }
    SubsetSize(Above(swarm', total), Above(swarm, total));
  }

  lemma IdleMoveKeepsAbove(swarm: Swarm, j: nat, total: nat)
    requires Valid(swarm, total) && j < |swarm| && swarm[j].throughput == 0.0
    ensures Above(Move(swarm, j, total), total) == Above(swarm, total)
  {
    IdleMoveKeepsLoad(swarm, j, total);
    forall q | q in Placements(|swarm|, total) && |q| == |swarm| {
      PlacingAfterMove(swarm, j, total, q);
    }
  }

  lemma IdleMoveKeepsBestPlaces(swarm: Swarm, j: nat, total: nat, i: nat)
    requires Valid(swarm, total) && j < |swarm| && i < |swarm|
    requires swarm[j].throughput == 0.0 && swarm[i].throughput == 0.0
    ensures BestPlace(Move(swarm, j, total), i, total) == BestPlace(swarm, i, total)
  {
    IdleMoveKeepsLoad(swarm, j, total);
    IdleIsTakenOutForFree(swarm, i, total);
    IdleIsTakenOutForFree(Move(swarm, j, total), i, total);
  }

  lemma IdleIsTakenOutForFree(swarm: Swarm, i: nat, total: nat)
    requires i < |swarm| && swarm[i].throughput == 0.0
    ensures Without(swarm, i, total) == Load(swarm, total)
  {
  }

  lemma IdleMoveSettlesOne(swarm: Swarm, j: nat, total: nat)
    requires Valid(swarm, total) && j < |swarm| && swarm[j].throughput == 0.0 && !AtBestPlace(swarm, j, total)
    ensures |Above(Move(swarm, j, total), total)| == |Above(swarm, total)|
    ensures |IdleAndMisplaced(Move(swarm, j, total), total)| < |IdleAndMisplaced(swarm, total)|
  {
    var swarm' := Move(swarm, j, total);
    IdleMoveKeepsAbove(swarm, j, total);
    forall i | i in Below(|swarm|) && swarm[i].throughput == 0.0 {
      IdleMoveKeepsBestPlaces(swarm, j, total, i);
    }
    var before, after := IdleAndMisplaced(swarm, total), IdleAndMisplaced(swarm', total);
    assert j in before && j !in after;
    assert after <= before;
    SubsetSize(after, before);
  }

  lemma {:induction false} DigitsCompare(high: nat, low: nat, high': nat, low': nat, base: nat)
    requires (high < high' && low < base) || (high == high' && low < low')
    ensures TwoDigits(high, base, low) < TwoDigits(high', base, low')
  {
    if high > 0 {
      DigitsCompare(high - 1, low, high' - 1, low', base);
    } else if high' > 1 {
      DigitsCompare(0, low, high' - 1, low', base);
    }
  }

  lemma LowerMeasureLowerRank(above': set<seq<nat>>, idle': set<nat>, above: set<seq<nat>>, idle: set<nat>,
                              servers: nat)
    requires MeasureBelow(above', idle', above, idle, servers)
    ensures RankOf(above', idle', servers) < RankOf(above, idle, servers)
  {
    DigitsCompare(|above'|, |idle'|, |above|, |idle|, servers + 1);
  }

  lemma MoveLowersMeasure(swarm: Swarm, j: nat, total: nat)
    requires Valid(swarm, total) && j < |swarm| && !AtBestPlace(swarm, j, total)
    ensures var swarm' := Move(swarm, j, total);
            MeasureBelow(Above(swarm', total), IdleAndMisplaced(swarm', total), Above(swarm, total),
                         IdleAndMisplaced(swarm, total), |swarm|)
  {
    if swarm[j].throughput == 0.0 {
      IdleMoveSettlesOne(swarm, j, total);
    } else {
      MoveShrinksAbove(swarm, j, total);
      IdleIsBounded(Move(swarm, j, total), total);
    }
  }

  lemma MoveLowersRank(swarm: Swarm, j: nat, total: nat)
    requires Valid(swarm, total) && j < |swarm| && !AtBestPlace(swarm, j, total)
    ensures Rank(Move(swarm, j, total), total) < Rank(swarm, total)
  {
    var swarm' := Move(swarm, j, total);
    MoveLowersMeasure(swarm, j, total);
    LowerMeasureLowerRank(Above(swarm', total), IdleAndMisplaced(swarm', total), Above(swarm, total),
                          IdleAndMisplaced(swarm, total), |swarm|);
  }

  /** Where a swarm ends up when the servers in `moves` go to their best places one after another. */
  ghost function Arrive(swarm: Swarm, moves: seq<nat>, total: nat): (r: Swarm)
    requires Valid(swarm, total)
    ensures Valid(r, total) && |r| == |swarm|
  {
    if moves == [] then swarm
    else
      var n := |moves| - 1;
      var before := Arrive(swarm, moves[..n], total);
      if moves[n] < |swarm| then Move(before, moves[n], total) else before
  }

  /** Each of the `moves` is made by a server that is not at its best place at that moment. */
  ghost predicate Legal(swarm: Swarm, moves: seq<nat>, total: nat)
    requires Valid(swarm, total)
  {
    moves == [] ||
    var n := |moves| - 1;
    Legal(swarm, moves[..n], total) && Misplaced(Arrive(swarm, moves[..n], total), moves[n], total)
  }

  ghost predicate Misplaced(swarm: Swarm, j: nat, total: nat)
    requires Valid(swarm, total)
  {
    j < |swarm| && !AtBestPlace(swarm, j, total)
  }

  lemma LegalMoveStep(swarm: Swarm, j: nat, total: nat)
    requires Valid(swarm, total) && Misplaced(swarm, j, total)
    ensures Rank(Move(swarm, j, total), total) < Rank(swarm, total)
    ensures total > 0 ==> MinOf(Load(swarm, total)) <= MinOf(Load(Move(swarm, j, total), total))
  {
    MoveLowersRank(swarm, j, total);
    if total > 0 { MoveKeepsMinimum(swarm, j, total); }
  }

  /**
   However the servers are shuffled, the rank of the swarm bounds the number of moves, and the weakest block
   never gets weaker.
   */
  lemma {:induction false} RunsAreBounded(swarm: Swarm, moves: seq<nat>, total: nat)
    requires Valid(swarm, total) && Legal(swarm, moves, total)
    ensures Rank(Arrive(swarm, moves, total), total) + |moves| <= Rank(swarm, total)
    ensures total > 0 ==> MinOf(Load(swarm, total)) <= MinOf(Load(Arrive(swarm, moves, total), total))
  {
    if moves != [] {
      var n := |moves| - 1;
      RunsAreBounded(swarm, moves[..n], total);
      LegalMoveStep(Arrive(swarm, moves[..n], total), moves[n], total);
    }
  }

  lemma {:induction false} RankFallsBetween(swarm: Swarm, moves: seq<nat>, i: nat, total: nat)
    requires Valid(swarm, total) && Legal(swarm, moves, total) && i <= |moves|
    ensures Rank(Arrive(swarm, moves, total), total) + (|moves| - i) <= Rank(Arrive(swarm, moves[..i], total), total)
  {
    var n := |moves| - 1;
    if i == |moves| {
      assert moves[..i] == moves;
    } else {
      assert moves[..n][..i] == moves[..i];
      RankFallsBetween(swarm, moves[..n], i, total);
      LegalMoveStep(Arrive(swarm, moves[..n], total), moves[n], total);
    }
  }

  /** No arrangement of the servers ever comes back. */
  lemma NoArrangementComesBack(swarm: Swarm, moves: seq<nat>, i: nat, total: nat)
    requires Valid(swarm, total) && Legal(swarm, moves, total) && i < |moves|
    ensures Arrive(swarm, moves[..i], total) != Arrive(swarm, moves, total)
  {
    RankFallsBetween(swarm, moves, i, total);
  }
}
