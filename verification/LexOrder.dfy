/**
 Python orders two lists of numbers lexicographically.  On sorted lists of equal length that order
 depends only on how often each value occurs: the list that has more copies of the smallest value on
 which the counts differ is the smaller one.  This module defines both forms and proves them equal.
 */
module LexOrder {

  /** `s < t` for two Python lists. */
  predicate LexLess(s: seq<real>, t: seq<real>)
  {
    if s == [] then t != []
    else if t == [] then false
    else s[0] < t[0] || (s[0] == t[0] && LexLess(s[1..], t[1..]))
  }

  predicate IsSorted(s: seq<real>)
  {
    forall i, j | 0 <= i < j < |s| :: s[i] <= s[j]
  }

  function Insert(x: real, s: seq<real>): (r: seq<real>)
    ensures |r| == |s| + 1
  {
    if s == [] then [x]
    else if x <= s[0] then [x] + s
    else [s[0]] + Insert(x, s[1..])
  }

  /** Python's `sorted`. */
  function Sorted(s: seq<real>): (r: seq<real>)
    ensures |r| == |s|
  {
    if s == [] then [] else Insert(s[0], Sorted(s[1..]))
  }

  lemma {:induction false} InsertCounts(x: real, s: seq<real>)
    ensures multiset(Insert(x, s)) == multiset(s) + multiset{x}
  {
    if s != [] {
      InsertCounts(x, s[1..]);
      assert s == [s[0]] + s[1..];
    }
  }

  lemma {:induction false} InsertMembers(x: real, s: seq<real>, y: real)
    requires y in Insert(x, s)
    ensures y == x || y in s
  {
    if s != [] && x > s[0] && y != s[0] {
      InsertMembers(x, s[1..], y);
    }
  }

  lemma PrependKeepsSorted(x: real, s: seq<real>)
    requires IsSorted(s) && forall y | y in s :: x <= y
    ensures IsSorted([x] + s)
  {
    assert forall j | 0 <= j < |s| :: s[j] in s;
  }

  lemma {:induction false} InsertKeepsSorted(x: real, s: seq<real>)
    requires IsSorted(s)
    ensures IsSorted(Insert(x, s))
  {
    if s != [] && x > s[0] {
      InsertKeepsSorted(x, s[1..]);
      forall y | y in Insert(x, s[1..]) ensures s[0] <= y {
        InsertMembers(x, s[1..], y);
      }
      PrependKeepsSorted(s[0], Insert(x, s[1..]));
    }
  }

  /** `Sorted` returns the same values in ascending order. */
  lemma {:induction false} SortedSorts(s: seq<real>)
    ensures IsSorted(Sorted(s)) && multiset(Sorted(s)) == multiset(s)
  {
    if s != [] {
      SortedSorts(s[1..]);
      InsertKeepsSorted(s[0], Sorted(s[1..]));
      InsertCounts(s[0], Sorted(s[1..]));
      assert s == [s[0]] + s[1..];
    }
  }

  /** The smallest value on which the multiplicities differ occurs more often in `x`. */
  ghost predicate CountLess(x: multiset<real>, y: multiset<real>)
  {
    exists v :: DiffersFirstAt(x, y, v)
  }

  ghost predicate DiffersFirstAt(x: multiset<real>, y: multiset<real>, v: real)
  {
    x[v] > y[v] && forall u | u < v :: x[u] == y[u]
  }

  lemma CountLessAsymmetric(x: multiset<real>, y: multiset<real>)
    requires CountLess(x, y)
    ensures !CountLess(y, x) && x != y
  {
    var v :| DiffersFirstAt(x, y, v);
    forall w ensures !DiffersFirstAt(y, x, w) {
      if w == v {} else if w < v { assert x[w] == y[w]; }
    }
  }

  lemma CountLessCancels(x: multiset<real>, y: multiset<real>, c: multiset<real>)
    ensures CountLess(x + c, y + c) <==> CountLess(x, y)
  {
    if CountLess(x, y) {
      var v :| DiffersFirstAt(x, y, v);
      assert DiffersFirstAt(x + c, y + c, v);
    }
    if CountLess(x + c, y + c) {
      var v :| DiffersFirstAt(x + c, y + c, v);
      forall u | u < v ensures x[u] == y[u] {
        assert (x + c)[u] == (y + c)[u];
      }
      assert DiffersFirstAt(x, y, v);
    }
  }

  lemma SortedHead(s: seq<real>, u: real)
    requires IsSorted(s) && s != [] && u < s[0]
    ensures multiset(s)[u] == 0
  {
    assert u !in s;
  }

  lemma SmallerHeadCounts(s: seq<real>, t: seq<real>)
    requires IsSorted(s) && IsSorted(t) && s != [] && t != [] && s[0] < t[0]
    ensures CountLess(multiset(s), multiset(t))
  {
    forall u | u <= s[0] ensures multiset(t)[u] == 0 { SortedHead(t, u); }
    forall u | u < s[0] ensures multiset(s)[u] == 0 { SortedHead(s, u); }
    assert DiffersFirstAt(multiset(s), multiset(t), s[0]);
  }

  lemma SameHeadCounts(s: seq<real>, t: seq<real>)
    requires s != [] && t != [] && s[0] == t[0]
    requires CountLess(multiset(s[1..]), multiset(t[1..]))
    ensures CountLess(multiset(s), multiset(t))
  {
    CountLessCancels(multiset(s[1..]), multiset(t[1..]), multiset{s[0]});
    assert s == [s[0]] + s[1..] && t == [s[0]] + t[1..];
    assert multiset(s) == multiset(s[1..]) + multiset{s[0]};
    assert multiset(t) == multiset(t[1..]) + multiset{s[0]};
  }

  lemma {:induction false} LexLessCounts(s: seq<real>, t: seq<real>)
    requires IsSorted(s) && IsSorted(t) && |s| == |t| && LexLess(s, t)
    ensures CountLess(multiset(s), multiset(t))
  {
    if s[0] < t[0] {
      SmallerHeadCounts(s, t);
    } else {
      LexLessCounts(s[1..], t[1..]);
      SameHeadCounts(s, t);
    }
  }

  lemma {:induction false} LexTotal(s: seq<real>, t: seq<real>)
    ensures LexLess(s, t) || LexLess(t, s) || s == t
  {
    if s != [] && t != [] {
      LexTotal(s[1..], t[1..]);
      assert s == [s[0]] + s[1..] && t == [t[0]] + t[1..];
    }
  }

  /** On sorted lists of one length, Python's list order is the order by counts. */
  lemma LexLessIffCountLess(s: seq<real>, t: seq<real>)
    requires IsSorted(s) && IsSorted(t) && |s| == |t|
    ensures LexLess(s, t) <==> CountLess(multiset(s), multiset(t))
  {
    if LexLess(s, t) {
      LexLessCounts(s, t);
    } else {
      LexTotal(s, t);
      if LexLess(t, s) {
        LexLessCounts(t, s);
        CountLessAsymmetric(multiset(t), multiset(s));
      }
    }
  }

  lemma {:induction false} LexLessTransitive(s: seq<real>, t: seq<real>, r: seq<real>)
    requires LexLess(s, t) && LexLess(t, r)
    ensures LexLess(s, r)
  {
    if s != [] && s[0] == t[0] && t[0] == r[0] {
      LexLessTransitive(s[1..], t[1..], r[1..]);
    }
  }

  lemma {:induction false} LexLessIrreflexive(s: seq<real>)
    ensures !LexLess(s, s)
  {
    if s != [] { LexLessIrreflexive(s[1..]); }
  }
}
