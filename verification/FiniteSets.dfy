/** Finite sets: their sizes, the first numbers, the least element, and all elements in rising order. */
module FiniteSets {

  ghost function Below(n: nat): (s: set<nat>)
    ensures |s| == n && forall j: nat :: j in s <==> j < n
  {
    if n == 0 then {} else Below(n - 1) + {n - 1}
  }

  lemma SubsetSize<T>(a: set<T>, b: set<T>)
    requires a <= b
    ensures |a| <= |b|
    ensures |a| == |b| <==> a == b
  {
    assert b == a + (b - a);
    if a != b {
      var x :| x in b - a;
    }
  }

  ghost predicate IsLeast(m: nat, s: set<nat>)
  {
    m in s && forall x | x in s :: m <= x
  }

  lemma {:induction false} HasLeast(s: set<nat>) returns (m: nat)
    requires s != {}
    ensures IsLeast(m, s)
  {
    var y :| y in s;
    var rest := s - {y};
    assert forall x | x in s :: x == y || x in rest;
    if rest == {} {
      m := y;
    } else {
      m := HasLeast(rest);
      if y < m { m := y; }
    }
  }

  function Least(s: set<nat>): (m: nat)
    requires s != {}
    ensures m in s && forall x | x in s :: m <= x
  {
    assert exists m :: m in s && forall x | x in s :: m <= x by { var m := HasLeast(s); assert m in s; }
    var m :| m in s && forall x | x in s :: m <= x;
    m
  }

  function InOrder(s: set<nat>): (names: seq<nat>)
  {
    if s == {} then [] else [Least(s)] + InOrder(s - {Least(s)})
  }

  lemma {:induction false} InOrderHasAll(s: set<nat>)
    ensures forall x :: x in InOrder(s) <==> x in s
    ensures forall i, j | 0 <= i < j < |InOrder(s)| :: InOrder(s)[i] < InOrder(s)[j]
  {
    if s != {} {
      InOrderHasAll(s - {Least(s)});
      forall i | 0 <= i < |InOrder(s - {Least(s)})| ensures Least(s) < InOrder(s - {Least(s)})[i] {
        assert InOrder(s - {Least(s)})[i] in InOrder(s - {Least(s)});
      }
    }
  }
}
