/** Multiples by repeated addition, which keeps products of variables out of the other proofs. */
module Multiples {

  function Times(i: nat, q: nat): nat
  {
    if i == 0 then 0 else q + Times(i - 1, q)
  }

  lemma {:induction false} TimesIsProduct(i: nat, q: nat)
    ensures Times(i, q) == i * q
  {
    if i > 0 {
      TimesIsProduct(i - 1, q);
      assert i * q == (i - 1) * q + q;
    }
  }

  lemma {:induction false} TimesAdd(a: nat, b: nat, q: nat)
    ensures Times(a + b, q) == Times(a, q) + Times(b, q)
  {
    if a > 0 { TimesAdd(a - 1, b, q); }
  }

  lemma {:induction false} TimesTwice(a: nat, b: nat, q: nat)
    ensures Times(Times(a, b), q) == Times(a, Times(b, q))
  {
    if a > 0 {
      TimesTwice(a - 1, b, q);
      TimesAdd(b, Times(a - 1, b), q);
    }
  }

  lemma TimesMonotone(a: nat, b: nat, q: nat)
    requires a <= b
    ensures Times(a, q) <= Times(b, q)
  {
    TimesAdd(a, b - a, q);
  }

  lemma TimesAfter(a: nat, b: nat, q: nat)
    requires a < b
    ensures Times(a, q) + q <= Times(b, q)
  {
    TimesAdd(a + 1, b - a - 1, q);
  }
}
