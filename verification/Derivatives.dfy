/**
 The gradients of a chain are derivatives: for every notion of derivative that obeys the chain rule, and for which the
 blocks' own gradients are right, so are those of the chain.

 `d(f, u)` says that `u(x, g)` is the gradient at the input `x` of `f` when `g` is the one at its output, and `e(f, u)`
 the same of functions of a prompt. Both are arbitrary.
 */
module Derivatives {
  import opened ChainRule
  import opened Wrappers

  /** `k` is `f` and then `h`, and `w` their gradients in reverse order. */
  ghost predicate Composed<A(!new), X(!new), Q(!new), G(!new)>(
    f: A -> X, u: (A, G) -> Q, h: X -> X, v: (X, G) -> G, k: A -> X, w: (A, G) -> Q)
  {
    && (forall a :: k(a) == h(f(a)))
    && forall a, g :: w(a, g) == u(a, v(f(a), g))
  }

  ghost predicate IsIdentity<X(!new), G(!new)>(f: X -> X, u: (X, G) -> G)
  {
    (forall x :: f(x) == x) && forall x, g :: u(x, g) == g
  }

  /** Adding a prompt: the gradient goes through to the input, and the prompt gets its share. */
  ghost predicate AddsPrompt<X(!new), P(!new), G(!new), Q>(c: Chain<X, P, G, Q>, p: P, f: X -> X, u: (X, G) -> G)
  {
    (forall x :: f(x) == c.add(x, p)) && forall x, g :: u(x, g) == g
  }

  ghost predicate AddsToInput<X(!new), P(!new), G(!new), Q(!new)>(c: Chain<X, P, G, Q>, x: X, f: P -> X, u: (P, G) -> Q)
  {
    (forall p :: f(p) == c.add(x, p)) && forall p, g :: u(p, g) == c.cut(g, p)
  }

  // ----- the functions of a chain -----

  function OutputOf<X, P, G, Q>(c: Chain<X, P, G, Q>, i: nat): X -> X
    requires c.Valid() && i < |c.blocks|
  {
    (x: X) => c.Output(i, x)
  }

  function InputGradientOf<X, P, G, Q>(c: Chain<X, P, G, Q>, i: nat): (X, G) -> G
    requires c.Valid() && i < |c.blocks|
  {
    (x: X, g: G) => c.InputGradient(i, x, g)
  }

  function RunOf<X, P, G, Q>(c: Chain<X, P, G, Q>, lo: nat, hi: nat): X -> X
    requires c.Valid() && lo <= hi <= |c.blocks|
  {
    (x: X) => c.Run(lo, hi, x)
  }

  function GradientOf<X, P, G, Q>(c: Chain<X, P, G, Q>, lo: nat, hi: nat): (X, G) -> G
    requires c.Valid() && lo <= hi <= |c.blocks|
  {
    (x: X, g: G) => c.Gradient(lo, hi, x, g)
  }

  /** The gradient of a block with its prompt. */
  lemma OutputDerives<X(!new), P(!new), G(!new), Q(!new)>(c: Chain<X, P, G, Q>, i: nat,
                                                          d: (X -> X, (X, G) -> G) -> bool)
    requires c.Valid() && i < |c.blocks|
    requires forall f, u | IsIdentity(f, u) :: d(f, u)
    requires forall f, u, h, v, k, w | d(f, u) && d(h, v) && Composed(f, u, h, v, k, w) :: d(k, w)
    requires forall p, f, u | AddsPrompt(c, p, f, u) :: d(f, u)
    requires d(c.blocks[i].forward, c.blocks[i].vjp)
    ensures d(OutputOf(c, i), InputGradientOf(c, i))
  {
    var u := (x: X, g: G) => g;
    if c.prompts.Some? {
      var f := (x: X) => c.add(x, c.prompts.value[i]);
      assert AddsPrompt(c, c.prompts.value[i], f, u);
      assert Composed(f, u, c.blocks[i].forward, c.blocks[i].vjp, OutputOf(c, i), InputGradientOf(c, i));
    } else {
      var f := (x: X) => x;
      assert IsIdentity(f, u);
      assert Composed(f, u, c.blocks[i].forward, c.blocks[i].vjp, OutputOf(c, i), InputGradientOf(c, i));
    }
  }

  lemma RunComposes<X(!new), P(!new), G(!new), Q(!new)>(c: Chain<X, P, G, Q>, lo: nat, hi: nat)
    requires c.Valid() && lo < hi <= |c.blocks|
    ensures Composed(RunOf(c, lo, hi - 1), GradientOf(c, lo, hi - 1), OutputOf(c, hi - 1), InputGradientOf(c, hi - 1),
                     RunOf(c, lo, hi), GradientOf(c, lo, hi))
  {
  }

  lemma NoBlocks<X(!new), P(!new), G(!new), Q(!new)>(c: Chain<X, P, G, Q>, at: nat)
    requires c.Valid() && at <= |c.blocks|
    ensures IsIdentity(RunOf(c, at, at), GradientOf(c, at, at))
  {
  }

  /** The chain rule: what the backward pass computes is the derivative of what the forward pass computes. */
  lemma {:induction false} GradientDerives<X(!new), P(!new), G(!new), Q(!new)>(
    c: Chain<X, P, G, Q>, lo: nat, hi: nat, d: (X -> X, (X, G) -> G) -> bool)
    requires c.Valid() && lo <= hi <= |c.blocks|
    requires forall f, u | IsIdentity(f, u) :: d(f, u)
    requires forall f, u, h, v, k, w | d(f, u) && d(h, v) && Composed(f, u, h, v, k, w) :: d(k, w)
    requires forall p, f, u | AddsPrompt(c, p, f, u) :: d(f, u)
    requires forall i | lo <= i < hi :: d(c.blocks[i].forward, c.blocks[i].vjp)
    ensures d(RunOf(c, lo, hi), GradientOf(c, lo, hi))
    decreases hi
  {
    if lo == hi {
      NoBlocks(c, lo);
    } else {
      GradientDerives(c, lo, hi - 1, d);
      OutputDerives(c, hi - 1, d);
      RunComposes(c, lo, hi);
    }
  }

  // ----- prompts -----

  /** The chain with `p` for the prompt of block `i`. */
  function WithPrompt<X, P, G, Q>(c: Chain<X, P, G, Q>, i: nat, p: P): (c': Chain<X, P, G, Q>)
    requires c.Valid() && c.prompts.Some? && i < |c.blocks|
    ensures c'.Valid() && c'.prompts.Some? && c'.blocks == c.blocks
  {
    c.(prompts := Some(c.prompts.value[i := p]))
  }

  /** The blocks on either side of block `i` do not see its prompt. */
  lemma {:induction false} SameRun<X, P, G, Q>(c: Chain<X, P, G, Q>, i: nat, p: P, lo: nat, hi: nat, x: X)
    requires c.Valid() && c.prompts.Some? && i < |c.blocks| && lo <= hi <= |c.blocks| && !(lo <= i < hi)
    ensures WithPrompt(c, i, p).Run(lo, hi, x) == c.Run(lo, hi, x)
    decreases hi
  {
    if lo < hi { SameRun(c, i, p, lo, hi - 1, x); }
  }

  lemma {:induction false} SameGradient<X, P, G, Q>(c: Chain<X, P, G, Q>, i: nat, p: P, lo: nat, hi: nat, x: X, g: G)
    requires c.Valid() && c.prompts.Some? && i < |c.blocks| && lo <= hi <= |c.blocks| && !(lo <= i < hi)
    ensures WithPrompt(c, i, p).Gradient(lo, hi, x, g) == c.Gradient(lo, hi, x, g)
    decreases hi
  {
    if lo < hi {
      SameRun(c, i, p, lo, hi - 1, x);
      SameGradient(c, i, p, lo, hi - 1, x, c.InputGradient(hi - 1, c.Run(lo, hi - 1, x), g));
    }
  }

  /** Slice `i` is the prompt's share of the gradient at the prompted input that block `i` was run on. */
  lemma SliceOfBlock<X, P, G, Q>(c: Chain<X, P, G, Q>, lo: nat, hi: nat, i: nat, x: X, g: G)
    requires c.Valid() && c.prompts.Some? && lo <= i < hi <= |c.blocks|
    ensures var input, p := c.Run(lo, i, x), c.prompts.value[i];
            var output := c.blocks[i].forward(c.add(input, p));
            && c.Run(lo, hi, x) == c.Run(i + 1, hi, output)
            && c.PromptGradients(lo, hi, x, g)[i - lo]
               == c.cut(c.blocks[i].vjp(c.add(input, p), c.Gradient(i + 1, hi, output, g)), p)
  {
    RunInTwoParts(c, lo, i + 1, hi, x);
    PromptGradientsInTwoParts(c, lo, i + 1, hi, x, g);
    var before := c.Gradient(i + 1, hi, c.Run(lo, i + 1, x), g);
    LastSlice(c, lo, i + 1, x, before, c.InputGradient(i, c.Run(lo, i, x), before));
  }

  /** The output and the slice of block `i` as functions of the prompt of block `i`. */
  function OutputOfPrompt<X, P, G, Q>(c: Chain<X, P, G, Q>, lo: nat, hi: nat, i: nat, x: X): P -> X
    requires c.Valid() && c.prompts.Some? && lo <= i < hi <= |c.blocks|
  {
    (p: P) => WithPrompt(c, i, p).Run(lo, hi, x)
  }

  function SliceOfPrompt<X, P, G, Q>(c: Chain<X, P, G, Q>, lo: nat, hi: nat, i: nat, x: X): (P, G) -> Q
    requires c.Valid() && c.prompts.Some? && lo <= i < hi <= |c.blocks|
  {
    (p: P, g: G) => WithPrompt(c, i, p).PromptGradients(lo, hi, x, g)[i - lo]
  }

  /** The slice that the backward pass returns for a block is the derivative of the output in the block's prompt. */
  lemma PromptGradientDerives<X(!new), P(!new), G(!new), Q(!new)>(
    c: Chain<X, P, G, Q>, lo: nat, hi: nat, i: nat, x: X, d: (X -> X, (X, G) -> G) -> bool,
    e: (P -> X, (P, G) -> Q) -> bool)
    requires c.Valid() && c.prompts.Some? && lo <= i < hi <= |c.blocks|
    requires forall f, u | IsIdentity(f, u) :: d(f, u)
    requires forall f, u, h, v, k, w | d(f, u) && d(h, v) && Composed(f, u, h, v, k, w) :: d(k, w)
    requires forall p, f, u | AddsPrompt(c, p, f, u) :: d(f, u)
    requires forall j | lo <= j < hi :: d(c.blocks[j].forward, c.blocks[j].vjp)
    requires forall x, f, u | AddsToInput(c, x, f, u) :: e(f, u)
    requires forall f, u, h, v, k, w | e(f, u) && d(h, v) && Composed(f, u, h, v, k, w) :: e(k, w)
    ensures e(OutputOfPrompt(c, lo, hi, i, x), SliceOfPrompt(c, lo, hi, i, x))
  {
    PromptThroughBlock(c, i, c.Run(lo, i, x), d, e);
    GradientDerives(c, i + 1, hi, d);
    PromptThroughChain(c, lo, hi, i, x);
  }

  /** The output of block `i` on the input `x`, as a function of its prompt, and the prompt's gradient. */
  function PromptedOf<X, P, G, Q>(c: Chain<X, P, G, Q>, i: nat, x: X): P -> X
    requires i < |c.blocks|
  {
    (p: P) => c.blocks[i].forward(c.add(x, p))
  }

  function ShareOf<X, P, G, Q>(c: Chain<X, P, G, Q>, i: nat, x: X): (P, G) -> Q
    requires i < |c.blocks|
  {
    (p: P, g: G) => c.cut(c.blocks[i].vjp(c.add(x, p), g), p)
  }

  lemma PromptThroughBlock<X(!new), P(!new), G(!new), Q(!new)>(
    c: Chain<X, P, G, Q>, i: nat, x: X, d: (X -> X, (X, G) -> G) -> bool, e: (P -> X, (P, G) -> Q) -> bool)
    requires i < |c.blocks| && d(c.blocks[i].forward, c.blocks[i].vjp)
    requires forall x, f, u | AddsToInput(c, x, f, u) :: e(f, u)
    requires forall f, u, h, v, k, w | e(f, u) && d(h, v) && Composed(f, u, h, v, k, w) :: e(k, w)
    ensures e(PromptedOf(c, i, x), ShareOf(c, i, x))
  {
    var f, u := (p: P) => c.add(x, p), (p: P, g: G) => c.cut(g, p);
    assert AddsToInput(c, x, f, u);
    assert Composed(f, u, c.blocks[i].forward, c.blocks[i].vjp, PromptedOf(c, i, x), ShareOf(c, i, x));
  }

  lemma PromptThroughChain<X(!new), P(!new), G(!new), Q(!new)>(c: Chain<X, P, G, Q>, lo: nat, hi: nat, i: nat, x: X)
    requires c.Valid() && c.prompts.Some? && lo <= i < hi <= |c.blocks|
    ensures var input := c.Run(lo, i, x);
            Composed(PromptedOf(c, i, input), ShareOf(c, i, input), RunOf(c, i + 1, hi), GradientOf(c, i + 1, hi),
                     OutputOfPrompt(c, lo, hi, i, x), SliceOfPrompt(c, lo, hi, i, x))
  {
    forall p ensures WithPrompt(c, i, p).Run(lo, hi, x) == RunOf(c, i + 1, hi)(PromptedOf(c, i, c.Run(lo, i, x))(p)) {
      OutputAt(c, lo, hi, i, x, p);
    }
    forall p, g
      ensures SliceOfPrompt(c, lo, hi, i, x)(p, g)
           == ShareOf(c, i, c.Run(lo, i, x))(p, GradientOf(c, i + 1, hi)(PromptedOf(c, i, c.Run(lo, i, x))(p), g))
    {
      SliceAt(c, lo, hi, i, x, p, g);
    }
  }

  lemma OutputAt<X, P, G, Q>(c: Chain<X, P, G, Q>, lo: nat, hi: nat, i: nat, x: X, p: P)
    requires c.Valid() && c.prompts.Some? && lo <= i < hi <= |c.blocks|
    ensures WithPrompt(c, i, p).Run(lo, hi, x)
         == c.Run(i + 1, hi, c.blocks[i].forward(c.add(c.Run(lo, i, x), p)))
  {
    var output := c.blocks[i].forward(c.add(c.Run(lo, i, x), p));
    RunInTwoParts(WithPrompt(c, i, p), lo, i + 1, hi, x);
    SameRun(c, i, p, lo, i, x);
    SameRun(c, i, p, i + 1, hi, output);
  }

  lemma SliceAt<X, P, G, Q>(c: Chain<X, P, G, Q>, lo: nat, hi: nat, i: nat, x: X, p: P, g: G)
    requires c.Valid() && c.prompts.Some? && lo <= i < hi <= |c.blocks|
    ensures var input := c.Run(lo, i, x);
            WithPrompt(c, i, p).PromptGradients(lo, hi, x, g)[i - lo]
            == c.cut(c.blocks[i].vjp(c.add(input, p), c.Gradient(i + 1, hi, c.blocks[i].forward(c.add(input, p)), g)),
                     p)
  {
    SliceOfBlock(WithPrompt(c, i, p), lo, hi, i, x, g);
    SameRun(c, i, p, lo, i, x);
    SameGradient(c, i, p, i + 1, hi, c.blocks[i].forward(c.add(c.Run(lo, i, x), p)), g);
  }
}
