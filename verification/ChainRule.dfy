/**
 A chain of blocks with optional deep prompts, and its gradients.

 `X` are the activations of a batch, `P` the prompt of one block, `G` gradients of activations and `Q` gradients of a
 prompt. Block `i` adds its prompt to its input (`add`), then runs `forward`; `vjp(x, g)` is the gradient with respect
 to the block's input `x` when `g` is the gradient with respect to its output, and `cut` takes the prompt's share of it.
 All functions are arbitrary.
 */
module ChainRule {

  import opened Wrappers

  datatype Block<!X, !G> = Block(forward: X -> X, vjp: (X, G) -> G)
  datatype Chain<!X, !P, !G, Q> = Chain(blocks: seq<Block<X, G>>, prompts: Option<seq<P>>, add: (X, P) -> X,
                                        cut: (G, P) -> Q)
  {
    ghost predicate Valid()
    {
      prompts.Some? ==> |prompts.value| == |blocks|
    }

    function Prompted(i: nat, x: X): X
      requires Valid() && i < |blocks|
    {
      if prompts.Some? then add(x, prompts.value[i]) else x
    }

    function Output(i: nat, x: X): X
      requires Valid() && i < |blocks|
    {
      blocks[i].forward(Prompted(i, x))
    }

    function InputGradient(i: nat, x: X, g: G): G
      requires Valid() && i < |blocks|
    {
      blocks[i].vjp(Prompted(i, x), g)
    }

    /** The composition of blocks [lo, hi). */
    function Run(lo: nat, hi: nat, x: X): X
      requires Valid() && lo <= hi <= |blocks|
      decreases hi
    {
      if lo == hi then x else Output(hi - 1, Run(lo, hi - 1, x))
    }

    /** The gradient with respect to the input of blocks [lo, hi): all vector-Jacobian products in reverse order. */
    function Gradient(lo: nat, hi: nat, x: X, g: G): G
      requires Valid() && lo <= hi <= |blocks|
      decreases hi
    {
      if lo == hi then g else Gradient(lo, hi - 1, x, InputGradient(hi - 1, Run(lo, hi - 1, x), g))
    }

    /** One slice per block, in block order: the prompt's share of the gradient with respect to the block's input. */
    function PromptGradients(lo: nat, hi: nat, x: X, g: G): (slices: seq<Q>)
      requires Valid() && lo <= hi <= |blocks| && prompts.Some?
      ensures |slices| == hi - lo
      decreases hi
    {
      if lo == hi then []
      else
        var before := InputGradient(hi - 1, Run(lo, hi - 1, x), g);
        PromptGradients(lo, hi - 1, x, before) + [cut(before, prompts.value[hi - 1])]
    }
  }

  /** The activations before each of the blocks [lo, hi) and after the last: every block runs on its input with its own
      prompt added. */
  ghost predicate Activations<X, P, G, Q>(c: Chain<X, P, G, Q>, lo: nat, hi: nat, xs: seq<X>)
    requires c.Valid() && lo <= hi <= |c.blocks|
  {
    && |xs| == hi - lo + 1
    && forall i, k | 0 <= i < k == i + 1 < |xs| ::
         xs[k] == c.blocks[lo + i].forward(if c.prompts.Some? then c.add(xs[i], c.prompts.value[lo + i]) else xs[i])
  }

  lemma {:induction false} ActivationsAreRun<X, P, G, Q>(c: Chain<X, P, G, Q>, lo: nat, hi: nat, xs: seq<X>)
    requires c.Valid() && lo <= hi <= |c.blocks| && Activations(c, lo, hi, xs)
    ensures c.Run(lo, hi, xs[0]) == xs[hi - lo]
    decreases hi
  {
    if lo < hi {
      ActivationsAreRun(c, lo, hi - 1, xs[..hi - lo]);
      assert forall i, k | i == hi - lo - 1 && k == hi - lo :: xs[k] == c.Output(hi - 1, xs[i]);
    }
  }

  lemma {:induction false} RunInTwoParts<X, P, G, Q>(c: Chain<X, P, G, Q>, lo: nat, mid: nat, hi: nat, x: X)
    requires c.Valid() && lo <= mid <= hi <= |c.blocks|
    ensures c.Run(lo, hi, x) == c.Run(mid, hi, c.Run(lo, mid, x))
    decreases hi
  {
    if mid < hi {
      RunInTwoParts(c, lo, mid, hi - 1, x);
    }
  }

  /** The gradient of a composition is the composition of the gradients, the later blocks first. */
  lemma {:induction false} GradientInTwoParts<X, P, G, Q>(c: Chain<X, P, G, Q>, lo: nat, mid: nat, hi: nat, x: X, g: G)
    requires c.Valid() && lo <= mid <= hi <= |c.blocks|
    ensures GradientsCompose(c, lo, mid, hi, x, g)
    decreases hi
  {
    if mid < hi {
      var before := c.InputGradient(hi - 1, c.Run(lo, hi - 1, x), g);
      GradientInTwoParts(c, lo, mid, hi - 1, x, before);
      RunInTwoParts(c, lo, mid, hi - 1, x);
      LastGradient(c, lo, hi, x, g, before);
      LastGradient(c, mid, hi, c.Run(lo, mid, x), g, before);
    }
  }

  ghost predicate GradientsCompose<X, P, G, Q>(c: Chain<X, P, G, Q>, lo: nat, mid: nat, hi: nat, x: X, g: G)
    requires c.Valid() && lo <= mid <= hi <= |c.blocks|
  {
    c.Gradient(lo, hi, x, g) == c.Gradient(lo, mid, x, c.Gradient(mid, hi, c.Run(lo, mid, x), g))
  }

  lemma LastGradient<X, P, G, Q>(c: Chain<X, P, G, Q>, lo: nat, hi: nat, x: X, g: G, before: G)
    requires c.Valid() && lo < hi <= |c.blocks| && before == c.InputGradient(hi - 1, c.Run(lo, hi - 1, x), g)
    ensures c.Gradient(lo, hi, x, g) == c.Gradient(lo, hi - 1, x, before)
  {
  }

  ghost predicate SlicesJoin<X, P, G, Q>(c: Chain<X, P, G, Q>, lo: nat, mid: nat, hi: nat, x: X, g: G)
    requires c.Valid() && lo <= mid <= hi <= |c.blocks| && c.prompts.Some?
  {
    var x' := c.Run(lo, mid, x);
    c.PromptGradients(lo, hi, x, g) == c.PromptGradients(lo, mid, x, c.Gradient(mid, hi, x', g))
    + c.PromptGradients(mid, hi, x', g)
  }

  lemma {:induction false} PromptGradientsInTwoParts<X, P, G, Q>(c: Chain<X, P, G, Q>, lo: nat, mid: nat, hi: nat,
                                                                 x: X, g: G)
    requires c.Valid() && lo <= mid <= hi <= |c.blocks| && c.prompts.Some?
    ensures SlicesJoin(c, lo, mid, hi, x, g)
    decreases hi, 1
  {
    if mid == hi {
      SlicesJoinHere(c, lo, mid, x, g);
    } else {
      SlicesJoinAfter(c, lo, mid, hi, x, g, c.InputGradient(hi - 1, c.Run(lo, hi - 1, x), g));
    }
  }

  lemma {:induction false} SlicesJoinAfter<X, P, G, Q>(c: Chain<X, P, G, Q>, lo: nat, mid: nat, hi: nat, x: X, g: G,
                                                       before: G)
    requires c.Valid() && lo <= mid < hi <= |c.blocks| && c.prompts.Some?
    requires before == c.InputGradient(hi - 1, c.Run(lo, hi - 1, x), g)
    ensures SlicesJoin(c, lo, mid, hi, x, g)
    decreases hi, 0
  {
    PromptGradientsInTwoParts(c, lo, mid, hi - 1, x, before);
    SlicesJoinNext(c, lo, mid, hi, x, g, before);
  }

  lemma SlicesJoinHere<X, P, G, Q>(c: Chain<X, P, G, Q>, lo: nat, at: nat, x: X, g: G)
    requires c.Valid() && lo <= at <= |c.blocks| && c.prompts.Some?
    ensures SlicesJoin(c, lo, at, at, x, g)
  {
    assert c.PromptGradients(lo, at, x, g) + [] == c.PromptGradients(lo, at, x, g);
  }

  lemma SlicesJoinNext<X, P, G, Q>(c: Chain<X, P, G, Q>, lo: nat, mid: nat, hi: nat, x: X, g: G, before: G)
    requires c.Valid() && lo <= mid < hi <= |c.blocks| && c.prompts.Some?
    requires before == c.InputGradient(hi - 1, c.Run(lo, hi - 1, x), g) && SlicesJoin(c, lo, mid, hi - 1, x, before)
    ensures SlicesJoin(c, lo, mid, hi, x, g)
  {
    var x' := c.Run(lo, mid, x);
    RunInTwoParts(c, lo, mid, hi - 1, x);
    LastSlice(c, lo, hi, x, g, before);
    LastSlice(c, mid, hi, x', g, before);
    Associate(c.PromptGradients(lo, mid, x, c.Gradient(mid, hi, x', g)), c.PromptGradients(mid, hi - 1, x', before),
              [c.cut(before, c.prompts.value[hi - 1])]);
  }

  lemma LastSlice<X, P, G, Q>(c: Chain<X, P, G, Q>, lo: nat, hi: nat, x: X, g: G, before: G)
    requires c.Valid() && lo < hi <= |c.blocks| && c.prompts.Some?
             && before == c.InputGradient(hi - 1, c.Run(lo, hi - 1, x), g)
    ensures c.PromptGradients(lo, hi, x, g) == c.PromptGradients(lo, hi - 1, x, before)
            + [c.cut(before, c.prompts.value[hi - 1])]
    ensures c.Gradient(lo, hi, x, g) == c.Gradient(lo, hi - 1, x, before)
  {
  }

  lemma Associate<T>(a: seq<T>, b: seq<T>, c: seq<T>)
    ensures a + b + c == a + (b + c)
  {
  }

  // ----- the server's side of one request -----

  /** Runs the requested blocks one after the other. */
  method ServeForward<X, P, G, Q>(c: Chain<X, P, G, Q>, lo: nat, hi: nat, x: X) returns (hidden: X)
    requires c.Valid() && lo <= hi <= |c.blocks|
    ensures hidden == c.Run(lo, hi, x)
  {
    hidden := x;
    for i := lo to hi
      invariant hidden == c.Run(lo, i, x)
    {
      if c.prompts.Some? {
        hidden := c.add(hidden, c.prompts.value[i]);
      }
      hidden := c.blocks[i].forward(hidden);
    }
  }

  /** The inputs of the requested blocks, with their prompts; the output of the last block is not computed. */
  method CollectInputs<X, P, G, Q>(c: Chain<X, P, G, Q>, lo: nat, hi: nat, x: X) returns (inputs: seq<X>)
    requires c.Valid() && lo < hi <= |c.blocks|
    ensures |inputs| == hi - lo && forall i | lo <= i < hi :: inputs[i - lo] == c.Prompted(i, c.Run(lo, i, x))
  {
    inputs := [];
    var hidden := x;
    for i := lo to hi
      invariant |inputs| == i - lo && (i < hi ==> hidden == c.Run(lo, i, x))
      invariant forall k | lo <= k < i :: inputs[k - lo] == c.Prompted(k, c.Run(lo, k, x))
    {
      if c.prompts.Some? {
        hidden := c.add(hidden, c.prompts.value[i]);
      }
      inputs := inputs + [hidden];
      if i < hi - 1 {
        hidden := c.blocks[i].forward(hidden);
      }
    }
  }

  /** Recomputes the inputs of the requested blocks and goes through the blocks backwards. */
  method ServeBackward<X, P, G, Q>(c: Chain<X, P, G, Q>, lo: nat, hi: nat, x: X, g: G)
    returns (grad: G, gradPrompts: seq<Q>)
    requires c.Valid() && lo < hi <= |c.blocks|
    ensures grad == c.Gradient(lo, hi, x, g)
    ensures gradPrompts == if c.prompts.Some? then c.PromptGradients(lo, hi, x, g) else []
  {
    var inputs := CollectInputs(c, lo, hi, x);
    var reversed: seq<Q> := [];
    grad := g;
    var i := hi;
    while i > lo
      invariant lo <= i <= hi
      invariant c.Gradient(lo, hi, x, g) == c.Gradient(lo, i, x, grad)
      invariant c.prompts.Some? ==> c.PromptGradients(lo, hi, x, g)
                                    == c.PromptGradients(lo, i, x, grad) + Reversed(reversed)
      invariant c.prompts.None? ==> reversed == []
    {
      i := i - 1;
      ghost var after := grad;
      grad := c.blocks[i].vjp(inputs[i - lo], grad);
      if c.prompts.Some? {
        var slice := c.cut(grad, c.prompts.value[i]);
        NextSlice(c.PromptGradients(lo, i, x, grad), reversed, slice);
        assert c.PromptGradients(lo, i + 1, x, after) == c.PromptGradients(lo, i, x, grad) + [slice];
        reversed := reversed + [slice];
      }
    }
    gradPrompts := Reversed(reversed);
  }

  function Reversed<T>(s: seq<T>): (r: seq<T>)
    ensures |r| == |s|
  {
    seq(|s|, i requires 0 <= i < |s| => s[|s| - 1 - i])
  }

  lemma NextSlice<T>(before: seq<T>, reversed: seq<T>, slice: T)
    ensures before + [slice] + Reversed(reversed) == before + Reversed(reversed + [slice])
  {
  }
}
