/**
 Speculative decoding: a small model drafts tokens, the precise model checks them all in one step of its session, and
 the session is rolled back to what was accepted.
 */
module SpeculativeDecoding {
  import opened CausalModel
  import opened SpanTilings
  import S = InferenceSession

  /** `choose` is the most likely token after the output of the last block at some position. */
  datatype Model<!H, !C, !T> = Model(blocks: seq<Block<H, C>>, embed: T -> H, choose: H -> T)

  datatype Outcome = Finished | NothingToDraft | DraftTooShort

  function Embedded<H, C, T>(m: Model<H, C, T>, tokens: seq<T>): (hs: seq<H>)
    ensures |hs| == |tokens|
  {
    seq(|tokens|, i requires 0 <= i < |tokens| => m.embed(tokens[i]))
  }

  /** The precise model's choice after `tokens`, computed from nothing but `tokens`. */
  function NextToken<H, C, T>(m: Model<H, C, T>, tokens: seq<T>): T
    requires |tokens| > 0
  {
    m.choose(RunBlocks(m.blocks, Embedded(m, tokens))[|tokens| - 1])
  }

  /** Greedy decoding of `n` tokens, one at a time. */
  function Greedy<H, C, T>(m: Model<H, C, T>, prompt: seq<T>, n: nat): (tokens: seq<T>)
    requires |prompt| > 0
    ensures |tokens| == |prompt| + n
  {
    if n == 0 then prompt
    else
      var before := Greedy(m, prompt, n - 1);
      before + [NextToken(m, before)]
  }

  /** Every token of a greedy run is the model's choice on the full prefix before it. */
  lemma {:induction false} GreedyChoosesEveryToken<H, C, T>(m: Model<H, C, T>, prompt: seq<T>, n: nat, i: nat)
    requires |prompt| > 0 && |prompt| <= i < |prompt| + n
    ensures prompt == Greedy(m, prompt, n)[..|prompt|]
    ensures Greedy(m, prompt, n)[i] == NextToken(m, Greedy(m, prompt, n)[..i])
  {
    var before := Greedy(m, prompt, n - 1);
    if i == |prompt| + n - 1 {
      assert Greedy(m, prompt, n)[..i] == before;
      if n > 1 { GreedyChoosesEveryToken(m, prompt, n - 1, |prompt|); }
    } else {
      GreedyChoosesEveryToken(m, prompt, n - 1, i);
      assert Greedy(m, prompt, n)[..i] == before[..i];
    }
  }

  /** One run over `tokens` gives the choices after all of its prefixes. */
  lemma RunGivesChoices<H, C, T>(m: Model<H, C, T>, tokens: seq<T>, i: nat)
    requires 0 < i <= |tokens|
    ensures m.choose(RunBlocks(m.blocks, Embedded(m, tokens))[i - 1]) == NextToken(m, tokens[..i])
  {
    PrefixRun(m.blocks, Embedded(m, tokens), i);
    assert Embedded(m, tokens)[..i] == Embedded(m, tokens[..i]);
  }

  /** `n` of the drafted tokens are kept: all up to the first that is not the choice at its place, or the first choice
      in the place of a first token that is wrong. */
  ghost predicate IsKept<T>(choices: seq<T>, drafted: seq<T>, n: nat)
    requires |choices| == |drafted|
  {
    && 0 < n <= |drafted|
    && if drafted[0] != choices[0] then n == 1
       else drafted[..n] == choices[..n] && (n < |drafted| ==> drafted[n] != choices[n])
  }

  /** The precise model's choices at the places of the drafted tokens, each after everything before it. */
  function Choices<H, C, T>(m: Model<H, C, T>, ids: seq<T>, drafted: seq<T>): (choices: seq<T>)
    requires |ids| > 0
    ensures |choices| == |drafted|
  {
    seq(|drafted|, i requires 0 <= i < |drafted| => NextToken(m, ids + drafted[..i]))
  }

  /** Keeps the drafted tokens up to the first one the precise model would not have chosen; when there are none, the
      precise model's first choice takes their place. */
  method Accept<T(==)>(choices: seq<T>, drafted: seq<T>) returns (accepted: seq<T>)
    requires |choices| == |drafted| > 0
    ensures 0 < |accepted| <= |choices| && accepted == choices[..|accepted|]
    ensures forall i | 0 <= i < |accepted| - 1 :: accepted[i] == drafted[i]
    ensures IsKept(choices, drafted, |accepted|)
  {
    accepted := [];
    while |accepted| < |drafted| && choices[|accepted|] == drafted[|accepted|]
      invariant |accepted| <= |drafted| && accepted == choices[..|accepted|] == drafted[..|accepted|]
    {
      accepted := accepted + [choices[|accepted|]];
    }
    if |accepted| == 0 {
      accepted := [choices[0]];
    }
  }

  /** Accepted tokens continue a greedy run. */
  lemma {:induction false} AcceptedAreGreedy<H, C, T>(m: Model<H, C, T>, prompt: seq<T>, n: nat, ids: seq<T>,
                                                      drafted: seq<T>, accepted: seq<T>)
    requires |prompt| > 0 && ids == Greedy(m, prompt, n) && |accepted| <= |drafted|
    requires forall i | 0 <= i < |accepted| :: accepted[i] == NextToken(m, ids + drafted[..i])
    requires forall i | 0 <= i < |accepted| - 1 :: accepted[i] == drafted[i]
    ensures ids + accepted == Greedy(m, prompt, n + |accepted|)
  {
    if |accepted| == 0 {
      assert ids + accepted == ids;
    } else {
      var k := |accepted| - 1;
      AcceptedAreGreedy(m, prompt, n, ids, drafted, accepted[..k]);
      assert accepted[..k] == drafted[..k];
      assert ids + accepted == ids + accepted[..k] + [accepted[k]];
    }
  }

  lemma InputFollows<H, C, T>(m: Model<H, C, T>, kept: seq<H>, ids: seq<T>, drafted: seq<T>, input: seq<T>)
    requires |ids| > 0 && |drafted| > 0
    requires (kept == [] && input == (ids + drafted)[..|ids| + |drafted| - 1])
      || (kept == Embedded(m, ids[..|ids| - 1]) && input == (ids + drafted)[|ids| - 1..][..|drafted|])
    ensures kept + Embedded(m, input) == Embedded(m, (ids + drafted)[..|ids| + |drafted| - 1])
  {
    var seen := (ids + drafted)[..|ids| + |drafted| - 1];
    if kept == [] {
    } else {
      assert ids[..|ids| - 1] + input == seen;
      EmbeddedJoined(m, ids[..|ids| - 1], input);
    }
  }

  lemma EmbeddedJoined<H, C, T>(m: Model<H, C, T>, first: seq<T>, second: seq<T>)
    ensures Embedded(m, first + second) == Embedded(m, first) + Embedded(m, second)
  {
  }

  /** Checks the drafted tokens: the precise model's choices after `ids`, after `ids` and the first drafted token, and
      so on. */
  method Verify<H, C, T>(m: Model<H, C, T>, session: S.InferenceSession<H, C>, ids: seq<T>, drafted: seq<T>,
                         first: bool, route: seq<Span>)
    returns (choices: seq<T>)
    requires session.Valid() && session.blocks == m.blocks && Tiles(route, 0, |m.blocks|)
    requires |ids| > 0 && |drafted| > 0 && |ids| + |drafted| <= session.maxLength
    requires if first then session.position == 0 && session.kept == []
             else Checked(m, session, ids)
    modifies session, session.servers
    ensures session.servers == old(session.servers) || forall k | 0 <= k < |session.servers| ::
              fresh(session.servers[k])
    ensures session.Valid() && session.servers != [] && session.kept
            == Embedded(m, (ids + drafted)[..|ids| + |drafted| - 1])
    ensures choices == Choices(m, ids, drafted)
  {
    var input := ids + drafted;
    if !first {
      var ok := session.SetPosition(|ids| - 1);
      input := input[|input| - |drafted| - 1..];
    }
    input := input[..|input| - 1];
    InputFollows(m, session.kept, ids, drafted, input);
    var r := session.Step(Embedded(m, input), route);
    choices := Choose(m, r.value, ids, drafted);
  }

  /** The choices after the last outputs of a step that reached up to the last but one drafted token. */
  method Choose<H, C, T>(m: Model<H, C, T>, outputs: seq<H>, ids: seq<T>, drafted: seq<T>) returns (choices: seq<T>)
    requires |ids| > 0 && |drafted| <= |outputs| < |ids| + |drafted|
    requires outputs == RunBlocks(m.blocks, Embedded(m, (ids + drafted)[..|ids| + |drafted| - 1]))[|ids|
             + |drafted| - 1 - |outputs|..]
    ensures choices == Choices(m, ids, drafted)
  {
    var size := |drafted|;
    var last := outputs[|outputs| - size..];
    choices := seq(size, i requires 0 <= i < size => m.choose(last[i]));
    ghost var seen := (ids + drafted)[..|ids| + size - 1];
    forall i | 0 <= i < size ensures choices[i] == NextToken(m, ids + drafted[..i]) {
      RunGivesChoices(m, seen, |ids| + i);
      assert seen[..|ids| + i] == ids + drafted[..i];
      assert last[i] == RunBlocks(m.blocks, Embedded(m, seen))[|ids| + i - 1];
    }
  }

  /** The drafted tokens are the last ones that the drafter returns; the drafter may be anything. */
  method Draft<T>(drafter: (seq<T>, nat) -> seq<T>, ids: seq<T>, size: nat) returns (drafted: seq<T>)
    ensures |drafted| <= size && (|drafted| == size <==> |drafter(ids, size)| >= size)
    ensures |drafted| == size ==> drafted == LastOf(drafter(ids, size), size)
  {
    var outputs := drafter(ids, size);
    drafted := if |outputs| >= size then LastOf(outputs, size) else outputs;
  }

  function Smaller(a: int, b: int): int
  {
    if a <= b then a else b
  }

  function LastOf<T>(outputs: seq<T>, size: nat): (last: seq<T>)
    requires size <= |outputs|
    ensures |last| == size
  {
    outputs[|outputs| - size..]
  }

  /** A round takes `before` to `after`; `limit` is the most that may be drafted. */
  ghost predicate IsRound<H, C, T>(m: Model<H, C, T>, drafter: (seq<T>, nat) -> seq<T>, limit: int, maxLength: nat,
                                   before: seq<T>, after: seq<T>)
  {
    var size := Smaller(limit, maxLength - |before|);
    && before < after && |before| > 0 && size > 0 && |drafter(before, size)| >= size
    && var drafted := LastOf(drafter(before, size), size);
       IsKept(Choices(m, before, drafted), drafted, |after| - |before|)
  }

  /** What there was before the first round and after each round; after no round but the last one did the stopping rule
      apply. */
  ghost predicate Rounds<H, C, T>(m: Model<H, C, T>, drafter: (seq<T>, nat) -> seq<T>, stop: seq<T> -> bool, limit: int,
                                  maxLength: nat, rounds: seq<seq<T>>)
  {
    && |rounds| > 0
    && (forall j, k | 0 <= j < k == j + 1 < |rounds| :: IsRound(m, drafter, limit, maxLength, rounds[j], rounds[k]))
    && (forall k | 0 < k < |rounds| - 1 :: !stop(rounds[k]))
  }

  lemma RoundsNext<H, C, T>(m: Model<H, C, T>, drafter: (seq<T>, nat) -> seq<T>, stop: seq<T> -> bool, limit: int,
                            maxLength: nat, rounds: seq<seq<T>>, size: int, ids: seq<T>, ids': seq<T>)
    requires Rounds(m, drafter, stop, limit, maxLength, rounds) && ids == rounds[|rounds| - 1]
    requires |rounds| > 1 ==> !stop(ids)
    requires Smaller(size, maxLength - |ids|) == Smaller(limit, maxLength - |ids|)
    requires IsRound(m, drafter, size, maxLength, ids, ids')
    ensures Rounds(m, drafter, stop, limit, maxLength, rounds + [ids'])
  {
    assert IsRound(m, drafter, limit, maxLength, ids, ids');
  }

  /** Whatever the drafter proposes, the result continues the prompt with the precise model's own greedy choices. */
  method Sample<H, C, T(==)>(m: Model<H, C, T>, session: S.InferenceSession<H, C>, prompt: seq<T>,
                             drafter: (seq<T>, nat) -> seq<T>, stop: seq<T> -> bool, iterationSize: nat,
                             route: seq<Span>)
    returns (ids: seq<T>, outcome: Outcome, ghost rounds: seq<seq<T>>)
    requires session.Valid() && session.servers == [] && session.position == 0
    requires session.blocks == m.blocks && Tiles(route, 0, |m.blocks|) && |prompt| > 0
    modifies session
    ensures |ids| >= |prompt| && ids == Greedy(m, prompt, |ids| - |prompt|)
    ensures |ids| <= session.maxLength || ids == prompt
    ensures Rounds(m, drafter, stop, iterationSize, session.maxLength, rounds)
    ensures rounds[0] == prompt && rounds[|rounds| - 1] == ids && (|rounds| == 1 <==> ids == prompt)
    ensures outcome == Finished <==> |ids| > |prompt| && stop(ids)
    ensures outcome == NothingToDraft ==> |ids| >= session.maxLength || iterationSize == 0
    ensures outcome == DraftTooShort ==>
              var size := Smaller(iterationSize, session.maxLength - |ids|);
              size > 0 && |drafter(ids, size)| < size
  {
    StartDecoding(m, session, prompt);
    ids, outcome, rounds := SampleFrom(m, session, prompt, drafter, stop, iterationSize, route);
  }

  /** Rounds until the stopping rule applies, nothing can be drafted, or the drafter returns too few tokens. */
  method SampleFrom<H, C, T(==)>(m: Model<H, C, T>, session: S.InferenceSession<H, C>, prompt: seq<T>,
                                 drafter: (seq<T>, nat) -> seq<T>, stop: seq<T> -> bool, iterationSize: nat,
                                 route: seq<Span>)
    returns (ids: seq<T>, outcome: Outcome, ghost rounds: seq<seq<T>>)
    requires Decoding(m, session, prompt, prompt, true) && Tiles(route, 0, |m.blocks|) && session.servers == []
    modifies session
    ensures exists first :: Decoding(m, session, prompt, ids, first)
    ensures Rounds(m, drafter, stop, iterationSize, session.maxLength, rounds)
    ensures rounds[0] == prompt && rounds[|rounds| - 1] == ids && (|rounds| == 1 <==> ids == prompt)
    ensures outcome == Finished <==> |ids| > |prompt| && stop(ids)
    ensures outcome == NothingToDraft ==> Smaller(iterationSize, session.maxLength - |ids|) <= 0
    ensures outcome == DraftTooShort ==>
              var size := Smaller(iterationSize, session.maxLength - |ids|);
              size > 0 && |drafter(ids, size)| < size
  {
    ids := prompt;
    var size: int := iterationSize;
    var finished, first := false, true;
    rounds := [prompt];
    while !finished
      modifies session, session.servers
      invariant forall k | 0 <= k < |session.servers| :: fresh(session.servers[k])
      invariant Decoding(m, session, prompt, ids, first)
      invariant Smaller(size, session.maxLength - |ids|) == Smaller(iterationSize, session.maxLength - |ids|)
      invariant Rounds(m, drafter, stop, iterationSize, session.maxLength, rounds)
      invariant rounds[0] == prompt && rounds[|rounds| - 1] == ids && (|rounds| == 1 <==> ids == prompt)
      invariant finished <==> |ids| > |prompt| && stop(ids)
      decreases session.maxLength - |ids|, !finished
    {
      size := Smaller(size, session.maxLength - |ids|);
      if size <= 0 { return ids, NothingToDraft, rounds; }
      ghost var before := ids;
      var longEnough;
      ids, longEnough := Round(m, session, prompt, ids, drafter, size, first, route);
      if !longEnough { return ids, DraftTooShort, rounds; }
      RoundsNext(m, drafter, stop, iterationSize, session.maxLength, rounds, size, before, ids);
      rounds := rounds + [ids];
      first, finished := false, stop(ids);
    }
    outcome := Finished;
  }

  lemma StartDecoding<H, C, T>(m: Model<H, C, T>, session: S.InferenceSession<H, C>, prompt: seq<T>)
    requires session.Valid() && session.blocks == m.blocks && |prompt| > 0
    requires session.servers == [] && session.position == 0
    ensures Decoding(m, session, prompt, prompt, true)
  {
  }

  /** One round: the drafter proposes `size` tokens, and `ids` grows by those that are accepted. */
  method Round<H, C, T(==)>(m: Model<H, C, T>, session: S.InferenceSession<H, C>, prompt: seq<T>, ids: seq<T>,
                            drafter: (seq<T>, nat) -> seq<T>, size: nat, first: bool, route: seq<Span>)
    returns (ids': seq<T>, longEnough: bool)
    requires Decoding(m, session, prompt, ids, first) && Tiles(route, 0, |m.blocks|)
    requires 0 < size && |ids| + size <= session.maxLength
    modifies session, session.servers
    ensures session.servers == old(session.servers) || forall k | 0 <= k < |session.servers| ::
              fresh(session.servers[k])
    ensures longEnough <==> |drafter(ids, size)| >= size
    ensures longEnough ==> Decoding(m, session, prompt, ids', false) && |ids'| <= |ids| + size
    ensures longEnough ==> IsRound(m, drafter, size, session.maxLength, ids, ids')
    ensures !longEnough ==> ids' == ids && Decoding(m, session, prompt, ids, first)
  {
    var drafted := Draft(drafter, ids, size);
    if |drafted| != size { return ids, false; }
    ids' := Iterate(m, session, prompt, ids, drafted, first, route);
    longEnough := true;
  }

  /** The precise model checks the drafted tokens, and `ids` grows by those it accepts. */
  method Iterate<H, C, T(==)>(m: Model<H, C, T>, session: S.InferenceSession<H, C>, prompt: seq<T>, ids: seq<T>,
                              drafted: seq<T>, first: bool, route: seq<Span>)
    returns (ids': seq<T>)
    requires Decoding(m, session, prompt, ids, first) && Tiles(route, 0, |m.blocks|)
    requires |drafted| > 0 && |ids| + |drafted| <= session.maxLength
    modifies session, session.servers
    ensures session.servers == old(session.servers) || forall k | 0 <= k < |session.servers| ::
              fresh(session.servers[k])
    ensures Decoding(m, session, prompt, ids', false) && ids < ids'
    ensures IsKept(Choices(m, ids, drafted), drafted, |ids'| - |ids|)
  {
    var choices := Verify(m, session, ids, drafted, first, route);
    var accepted := Accept(choices, drafted);
    ids' := ids + accepted;
    KeptIsGreedy(m, prompt, ids, drafted, choices, accepted);
  }

  lemma KeptIsGreedy<H, C, T>(m: Model<H, C, T>, prompt: seq<T>, ids: seq<T>, drafted: seq<T>, choices: seq<T>,
                              accepted: seq<T>)
    requires 0 < |prompt| <= |ids| && ids == Greedy(m, prompt, |ids| - |prompt|)
    requires choices == Choices(m, ids, drafted) && IsKept(choices, drafted, |accepted|)
    requires |choices| == |drafted| && accepted == choices[..|accepted|]
    ensures ids + accepted == Greedy(m, prompt, |ids + accepted| - |prompt|)
    ensures Embedded(m, (ids + accepted)[..|ids + accepted| - 1])
         <= Embedded(m, (ids + drafted)[..|ids| + |drafted| - 1])
  {
    KeptTokens(m, ids, drafted, choices, |accepted|);
    RoundIsGreedy(m, prompt, ids, drafted, choices, accepted);
  }

  lemma KeptTokens<H, C, T>(m: Model<H, C, T>, ids: seq<T>, drafted: seq<T>, choices: seq<T>, n: nat)
    requires |ids| > 0 && choices == Choices(m, ids, drafted) && IsKept(choices, drafted, n)
    ensures |choices| == |drafted| && forall i | 0 <= i < |drafted| :: choices[i] == NextToken(m, ids + drafted[..i])
    ensures forall i | 0 <= i < n - 1 :: choices[..n][i] == drafted[i]
  {
    assert n > 1 ==> forall i | 0 <= i < n :: drafted[..n][i] == choices[..n][i];
  }

  lemma RoundIsGreedy<H, C, T>(m: Model<H, C, T>, prompt: seq<T>, ids: seq<T>, drafted: seq<T>, choices: seq<T>,
                               accepted: seq<T>)
    requires 0 < |prompt| <= |ids| && ids == Greedy(m, prompt, |ids| - |prompt|)
    requires |choices| == |drafted| && forall i | 0 <= i < |drafted| :: choices[i] == NextToken(m, ids + drafted[..i])
    requires 0 < |accepted| <= |choices| && accepted == choices[..|accepted|]
    requires forall i | 0 <= i < |accepted| - 1 :: accepted[i] == drafted[i]
    ensures ids + accepted == Greedy(m, prompt, |ids + accepted| - |prompt|)
    ensures Embedded(m, (ids + accepted)[..|ids + accepted| - 1]) <= Embedded(m,
                                                                              (ids + drafted)[..|ids| + |drafted| - 1])
  {
    assert forall i | 0 <= i < |accepted| :: accepted[i] == choices[i];
    AcceptedAreGreedy(m, prompt, |ids| - |prompt|, ids, drafted, accepted);
    StillChecked(m, ids, drafted, accepted);
  }

  ghost predicate Decoding<H, C, T>(m: Model<H, C, T>, session: S.InferenceSession<H, C>, prompt: seq<T>, ids: seq<T>,
                                    first: bool)
    reads session, session.servers
  {
    && session.Valid() && session.blocks == m.blocks
    && 0 < |prompt| <= |ids| && ids == Greedy(m, prompt, |ids| - |prompt|)
    && (|ids| <= session.maxLength || ids == prompt)
    && if first then session.servers == [] && session.position == 0 && session.kept == [] else Checked(m, session, ids)
  }

  /** The session has seen all of `ids` but the last token, and perhaps more. */
  ghost predicate Checked<H, C, T>(m: Model<H, C, T>, session: S.InferenceSession<H, C>, ids: seq<T>)
    reads session
  {
    session.servers != [] && |ids| > 0 && Embedded(m, ids[..|ids| - 1]) <= session.kept
  }

  lemma StillChecked<H, C, T>(m: Model<H, C, T>, ids: seq<T>, drafted: seq<T>, accepted: seq<T>)
    requires 0 < |accepted| <= |drafted| && |ids| > 0
    requires forall i | 0 <= i < |accepted| - 1 :: accepted[i] == drafted[i]
    ensures Embedded(m, (ids + accepted)[..|ids + accepted| - 1]) <= Embedded(m,
                                                                              (ids + drafted)[..|ids| + |drafted| - 1])
  {
    var kept, seen := (ids + accepted)[..|ids + accepted| - 1], (ids + drafted)[..|ids| + |drafted| - 1];
    assert forall i | 0 <= i < |kept| :: kept[i] == seen[i];
  }
}
