/**
 Handing pushes to the handler process that owns a session.

 A server runs several handler processes. A push may reach any of them; it goes to the one that serves the session. The
 processes tell each other who serves what through queues that keep the order of one sender's messages, but may mix
 those of several senders in any way: there is one channel for every sender and receiver. `Handler` says how the pushes
 that get to the queue of a session are served.
 */
module PushRouting {

  /** A pushed request, and the handler that it reached. */
  datatype Push = Push(session: nat, via: nat, request: nat)

  datatype Event = NewSession(session: nat, owner: nat) | EndSession(session: nat) | Forwarded(push: Push)

  type Channels = seq<seq<seq<Event>>>

  /** Who serves which session, as far as this handler knows, and the sessions that it serves itself. */
  datatype Handler = Handler(known: map<nat, nat>, serves: set<nat>)

  /** `owners` has the owner of every session there ever was; `accepted` are the pushes that were not ignored, and
      `delivered` those that were put into the queue of their session. */
  datatype State = State(handlers: seq<Handler>, channels: Channels, owners: map<nat, nat>, accepted: seq<Push>,
                         delivered: map<nat, seq<Push>>)

  // ----- channels -----

  predicate Square(channels: Channels, n: nat)
  {
    |channels| == n && forall f | 0 <= f < n :: |channels[f]| == n
  }

  function Sent(channels: Channels, from: nat, to: nat, e: Event): Channels
    requires from < |channels| && to < |channels[from]|
  {
    channels[from := channels[from][to := channels[from][to] + [e]]]
  }

  /** The message goes to every other handler. */
  function Announced(channels: Channels, from: nat, e: Event): (c: Channels)
    requires Square(channels, |channels|) && from < |channels|
    ensures Square(c, |channels|)
    ensures forall f, t | 0 <= f < |c| && 0 <= t < |c| ::
              c[f][t] == if f == from && t != from then channels[f][t] + [e] else channels[f][t]
  {
    var row := seq(|channels|, t requires 0 <= t < |channels| => if t != from then channels[from][t] + [e]
                   else channels[from][t]);
    channels[from := row]
  }

  function Taken(channels: Channels, from: nat, to: nat): Channels
    requires from < |channels| && to < |channels[from]| && channels[from][to] != []
  {
    channels[from := channels[from][to := channels[from][to][1..]]]
  }

  // ----- steps -----

  function AfterOpen(st: State, h: nat, s: nat): State
    requires h < |st.handlers| && Square(st.channels, |st.handlers|)
  {
    var me := st.handlers[h];
    st.(handlers := st.handlers[h := Handler(me.known[s := h], me.serves + {s})], owners := st.owners[s := h],
        delivered := st.delivered[s := []], channels := Announced(st.channels, h, NewSession(s, h)))
  }

  function AfterClose(st: State, h: nat, s: nat): State
    requires h < |st.handlers| && Square(st.channels, |st.handlers|)
  {
    var me := st.handlers[h];
    st.(handlers := st.handlers[h := Handler(me.known - {s}, me.serves - {s})], channels :=
        Announced(st.channels, h, EndSession(s)))
  }

  function Delivered(st: State, p: Push): State
    requires p.session in st.delivered
  {
    st.(delivered := st.delivered[p.session := st.delivered[p.session] + [p]])
  }

  /** A push reaches handler `p.via`: it is ignored, put into a queue, or passed on. */
  ghost predicate Arrives(st: State, st': State, p: Push)
    requires p.via < |st.handlers| && Square(st.channels, |st.handlers|)
  {
    var me, taken := st.handlers[p.via], st.(accepted := st.accepted + [p]);
    if p.session !in me.known then st' == st
    else if me.known[p.session] == p.via then p.session in me.serves && p.session in st.delivered
         && st' == Delivered(taken, p)
    else
      var owner := me.known[p.session];
      owner < |st.handlers| && st' == taken.(channels := Sent(st.channels, p.via, owner, Forwarded(p)))
  }

  /** Handler `h` reads the next message of handler `from`. A push for a session that is over is dropped. */
  ghost predicate Reads(st: State, st': State, h: nat, from: nat)
    requires h < |st.handlers| && from < |st.handlers| && Square(st.channels, |st.handlers|)
  {
    st.channels[from][h] != [] &&
    var me, st0 := st.handlers[h], st.(channels := Taken(st.channels, from, h));
    match st.channels[from][h][0]
    case NewSession(s, owner) => st' == st0.(handlers := st.handlers[h := me.(known := me.known[s := owner])])
    case EndSession(s) => st' == st0.(handlers := st.handlers[h := me.(known := me.known - {s})])
    case Forwarded(p) => if p.session in me.serves then p.session in st.delivered
    && st' == Delivered(st0, p) else st' == st0
  }

  /** Numbers of sessions are not used again. */
  ghost predicate Step(st: State, st': State)
  {
    Square(st.channels, |st.handlers|) && exists h | 0 <= h < |st.handlers| :: StepOf(st, st', h)
  }

  ghost predicate StepOf(st: State, st': State, h: nat)
    requires h < |st.handlers| && Square(st.channels, |st.handlers|)
  {
    || (exists s: nat :: s !in st.owners && st' == AfterOpen(st, h, s))
    || (exists s: nat :: s in st.handlers[h].serves && st' == AfterClose(st, h, s))
    || (exists p: Push :: p.via == h && Arrives(st, st', p))
    || (exists from | 0 <= from < |st.handlers| :: Reads(st, st', h, from))
  }

  function Start(n: nat): State
  {
    State(seq(n, _ => Handler(map[], {})), seq(n, _ => seq(n, _ => [])), map[], [], map[])
  }

  ghost predicate IsRun(run: seq<State>, n: nat)
  {
    |run| > 0 && run[0] == Start(n) && forall i, k | 0 <= i < k == i + 1 < |run| :: Step(run[i], run[k])
  }

  // ----- what is known, and what is on its way -----

  /** Whether a handler that knows of the session, or not, will know of it after these messages. */
  function KnowsAfter(knows: bool, events: seq<Event>, s: nat): bool
  {
    if |events| == 0 then knows
    else Learns(KnowsAfter(knows, events[..|events| - 1], s), events[|events| - 1], s)
  }

  function Learns(knows: bool, e: Event, s: nat): bool
  {
    match e
    case NewSession(s', _) => s == s' || knows
    case EndSession(s') => s != s' && knows
    case Forwarded(_) => knows
  }

  lemma KnowsAfterOneMore(knows: bool, events: seq<Event>, e: Event, s: nat)
    ensures KnowsAfter(knows, events + [e], s) == Learns(KnowsAfter(knows, events, s), e, s)
  {
    assert (events + [e])[..|events|] == events;
  }

  lemma {:induction false} KnowsAfterFirst(knows: bool, events: seq<Event>, s: nat)
    requires events != []
    ensures KnowsAfter(knows, events, s) == KnowsAfter(Learns(knows, events[0], s), events[1..], s)
  {
    var n := |events| - 1;
    if n == 0 {
      assert events[..0] == [] && events[1..] == [];
    } else {
      KnowsAfterFirst(knows, events[..n], s);
      assert events[..n][1..] == events[1..][..n - 1];
    }
  }

  /** The pushes for a session among the messages of a channel. */
  function OnTheWay(events: seq<Event>, s: nat): seq<Push>
  {
    if |events| == 0 then []
    else OnTheWay(events[..|events| - 1], s) + PushOf(events[|events| - 1], s)
  }

  function PushOf(e: Event, s: nat): seq<Push>
  {
    if e.Forwarded? && e.push.session == s then [e.push] else []
  }

  lemma OnTheWayOneMore(events: seq<Event>, e: Event, s: nat)
    ensures OnTheWay(events + [e], s) == OnTheWay(events, s) + PushOf(e, s)
  {
    assert (events + [e])[..|events|] == events;
  }

  lemma {:induction false} OnTheWayFirst(events: seq<Event>, s: nat)
    requires events != []
    ensures OnTheWay(events, s) == PushOf(events[0], s) + OnTheWay(events[1..], s)
  {
    var n := |events| - 1;
    if n == 0 {
      assert events[..0] == [] && events[1..] == [];
    } else {
      OnTheWayFirst(events[..n], s);
      assert events[..n][1..] == events[1..][..n - 1];
    }
  }

  /** The pushes for session `s` that came by handler `v`, in order. */
  function Of(pushes: seq<Push>, s: nat, v: nat): seq<Push>
  {
    if |pushes| == 0 then []
    else
      var before, p := Of(pushes[..|pushes| - 1], s, v), pushes[|pushes| - 1];
      if p.session == s && p.via == v then before + [p] else before
  }

  lemma OfOneMore(pushes: seq<Push>, p: Push, s: nat, v: nat)
    ensures Of(pushes + [p], s, v) == Of(pushes, s, v) + if p.session == s && p.via == v then [p] else []
  {
    assert (pushes + [p])[..|pushes|] == pushes;
  }

  lemma {:induction false} OfNone(pushes: seq<Push>, s: nat, v: nat)
    requires forall p | p in pushes :: p.session != s
    ensures Of(pushes, s, v) == []
  {
    if |pushes| > 0 { OfNone(pushes[..|pushes| - 1], s, v); }
  }

  lemma Shifted<T>(first: seq<T>, x: T, rest: seq<T>)
    ensures first + ([x] + rest) == first + [x] + rest
  {
  }

  // ----- the invariant -----

  predicate Live(st: State, s: nat)
  {
    s in st.owners && st.owners[s] < |st.handlers| && s in st.handlers[st.owners[s]].serves
  }

  /** What a handler knows is true or was true; what it serves is its own, and it knows that. */
  ghost predicate GoodHandler(st: State, h: nat)
    requires h < |st.handlers|
  {
    var me := st.handlers[h];
    && (forall s | s in me.known :: s in st.owners && me.known[s] == st.owners[s])
    && (forall s | s in me.serves :: s in st.owners && st.owners[s] == h)
    && (forall s | s in st.owners && st.owners[s] == h :: s in me.known <==> s in me.serves)
  }

  /** Only owners announce; a push is on its way from the handler it reached to the owner of its session. */
  predicate GoodEvent(st: State, f: nat, t: nat, e: Event)
  {
    match e
    case NewSession(s, owner) => s in st.owners && st.owners[s] == owner == f
    case EndSession(s) => s in st.owners && st.owners[s] == f
    case Forwarded(p) => p.via == f && p.session in st.owners && st.owners[p.session] == t
  }

  ghost predicate GoodChannel(st: State, f: nat, t: nat)
    requires f < |st.channels| && t < |st.channels[f]|
  {
    (f == t ==> st.channels[f][t] == []) && forall e | e in st.channels[f][t] :: GoodEvent(st, f, t, e)
  }

  /** What a handler will know of a session once it has read the owner's messages is the truth. */
  ghost predicate WillKnow(st: State, s: nat, h: nat)
    requires Square(st.channels, |st.handlers|) && h < |st.handlers| && s in st.owners && st.owners[s] < |st.handlers|
  {
    KnowsAfter(s in st.handlers[h].known, st.channels[st.owners[s]][h], s) <==> Live(st, s)
  }

  /** Of the accepted pushes for a live session that came by handler `v`, the first ones are in the session's queue and
      the rest are on their way; of those for a session that is over, the first ones were in its queue. */
  ghost predicate Accounted(st: State, s: nat, v: nat)
    requires Square(st.channels, |st.handlers|) && v < |st.handlers|
    requires s in st.owners && st.owners[s] < |st.handlers| && s in st.delivered
  {
    if Live(st, s) then Of(st.delivered[s], s, v) + OnTheWay(st.channels[v][st.owners[s]], s) == Of(st.accepted, s, v)
    else Of(st.delivered[s], s, v) <= Of(st.accepted, s, v)
  }

  ghost predicate Shape(st: State)
  {
    && Square(st.channels, |st.handlers|) && st.delivered.Keys == st.owners.Keys
    && (forall s | s in st.owners :: st.owners[s] < |st.handlers|)
    && (forall p | p in st.accepted :: p.session in st.owners)
  }

  ghost predicate Good(st: State)
  {
    && Shape(st)
    && (forall h | 0 <= h < |st.handlers| :: GoodHandler(st, h))
    && (forall f, t | 0 <= f < |st.handlers| && 0 <= t < |st.handlers| :: GoodChannel(st, f, t))
    && (forall s, h | s in st.owners && 0 <= h < |st.handlers| :: WillKnow(st, s, h))
    && (forall s, v | s in st.owners && 0 <= v < |st.handlers| :: Accounted(st, s, v))
    && (forall s, p | s in st.delivered && p in st.delivered[s] :: p.session == s)
  }

  // ----- opening -----

  lemma OpenKeepsHandlers(st: State, h: nat, s: nat)
    requires Good(st) && h < |st.handlers| && s !in st.owners
    ensures forall i | 0 <= i < |st.handlers| :: GoodHandler(AfterOpen(st, h, s), i)
  {
    forall i | 0 <= i < |st.handlers| ensures GoodHandler(AfterOpen(st, h, s), i) {
      assert GoodHandler(st, i);
    }
  }

  lemma OpenKeepsChannels(st: State, h: nat, s: nat)
    requires Good(st) && h < |st.handlers| && s !in st.owners
    ensures forall f, t | 0 <= f < |st.handlers| && 0 <= t < |st.handlers| :: GoodChannel(AfterOpen(st, h, s), f, t)
  {
    var st' := AfterOpen(st, h, s);
    forall f, t | 0 <= f < |st.handlers| && 0 <= t < |st.handlers| ensures GoodChannel(st', f, t) {
      assert GoodChannel(st, f, t);
      forall e | e in st'.channels[f][t] ensures GoodEvent(st', f, t, e) {
        assert e in st.channels[f][t] ==> GoodEvent(st, f, t, e);
      }
    }
  }

  /** Nothing was ever said of a session that does not exist yet. */
  lemma {:induction false} UnheardOf(st: State, events: seq<Event>, f: nat, t: nat, s: nat, knows: bool)
    requires s !in st.owners && forall e | e in events :: GoodEvent(st, f, t, e)
    ensures KnowsAfter(knows, events, s) == knows && OnTheWay(events, s) == []
  {
    if |events| > 0 {
      UnheardOf(st, events[..|events| - 1], f, t, s, knows);
      assert events[|events| - 1] in events;
    }
  }

  lemma OpenKeepsWillKnow(st: State, h: nat, s: nat, s': nat, i: nat)
    requires Good(st) && h < |st.handlers| && s !in st.owners && i < |st.handlers| && s' in AfterOpen(st, h, s).owners
    ensures WillKnow(AfterOpen(st, h, s), s', i)
  {
    var st' := AfterOpen(st, h, s);
    assert GoodChannel(st, h, i) && GoodHandler(st, i) && GoodHandler(st, h);
    if s' == s {
      UnheardOf(st, st.channels[h][i], h, i, s, s in st.handlers[i].known);
      KnowsAfterOneMore(s in st.handlers[i].known, st.channels[h][i], NewSession(s, h), s);
    } else {
      assert WillKnow(st, s', i);
      KnowsAfterOneMore(s' in st.handlers[i].known, st.channels[h][i], NewSession(s, h), s');
    }
  }

  lemma OpenKeepsAccounts(st: State, h: nat, s: nat, s': nat, v: nat)
    requires Good(st) && h < |st.handlers| && s !in st.owners && v < |st.handlers| && s' in AfterOpen(st, h, s).owners
    ensures Accounted(AfterOpen(st, h, s), s', v)
  {
    var st' := AfterOpen(st, h, s);
    if s' == s {
      assert GoodChannel(st, v, h);
      UnheardOf(st, st.channels[v][h], v, h, s, false);
      OnTheWayOneMore(st.channels[v][h], NewSession(s, h), s);
      OfNone(st.accepted, s, v);
    } else {
      assert Accounted(st, s', v);
      OnTheWayOneMore(st.channels[v][st.owners[s']], NewSession(s, h), s');
    }
  }

  lemma OpenKeepsGood(st: State, h: nat, s: nat)
    requires Good(st) && h < |st.handlers| && s !in st.owners
    ensures Good(AfterOpen(st, h, s))
  {
    OpenKeepsHandlers(st, h, s);
    OpenKeepsChannels(st, h, s);
    var st' := AfterOpen(st, h, s);
    forall s', i | s' in st'.owners && 0 <= i < |st.handlers| ensures WillKnow(st', s', i) && Accounted(st', s', i) {
      OpenKeepsWillKnow(st, h, s, s', i);
      OpenKeepsAccounts(st, h, s, s', i);
    }
  }

  // ----- closing -----

  lemma CloseKeepsHandlers(st: State, h: nat, s: nat)
    requires Good(st) && h < |st.handlers| && s in st.handlers[h].serves
    ensures forall i | 0 <= i < |st.handlers| :: GoodHandler(AfterClose(st, h, s), i)
  {
    forall i | 0 <= i < |st.handlers| ensures GoodHandler(AfterClose(st, h, s), i) {
      assert GoodHandler(st, i);
    }
  }

  lemma CloseKeepsChannels(st: State, h: nat, s: nat)
    requires Good(st) && h < |st.handlers| && s in st.handlers[h].serves
    ensures forall f, t | 0 <= f < |st.handlers| && 0 <= t < |st.handlers| :: GoodChannel(AfterClose(st, h, s), f, t)
  {
    var st' := AfterClose(st, h, s);
    assert GoodHandler(st, h);
    forall f, t | 0 <= f < |st.handlers| && 0 <= t < |st.handlers| ensures GoodChannel(st', f, t) {
      assert GoodChannel(st, f, t);
      forall e | e in st'.channels[f][t] ensures GoodEvent(st', f, t, e) {
        assert e in st.channels[f][t] ==> GoodEvent(st, f, t, e);
      }
    }
  }

  lemma CloseKeepsWillKnow(st: State, h: nat, s: nat, s': nat, i: nat)
    requires Good(st) && h < |st.handlers| && s in st.handlers[h].serves && i < |st.handlers| && s' in st.owners
    ensures WillKnow(AfterClose(st, h, s), s', i)
  {
    assert WillKnow(st, s', i) && GoodHandler(st, i) && GoodHandler(st, h) && GoodChannel(st, h, h);
    KnowsAfterOneMore(s' in st.handlers[i].known, st.channels[h][i], EndSession(s), s');
  }

  lemma CloseKeepsAccounts(st: State, h: nat, s: nat, s': nat, v: nat)
    requires Good(st) && h < |st.handlers| && s in st.handlers[h].serves && v < |st.handlers| && s' in st.owners
    ensures Accounted(AfterClose(st, h, s), s', v)
  {
    assert Accounted(st, s', v) && GoodHandler(st, h);
    OnTheWayOneMore(st.channels[v][st.owners[s']], EndSession(s), s');
  }

  lemma CloseKeepsGood(st: State, h: nat, s: nat)
    requires Good(st) && h < |st.handlers| && s in st.handlers[h].serves
    ensures Good(AfterClose(st, h, s))
  {
    CloseKeepsHandlers(st, h, s);
    CloseKeepsChannels(st, h, s);
    var st' := AfterClose(st, h, s);
    forall s', i | s' in st.owners && 0 <= i < |st.handlers| ensures WillKnow(st', s', i) && Accounted(st', s', i) {
      CloseKeepsWillKnow(st, h, s, s', i);
      CloseKeepsAccounts(st, h, s, s', i);
    }
  }

  // ----- a push arrives -----

  lemma ArrivalKeepsGood(st: State, st': State, p: Push)
    requires Good(st) && p.via < |st.handlers| && Arrives(st, st', p)
    ensures Good(st')
  {
    var v, s := p.via, p.session;
    assert GoodHandler(st, v);
    if s in st.handlers[v].known {
      forall i | 0 <= i < |st.handlers| ensures GoodHandler(st', i) { assert GoodHandler(st, i); }
      forall f, t | 0 <= f < |st.handlers| && 0 <= t < |st.handlers| ensures GoodChannel(st', f, t) {
        assert GoodChannel(st, f, t);
        forall e | e in st'.channels[f][t] ensures GoodEvent(st', f, t, e) {
          assert e in st.channels[f][t] ==> GoodEvent(st, f, t, e);
        }
      }
      forall s', i | s' in st.owners && 0 <= i < |st.handlers| ensures WillKnow(st', s', i) && Accounted(st', s', i) {
        assert Accounted(st, s', i) && GoodChannel(st, v, v);
        ArrivalKeepsWillKnow(st, st', p, s', i);
        ArrivalKeepsAccounts(st, st', p, s', i);
      }
    }
  }

  lemma ArrivalKeepsWillKnow(st: State, st': State, p: Push, s': nat, i: nat)
    requires Good(st) && p.via < |st.handlers| && Arrives(st, st', p) && p.session in st.handlers[p.via].known
    requires s' in st.owners && i < |st.handlers|
    ensures WillKnow(st', s', i)
  {
    assert WillKnow(st, s', i);
    KnowsAfterOneMore(s' in st.handlers[i].known, st.channels[st.owners[s']][i], Forwarded(p), s');
  }

  /** The push reached the owner itself. */
  lemma OwnArrivalKeepsAccounts(st: State, p: Push, s': nat, v: nat)
    requires Shape(st) && p.session in st.owners && st.owners[p.session] == p.via && Live(st, p.session)
    requires s' in st.owners && v < |st.handlers| && Accounted(st, s', v) && st.channels[p.via][p.via] == []
    ensures Accounted(Delivered(st.(accepted := st.accepted + [p]), p), s', v)
  {
    OfOneMore(st.accepted, p, s', v);
    if s' == p.session {
      OfOneMore(st.delivered[s'], p, s', v);
      Shifted(Of(st.delivered[s'], s', v), p, []);
    }
  }

  /** The push is passed on to the owner. */
  lemma PassingOnKeepsAccounts(st: State, p: Push, s': nat, v: nat)
    requires Shape(st) && p.via < |st.handlers| && p.session in st.owners
    requires s' in st.owners && v < |st.handlers| && Accounted(st, s', v)
    ensures var st' := st.(accepted := st.accepted + [p], channels :=
                           Sent(st.channels, p.via, st.owners[p.session], Forwarded(p)));
            Accounted(st', s', v)
  {
    OfOneMore(st.accepted, p, s', v);
    OnTheWayOneMore(st.channels[v][st.owners[s']], Forwarded(p), s');
    assert v != p.via || p.session != s' ==>
        OnTheWay(Sent(st.channels, p.via, st.owners[p.session], Forwarded(p))[v][st.owners[s']], s')
        == OnTheWay(st.channels[v][st.owners[s']], s');
  }

  lemma ArrivalKeepsAccounts(st: State, st': State, p: Push, s': nat, v: nat)
    requires Shape(st) && p.via < |st.handlers| && Arrives(st, st', p) && p.session in st.handlers[p.via].known
    requires s' in st.owners && v < |st.handlers| && Accounted(st, s', v)
    requires GoodHandler(st, p.via) && st.channels[p.via][p.via] == []
    ensures Accounted(st', s', v)
  {
    if st.handlers[p.via].known[p.session] == p.via {
      OwnArrivalKeepsAccounts(st, p, s', v);
    } else {
      PassingOnKeepsAccounts(st, p, s', v);
    }
  }

  // ----- a message is read -----

  lemma ReadKeepsHandlers(st: State, st': State, h: nat, from: nat)
    requires Good(st) && h < |st.handlers| && from < |st.handlers| && Reads(st, st', h, from)
    ensures forall i | 0 <= i < |st.handlers| :: GoodHandler(st', i)
  {
    assert GoodChannel(st, from, h) && GoodEvent(st, from, h, st.channels[from][h][0]);
    forall i | 0 <= i < |st.handlers| ensures GoodHandler(st', i) {
      assert GoodHandler(st, i);
    }
  }

  lemma ReadKeepsChannels(st: State, st': State, h: nat, from: nat)
    requires Good(st) && h < |st.handlers| && from < |st.handlers| && Reads(st, st', h, from)
    ensures forall f, t | 0 <= f < |st.handlers| && 0 <= t < |st.handlers| :: GoodChannel(st', f, t)
  {
    forall f, t | 0 <= f < |st.handlers| && 0 <= t < |st.handlers| ensures GoodChannel(st', f, t) {
      assert GoodChannel(st, f, t);
      forall e | e in st'.channels[f][t] ensures GoodEvent(st', f, t, e) {
        assert e in st.channels[f][t] && GoodEvent(st, f, t, e);
      }
    }
  }

  lemma ReadKeepsWillKnow(st: State, st': State, h: nat, from: nat, s: nat, i: nat)
    requires Good(st) && h < |st.handlers| && from < |st.handlers| && Reads(st, st', h, from) && s in st.owners
             && i < |st.handlers|
    ensures WillKnow(st', s, i)
  {
    var events := st.channels[from][h];
    assert WillKnow(st, s, i) && GoodChannel(st, from, h) && GoodEvent(st, from, h, events[0]);
    KnowsAfterFirst(s in st.handlers[h].known, events, s);
  }

  lemma OnTheWayAfterTaking(channels: Channels, from: nat, to: nat, f: nat, t: nat, s: nat)
    requires Square(channels, |channels|) && from < |channels| && to < |channels| && f < |channels| && t < |channels|
    requires channels[from][to] != []
    ensures var first := if f == from && t == to then PushOf(channels[from][to][0], s) else [];
            OnTheWay(channels[f][t], s) == first + OnTheWay(Taken(channels, from, to)[f][t], s)
  {
    if f == from && t == to { OnTheWayFirst(channels[f][t], s); }
  }

  /** The message was no push, or a push for a session that is over. */
  lemma TakingKeepsAccounts(st: State, st': State, h: nat, from: nat, s: nat, v: nat)
    requires Shape(st) && h < |st.handlers| && from < |st.handlers| && s in st.owners && v < |st.handlers|
             && Accounted(st, s, v)
    requires st.channels[from][h] != [] && (Live(st, s) ==> PushOf(st.channels[from][h][0], s) == [])
    requires Shape(st') && st'.channels == Taken(st.channels, from, h) && st'.accepted == st.accepted
             && st'.delivered == st.delivered
    requires st'.owners == st.owners && |st'.handlers| == |st.handlers| && Live(st', s) == Live(st, s)
    ensures Accounted(st', s, v)
  {
    OnTheWayAfterTaking(st.channels, from, h, v, st.owners[s], s);
  }

  /** The push goes from the front of the channel to the end of the session's queue. */
  lemma DeliveryKeepsAccounts(st: State, p: Push, h: nat, s: nat, v: nat)
    requires Shape(st) && h < |st.handlers| && p.via < |st.handlers| && s in st.owners && v < |st.handlers|
             && Accounted(st, s, v)
    requires st.channels[p.via][h] != [] && st.channels[p.via][h][0] == Forwarded(p)
    requires p.session in st.owners && st.owners[p.session] == h && Live(st, p.session)
    ensures Accounted(Delivered(st.(channels := Taken(st.channels, p.via, h)), p), s, v)
  {
    OnTheWayAfterTaking(st.channels, p.via, h, v, st.owners[s], s);
    if s == p.session {
      OfOneMore(st.delivered[s], p, s, v);
      Shifted(Of(st.delivered[s], s, v), p, OnTheWay(Taken(st.channels, p.via, h)[v][h], s));
    }
  }

  lemma ReadKeepsAccounts(st: State, st': State, h: nat, from: nat, s: nat, v: nat)
    requires Good(st) && h < |st.handlers| && from < |st.handlers| && Reads(st, st', h, from) && s in st.owners
             && v < |st.handlers|
    ensures Accounted(st', s, v)
  {
    var e := st.channels[from][h][0];
    assert Accounted(st, s, v) && GoodHandler(st, h) && GoodChannel(st, from, h) && GoodEvent(st, from, h, e);
    if e.Forwarded? && e.push.session in st.handlers[h].serves {
      DeliveryKeepsAccounts(st, e.push, h, s, v);
    } else {
      TakingKeepsAccounts(st, st', h, from, s, v);
    }
  }

  lemma ReadKeepsGood(st: State, st': State, h: nat, from: nat)
    requires Good(st) && h < |st.handlers| && from < |st.handlers| && Reads(st, st', h, from)
    ensures Good(st')
  {
    assert GoodChannel(st, from, h) && GoodEvent(st, from, h, st.channels[from][h][0]);
    ReadKeepsHandlers(st, st', h, from);
    ReadKeepsChannels(st, st', h, from);
    forall s, i | s in st.owners && 0 <= i < |st.handlers| ensures WillKnow(st', s, i) && Accounted(st', s, i) {
      ReadKeepsWillKnow(st, st', h, from, s, i);
      ReadKeepsAccounts(st, st', h, from, s, i);
    }
  }

  // ----- every run -----

  lemma StartIsGood(n: nat)
    ensures Good(Start(n))
  {
  }

  lemma StepKeepsGood(st: State, st': State)
    requires Good(st) && Step(st, st')
    ensures Good(st')
  {
    var h: nat :| h < |st.handlers| && StepOf(st, st', h);
    if s: nat :| s !in st.owners && st' == AfterOpen(st, h, s) {
      OpenKeepsGood(st, h, s);
    } else if s: nat :| s in st.handlers[h].serves && st' == AfterClose(st, h, s) {
      CloseKeepsGood(st, h, s);
    } else if p: Push :| p.via == h && Arrives(st, st', p) {
      ArrivalKeepsGood(st, st', p);
    } else {
      var from: nat :| from < |st.handlers| && Reads(st, st', h, from);
      ReadKeepsGood(st, st', h, from);
    }
  }

  lemma {:induction false} EveryRunIsGood(run: seq<State>, n: nat)
    requires IsRun(run, n)
    ensures Good(run[|run| - 1])
  {
    var k := |run| - 1;
    if k == 0 {
      StartIsGood(n);
    } else {
      EveryRunIsGood(run[..k], n);
      StepKeepsGood(run[k - 1], run[k]);
    }
  }

  // ----- what this means -----

  /** Of the pushes for a live session that any one handler has accepted, the session's queue got a first part, each
      push once and in order, and the rest is on its way to the owner: none is lost, doubled or overtaken. */
  lemma NoPushIsLost(run: seq<State>, n: nat, s: nat, v: nat)
    requires IsRun(run, n) && Live(run[|run| - 1], s) && v < |run[|run| - 1].handlers|
    ensures var st := run[|run| - 1];
            && Square(st.channels, |st.handlers|) && s in st.delivered
            && Of(st.accepted, s, v) == Of(st.delivered[s], s, v) + OnTheWay(st.channels[v][st.owners[s]], s)
  {
    EveryRunIsGood(run, n);
    assert Accounted(run[|run| - 1], s, v);
  }

  /** The queue of a session gets no push for another session, and none that no handler has accepted; also after its
      end. */
  lemma NoPushIsMisled(run: seq<State>, n: nat, s: nat, v: nat)
    requires IsRun(run, n) && s in run[|run| - 1].delivered && v < |run[|run| - 1].handlers|
    ensures var st := run[|run| - 1];
            && (forall p | p in st.delivered[s] :: p.session == s)
            && Of(st.delivered[s], s, v) <= Of(st.accepted, s, v)
  {
    EveryRunIsGood(run, n);
    assert Accounted(run[|run| - 1], s, v);
  }

  /** A handler that has read all messages of a session's owner knows of the session exactly as long as it lives, and
      knows the right owner. The owner itself always does. */
  lemma KnownOnceRead(run: seq<State>, n: nat, s: nat, h: nat)
    requires IsRun(run, n) && s in run[|run| - 1].owners && h < |run[|run| - 1].handlers|
    ensures var st := run[|run| - 1];
            && Square(st.channels, |st.handlers|) && st.owners[s] < |st.handlers|
            && (st.channels[st.owners[s]][h] == [] ==> (s in st.handlers[h].known <==> Live(st, s)))
            && (s in st.handlers[h].known ==> st.handlers[h].known[s] == st.owners[s])
            && (h == st.owners[s] ==> (s in st.handlers[h].known <==> s in st.handlers[h].serves))
  {
    EveryRunIsGood(run, n);
    assert WillKnow(run[|run| - 1], s, h) && GoodHandler(run[|run| - 1], h);
  }

  /** A push is ignored only by a handler that has not heard of the session yet, with the news on their way, or when the
      session is over. */
  lemma IgnoredOnlyBeforeTheNews(run: seq<State>, n: nat, s: nat, h: nat)
    requires IsRun(run, n) && Live(run[|run| - 1], s) && h < |run[|run| - 1].handlers|
             && s !in run[|run| - 1].handlers[h].known
    ensures var st := run[|run| - 1];
            Square(st.channels, |st.handlers|) && NewSession(s, st.owners[s]) in st.channels[st.owners[s]][h]
  {
    var st := run[|run| - 1];
    EveryRunIsGood(run, n);
    assert WillKnow(st, s, h) && GoodChannel(st, st.owners[s], h);
    LearntFrom(st.channels[st.owners[s]][h], s);
    var e :| e in st.channels[st.owners[s]][h] && e.NewSession? && e.session == s;
    assert GoodEvent(st, st.owners[s], h, e);
  }

  lemma {:induction false} LearntFrom(events: seq<Event>, s: nat)
    requires KnowsAfter(false, events, s)
    ensures exists e :: e in events && e.NewSession? && e.session == s
  {
    var n := |events| - 1;
    if events[n].NewSession? && events[n].session == s {
      assert events[n] in events;
    } else {
      LearntFrom(events[..n], s);
      var e :| e in events[..n] && e.NewSession? && e.session == s;
      assert e in events;
    }
  }

  /** A push that arrives can always be dealt with: no queue is looked up that is not there. */
  lemma ArrivalsNeverFail(run: seq<State>, n: nat, p: Push)
    requires IsRun(run, n) && p.via < |run[|run| - 1].handlers|
    ensures var st := run[|run| - 1];
            Square(st.channels, |st.handlers|) && exists st' :: Arrives(st, st', p)
  {
    var st := run[|run| - 1];
    EveryRunIsGood(run, n);
    var me, taken := st.handlers[p.via], st.(accepted := st.accepted + [p]);
    assert GoodHandler(st, p.via);
    if p.session !in me.known {
      assert Arrives(st, st, p);
    } else if me.known[p.session] == p.via {
      assert p.session in me.serves && Arrives(st, Delivered(taken, p), p);
    } else {
      assert Arrives(st, taken.(channels := Sent(st.channels, p.via, me.known[p.session], Forwarded(p))), p);
    }
  }

  /** A push for a session that the handler knows is not dropped: it joins the session's queue, if the session is the
      handler's own, or is on its way to the owner. A push for any other session changes nothing. */
  lemma KnownPushIsKept(run: seq<State>, n: nat, st': State, p: Push)
    requires IsRun(run, n) && p.via < |run[|run| - 1].handlers|
    requires var st := run[|run| - 1]; Square(st.channels, |st.handlers|) && Arrives(st, st', p)
    ensures var st := run[|run| - 1];
            var known := st.handlers[p.via].known;
            && (p.session !in known ==> st' == st)
            && (p.session in known ==>
                  && p.session in st.owners && known[p.session] == st.owners[p.session] < |st.handlers|
                  && st'.accepted == st.accepted + [p] && st'.handlers == st.handlers && st'.owners == st.owners)
            && (p.session in known && st.owners[p.session] == p.via ==>
                  && p.session in st.delivered && st'.channels == st.channels
                  && st'.delivered == st.delivered[p.session := st.delivered[p.session] + [p]])
            && (p.session in known && st.owners[p.session] != p.via ==>
                  && st'.delivered == st.delivered && |st'.channels| == |st.channels|
                  && |st'.channels[p.via]| == |st.handlers|
                  && st'.channels[p.via][st.owners[p.session]]
                     == st.channels[p.via][st.owners[p.session]] + [Forwarded(p)])
  {
    EveryRunIsGood(run, n);
    assert GoodHandler(run[|run| - 1], p.via);
  }

  /** A push that was passed on joins the queue as long as the session lives. */
  lemma PassedOnIsQueued(run: seq<State>, n: nat, st': State, h: nat, from: nat, p: Push)
    requires IsRun(run, n) && h < |run[|run| - 1].handlers| && from < |run[|run| - 1].handlers|
    requires var st := run[|run| - 1];
             && Square(st.channels, |st.handlers|) && st.channels[from][h] != []
             && st.channels[from][h][0] == Forwarded(p) && Reads(st, st', h, from)
    ensures var st := run[|run| - 1];
            && st'.channels[from][h] == st.channels[from][h][1..] && st'.handlers == st.handlers
            && (if Live(st, p.session) then p.session in st.delivered
                  && st'.delivered == st.delivered[p.session := st.delivered[p.session] + [p]]
                else st'.delivered == st.delivered)
  {
    var st := run[|run| - 1];
    EveryRunIsGood(run, n);
    assert GoodHandler(st, h) && GoodChannel(st, from, h) && GoodEvent(st, from, h, st.channels[from][h][0]);
  }
}
