/** Safety of the ring of utils/MPSCRingBuffer.h over every interleaving, with the exact condition. A swap
    won on a full ring is not yet a failure: while the consumer is inside `get` it may still give a slot
    back before the winner makes its late test. */
module RingSafety {
  import opened RingProtocol

  /** Exactly one swap too many is won and its winner has not made the late test: s is what the win of
      thread p makes of a sound state u. */
  ghost predicate Ahead(s: Ring, u: Ring, p: nat) {
    Inv(u) && WinsOnFull(u, Move(p)) && s == MoveProducer(u, p)
  }

  ghost predicate Safe(s: Ring) {
    Inv(s) || exists u, p :: Ahead(s, u, p)
  }

  /** The harm is done when all slots are outstanding and the late test is made and fires, or one more
      swap is won. */
  predicate Harm(s: Ring, a: Action)
    requires WellSized(s)
  {
    && a.Move? && Outstanding(s) == s.size
    && var t := Thread(s, a.p);
       (t.Won? && Next(s, t.oldTail) == s.head) || (t.Loaded? && t.oldTail == s.tail)
  }

  lemma AheadFacts(s: Ring, u: Ring, p: nat)
    requires Ahead(s, u, p)
    ensures WellSized(s) && WellSized(u) && Outstanding(s) == s.size && s.head == s.tail && s.lateFull == 0
    ensures s == u.(producers := s.producers, tail := s.tail, won := s.won)
    ensures s.producers == u.producers[p := s.producers[p]] && s.producers[p].Won?
    ensures Thread(u, p).Loaded? && p in u.producers && Thread(u, p).oldTail == u.tail
    ensures s.won == u.won + [Thread(u, p).item] && s.got == u.got && s.got <= s.won
    ensures s.producers[p] == Won(Thread(u, p).item, u.tail, |u.won|) && Next(s, u.tail) == s.head
  {
    FullWinLooksEmpty(u, p);
  }

  lemma SafeIsSized(s: Ring)
    requires Safe(s)
    ensures WellSized(s)
  {
    if !Inv(s) {
      var u, p :| Ahead(s, u, p);
      AheadFacts(s, u, p);
    }
  }

  /** The same step before the win that was too many. */
  lemma AheadAfter(s: Ring, u: Ring, p: nat, s': Ring, u': Ring)
    requires Ahead(s, u, p) && Inv(u')
    requires u' == u.(producers := u'.producers, cells := u'.cells, consumer := u'.consumer)
    requires p in u'.producers && u'.producers[p] == u.producers[p]
    requires s' == s.(producers := u'.producers[p := s.producers[p]], cells := u'.cells, consumer := u'.consumer)
    ensures Ahead(s', u', p)
  {
    hide Inv;
    AheadFacts(s, u, p);
    InvIsSized(u');
    assert u'.producers[p := s.producers[p]] == s'.producers;
  }

  lemma GotoAhead(s: Ring, u: Ring, p: nat, q: nat, at: Producer)
    requires Ahead(s, u, p) && q != p
    requires !Thread(s, q).Won? && !Thread(s, q).Writing? && !at.Won? && !at.Writing?
    requires at.Idle? || |at.item| == s.width
    requires at.Loaded? || at.Reloaded? ==> at.oldTail < s.size
    ensures Ahead(Goto(s, q, at), Goto(u, q, at), p)
  {
    AheadFacts(s, u, p);
    assert Thread(u, q) == Thread(s, q);
    GotoKeepsInv(u, q, at);
    assert u.producers[q := at][p := s.producers[p]] == s.producers[q := at];
    AheadAfter(s, u, p, Goto(s, q, at), Goto(u, q, at));
  }

  /** A step of another thread that holds a ticket. */
  lemma HolderAhead(s: Ring, u: Ring, p: nat, q: nat)
    requires Ahead(s, u, p) && q != p && (Thread(s, q).Won? || Thread(s, q).Writing?)
    ensures WellSized(s) && !Harm(s, Move(q))
    ensures WellSized(u) && Ahead(MoveProducer(s, q), MoveProducer(u, q), p)
  {
    AheadFacts(s, u, p);
    assert Thread(u, q) == Thread(s, q);
    if Thread(u, q).Won? {
      LateTestPasses(u, q);
      PassKeepsInv(u, q);
    } else if Thread(u, q).done < u.width {
      WriteKeepsInv(u, q);
    } else {
      PublishKeepsInv(u, q);
    }
    var at := MoveProducer(u, q).producers[q];
    assert u.producers[q := at][p := s.producers[p]] == s.producers[q := at];
    AheadAfter(s, u, p, MoveProducer(s, q), MoveProducer(u, q));
  }

  lemma ProducerAhead(s: Ring, u: Ring, p: nat, q: nat)
    requires Ahead(s, u, p)
    ensures WellSized(s)
    ensures Safe(MoveProducer(s, q)) <==> !Harm(s, Move(q))
  {
    AheadFacts(s, u, p);
    if Harm(s, Move(q)) {
      HarmShows(s, Move(q));
      UnsafeShows(MoveProducer(s, q));
    } else if q != p {
      match Thread(s, q)
      case Idle =>
      case Loaded(item, _) => ThreadFits(s, q); GotoAhead(s, u, p, q, Lost(item));
      case Lost(item) => ThreadFits(s, q); GotoAhead(s, u, p, q, Reloaded(item, s.tail));
      case Reloaded(item, from) =>
        ThreadFits(s, q);
        GotoAhead(s, u, p, q, if Next(s, from) == s.head then Idle else Loaded(item, from));
      case Won(_, _, _) => HolderAhead(s, u, p, q);
      case Writing(_, _, _, _) => HolderAhead(s, u, p, q);
    }
  }

  lemma ThreadFits(s: Ring, q: nat)
    requires WellSized(s)
    ensures !Thread(s, q).Idle? ==> |Thread(s, q).item| == s.width
    ensures Thread(s, q).Reloaded? ==> Thread(s, q).oldTail < s.size
  {
  }

  lemma ConsumerAhead(s: Ring, u: Ring, p: nat)
    requires Ahead(s, u, p)
    ensures WellSized(s) && Safe(MoveConsumer(s))
  {
    AheadFacts(s, u, p);
    if s.consumer.Resting? {
    } else if s.consumer.Cleared? {
      AdvanceAfterFullWin(u, p);
    } else {
      if s.consumer.Checked? {
        PeekKeepsInv(u);
      } else if |s.consumer.out| < s.width {
        CopyKeepsInv(u);
      } else {
        CopyingFits(u);
        ClearKeepsInv(u);
      }
      AheadAfter(s, u, p, MoveConsumer(s), MoveConsumer(u));
    }
  }

  lemma CopyingFits(u: Ring)
    requires Inv(u) && u.consumer.Copying?
    ensures |u.consumer.out| <= u.width
  {
  }

  /** What can be seen of a harm: a reported overflow after the tail was moved, or more slots
      outstanding than there are. */
  lemma HarmShows(s: Ring, a: Action)
    requires WellSized(s) && Harm(s, a)
    ensures var r := Step(s, a); r.lateFull == s.lateFull + 1 || Outstanding(r) == r.size + 1
  {
  }

  lemma UnsafeShows(s: Ring)
    requires s.lateFull != 0 || Outstanding(s) > s.size
    ensures !Safe(s)
  {
    if Safe(s) && !Inv(s) {
      var u, p :| Ahead(s, u, p);
      AheadFacts(s, u, p);
    }
  }

  /** In a safe state what was got is what was won, in order, and no overflow was reported late. */
  lemma SafeMeans(s: Ring)
    requires Safe(s)
    ensures s.got <= s.won && s.lateFull == 0 && Outstanding(s) <= s.size
  {
    if !Inv(s) {
      var u, p :| Ahead(s, u, p);
      AheadFacts(s, u, p);
    }
  }

  /** Exact condition of a step: it leads to a safe state if and only if it does not do the harm. */
  lemma StepIsSafe(s: Ring, a: Action)
    requires Safe(s)
    ensures WellSized(s) && (Safe(Step(s, a)) <==> !Harm(s, a))
  {
    hide Safe;
    SafeIsSized(s);
    if Inv(s) {
      InvStepIsSafe(s, a);
    } else {
      SafeIsAhead(s);
      var u, p :| Ahead(s, u, p);
      match a
      case Begin(q, item) => BeginAhead(s, u, p, q, item);
      case Move(q) => ProducerAhead(s, u, p, q);
      case Consume => ConsumerAhead(s, u, p);
    }
  }

  lemma SafeIsAhead(s: Ring)
    requires Safe(s) && !Inv(s)
    ensures exists u, p :: Ahead(s, u, p)
  {
  }

  lemma InvStepIsSafe(s: Ring, a: Action)
    requires Inv(s)
    ensures WellSized(s) && Safe(Step(s, a)) && !Harm(s, a)
  {
    InvIsSized(s);
    if WinsOnFull(s, a) {
      assert Ahead(Step(s, a), s, a.p);
    } else {
      StepKeepsInv(s, a);
    }
  }

  lemma BeginAhead(s: Ring, u: Ring, p: nat, q: nat, item: Item)
    requires Ahead(s, u, p)
    ensures WellSized(s) && Safe(Step(s, Begin(q, item)))
  {
    AheadFacts(s, u, p);
    if Thread(s, q).Idle? && |item| == s.width { GotoAhead(s, u, p, q, Loaded(item, s.tail)); }
  }

  // ----- runs

  /** No step of the run does the harm. */
  predicate NeverHarms(s: Ring, acts: seq<Action>)
    requires WellSized(s)
    decreases |acts|
  {
    acts == [] || (!Harm(s, acts[0]) && (StepKeepsSizes(s, acts[0]); NeverHarms(Step(s, acts[0]), acts[1..])))
  }

  /** In no state of the run an overflow was reported late or more slots than there are are outstanding. */
  predicate NothingShows(s: Ring, acts: seq<Action>)
    requires WellSized(s)
    decreases |acts|
  {
    && s.lateFull == 0 && Outstanding(s) <= s.size
    && (acts == [] || (StepKeepsSizes(s, acts[0]); NothingShows(Step(s, acts[0]), acts[1..])))
  }

  lemma {:induction false} RunIsSafe(s: Ring, acts: seq<Action>)
    requires Safe(s) && WellSized(s) && NeverHarms(s, acts)
    ensures Safe(Run(s, acts))
    decreases |acts|
  {
    hide Safe, Harm, Step, WellSized;
    if acts != [] {
      StepIsSafe(s, acts[0]);
      StepKeepsSizes(s, acts[0]);
      RunIsSafe(Step(s, acts[0]), acts[1..]);
    }
  }

  /** Exact condition of a run: no step does the harm if and only if no state shows it. */
  lemma {:induction false} HarmExactly(s: Ring, acts: seq<Action>)
    requires Safe(s) && WellSized(s)
    ensures NeverHarms(s, acts) <==> NothingShows(s, acts)
    decreases |acts|
  {
    hide Safe, Harm, Step, WellSized;
    SafeMeans(s);
    if acts != [] {
      StepIsSafe(s, acts[0]);
      StepKeepsSizes(s, acts[0]);
      var r := Step(s, acts[0]);
      if Harm(s, acts[0]) {
        HarmShows(s, acts[0]);
        ShownAtStart(r, acts[1..]);
      } else {
        HarmExactly(r, acts[1..]);
      }
    }
  }

  lemma ShownAtStart(s: Ring, acts: seq<Action>)
    requires WellSized(s) && (s.lateFull != 0 || Outstanding(s) > s.size)
    ensures !NothingShows(s, acts)
  {
  }

  /** Runs without any full win are among them. */
  lemma {:induction false} NoFullWinIsHarmless(s: Ring, acts: seq<Action>)
    requires Inv(s) && NeverWinsOnFull(s, acts)
    ensures WellSized(s) && NeverHarms(s, acts)
    decreases |acts|
  {
    hide Inv, Harm, Step, WellSized, WinsOnFull;
    InvIsSized(s);
    if acts != [] {
      InvStepIsSafe(s, acts[0]);
      StepKeepsInv(s, acts[0]);
      NoFullWinIsHarmless(Step(s, acts[0]), acts[1..]);
    }
  }

  /** Safety over all interleavings in which no harm is done, full wins or not: what `get` returned is a
      prefix of the items in swap order, word for word, and `put` never reports an overflow after it
      moved the tail. */
  lemma FifoSafety(size: nat, width: nat, acts: seq<Action>)
    requires 0 < size && (InitInv(size, width); NeverHarms(Init(size, width), acts))
    ensures var r := (InitInv(size, width); Run(Init(size, width), acts));
            r.got <= r.won && r.lateFull == 0
  {
    InitInv(size, width);
    RunIsSafe(Init(size, width), acts);
    SafeMeans(Run(Init(size, width), acts));
  }

  lemma SafeIsExclusive(s: Ring, t: nat)
    requires Safe(s)
    ensures WellSized(s) && Exclusive(s, t)
  {
    SafeIsSized(s);
    if Inv(s) {
      InvIsExclusive(s, t);
    } else {
      var u, p :| Ahead(s, u, p);
      AheadFacts(s, u, p);
      InvIsExclusive(u, t);
      var n := |u.won|;
      assert forall q: nat, t': nat :: Holds(s, q, t') <==> Holds(u, q, t') || (q == p && t' == n);
      assert forall t': nat :: Held(s, t') <==> Held(u, t') || t' == n by { assert Holds(s, p, n); }
      if t == n { InvIsExclusive(u, n); }
    }
  }

  /** In every state such a run reaches every slot has at most one user. */
  lemma ExclusiveSlots(size: nat, width: nat, acts: seq<Action>, t: nat)
    requires 0 < size && (InitInv(size, width); NeverHarms(Init(size, width), acts))
    ensures (InitInv(size, width); Exclusive(Run(Init(size, width), acts), t))
  {
    InitInv(size, width);
    RunIsSafe(Init(size, width), acts);
    SafeIsExclusive(Run(Init(size, width), acts), t);
  }

  // ----- full wins that do no harm

  /** A full win at any time while `get` copies an item or gives its slot back does no harm when `get` is
      done before the winner makes its late test. */
  lemma {:induction false} FullWinDuringGet(u: Ring, p: nat) returns (n: nat)
    requires Inv(u) && WinsOnFull(u, Move(p)) && (u.consumer.Copying? || u.consumer.Cleared?)
    ensures WellSized(MoveProducer(u, p)) && Inv(Run(MoveProducer(u, p), Times(Consume, n)))
    ensures n == if u.consumer.Cleared? then 1 else u.width - |u.consumer.out| + 2
    decreases if u.consumer.Cleared? then 0 else u.width - |u.consumer.out| + 1
  {
    var s := MoveProducer(u, p);
    assert Ahead(s, u, p);
    AheadFacts(s, u, p);
    if u.consumer.Cleared? {
      n := 1;
      AdvanceAfterFullWin(u, p);
      assert Times(Consume, 1)[1..] == [] && Times(Consume, 1)[0] == Consume;
      assert Run(MoveConsumer(s), []) == MoveConsumer(s);
    } else {
      CopyingFits(u);
      if |u.consumer.out| < u.width { CopyKeepsInv(u); } else { ClearKeepsInv(u); }
      var u' := MoveConsumer(u);
      AheadAfter(s, u, p, MoveConsumer(s), u');
      var m := FullWinDuringGet(u', p);
      n := m + 1;
      assert Times(Consume, n)[1..] == Times(Consume, m);
    }
  }
}
