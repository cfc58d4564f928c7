/** The retry loop of `put` in utils/MPSCRingBuffer.h: a swap fails only when another thread has won one, and
    a thread that has lost a swap goes on until its item is published or the ring is full. */
module RingRetry {
  import opened RingProtocol

  // ----- what other threads can do to a thread between two of its steps

  predicate OfOthers(p: nat, acts: seq<Action>) {
    forall i :: 0 <= i < |acts| ==> acts[i].Consume? || acts[i].p != p
  }

  lemma OtherStep(s: Ring, p: nat, a: Action)
    requires WellSized(s) && (a.Consume? || a.p != p)
    ensures var r := Step(s, a);
            && WellSized(r) && Thread(r, p) == Thread(s, p)
            && s.won <= r.won && (|r.won| == |s.won| ==> r.tail == s.tail)
  {
    StepKeepsSizes(s, a);
  }

  /** Steps of others leave a thread where it is, and the tail moves only when a swap is won. */
  lemma {:induction false} OtherSteps(s: Ring, p: nat, acts: seq<Action>)
    requires WellSized(s) && OfOthers(p, acts)
    ensures var r := Run(s, acts);
            Thread(r, p) == Thread(s, p) && s.won <= r.won && (|r.won| == |s.won| ==> r.tail == s.tail)
    decreases |acts|
  {
    hide Step, WellSized, Thread;
    if acts != [] {
      OtherStep(s, p, acts[0]);
      OtherSteps(Step(s, acts[0]), p, acts[1..]);
    }
  }

  /** Lock freedom: a thread that has just read the tail wins its swap, whatever the others do in the
      meantime, unless the tail has moved, and then another thread has won one. */
  lemma SwapFailsExactly(s: Ring, p: nat, acts: seq<Action>)
    requires WellSized(s) && OfOthers(p, acts) && Thread(s, p).Loaded? && Thread(s, p).oldTail == s.tail
    ensures var r := Run(s, acts);
            var next := MoveProducer(r, p);
            && (if r.tail == s.tail then next.won == r.won + [Thread(s, p).item] && Thread(next, p).Won?
                else next.won == r.won && Thread(next, p) == Lost(Thread(s, p).item))
            && (r.tail != s.tail ==> |r.won| > |s.won|)
  {
    OtherSteps(s, p, acts);
  }

  /** A thread that has lost a swap reads the tail again and gives up exactly when the ring is full by
      that tail at the time of its test; otherwise it tries to swap the tail it has read. */
  lemma RetryTurn(s: Ring, p: nat, acts: seq<Action>)
    requires WellSized(s) && OfOthers(p, acts) && Thread(s, p).Lost?
    ensures WellSized(MoveProducer(s, p))
    ensures var r := Run(MoveProducer(s, p), acts);
            Thread(MoveProducer(r, p), p)
            == if Next(s, s.tail) == r.head then Idle else Loaded(Thread(s, p).item, s.tail)
  {
    ProducerKeepsSizes(s, p);
    OtherSteps(MoveProducer(s, p), p, acts);
  }

  // ----- a thread left alone finishes

  /** What a call leaves behind when it has published its item. */
  ghost predicate Published(s: Ring, p: nat, r: Ring, won: seq<Item>) {
    Inv(r) && r.producers == s.producers[p := Idle] && r.won == won && r.got == s.got && r.consumer == s.consumer
  }

  lemma Moves(s: Ring, p: nat, n: nat)
    requires Inv(s)
    ensures WellSized(s) && WellSized(MoveProducer(s, p))
    ensures Run(s, Times(Move(p), n + 1)) == Run(MoveProducer(s, p), Times(Move(p), n))
    ensures !WinsOnFull(s, Move(p)) ==>
              (NeverWinsOnFull(s, Times(Move(p), n + 1)) <==> NeverWinsOnFull(MoveProducer(s, p), Times(Move(p), n)))
  {
    InvIsSized(s);
    StepKeepsSizes(s, Move(p));
    assert Times(Move(p), n + 1)[1..] == Times(Move(p), n);
  }

  lemma WonPublishes(s: Ring, p: nat)
    requires Inv(s) && Thread(s, p).Won?
    ensures var acts := Times(Move(p), s.width + 2);
            NeverWinsOnFull(s, acts) && Published(s, p, Run(s, acts), s.won)
  {
    hide Inv, WellSized;
    InvIsSized(s);
    LateTestPasses(s, p);
    PassKeepsInv(s, p);
    Passed(s, p);
    Moves(s, p, s.width + 1);
    WriteRest(MoveProducer(s, p), p, s.width);
  }

  lemma Passed(s: Ring, p: nat)
    requires WellSized(s) && Thread(s, p).Won? && Next(s, Thread(s, p).oldTail) != s.head
    ensures var r := MoveProducer(s, p);
            && Thread(r, p).Writing? && Thread(r, p).done == 0 && r.won == s.won && r.width == s.width
            && r.got == s.got && r.consumer == s.consumer && r.producers == s.producers[p := Thread(r, p)]
    ensures !WinsOnFull(s, Move(p))
  {
  }

  lemma SwapPublishes(s: Ring, p: nat)
    requires Inv(s) && Thread(s, p).Loaded? && Thread(s, p).oldTail == s.tail && Outstanding(s) < s.size - 1
    ensures var acts := Times(Move(p), s.width + 3);
            NeverWinsOnFull(s, acts) && Published(s, p, Run(s, acts), s.won + [Thread(s, p).item])
  {
    hide Inv, WellSized;
    InvIsSized(s);
    WinKeepsInv(s, p);
    WonWithRoom(s, p);
    Moves(s, p, s.width + 2);
    WonPublishes(MoveProducer(s, p), p);
  }

  lemma WonWithRoom(s: Ring, p: nat)
    requires WellSized(s) && Thread(s, p).Loaded? && Thread(s, p).oldTail == s.tail && Outstanding(s) < s.size - 1
    ensures var r := MoveProducer(s, p);
            && Thread(r, p).Won? && r.won == s.won + [Thread(s, p).item] && r.width == s.width
            && r.got == s.got && r.consumer == s.consumer && r.producers == s.producers[p := Thread(r, p)]
    ensures !WinsOnFull(s, Move(p))
  {
  }

  /** On a ring with room, a thread that has lost a swap and is left alone publishes its item. */
  lemma RetryPublishes(s: Ring, p: nat)
    requires Inv(s) && Thread(s, p).Lost? && Outstanding(s) < s.size - 1
    ensures var acts := Times(Move(p), s.width + 5);
            NeverWinsOnFull(s, acts) && Published(s, p, Run(s, acts), s.won + [Thread(s, p).item])
  {
    hide Inv, WellSized;
    InvIsSized(s);
    ThreadSized(s, p);
    var item := Thread(s, p).item;
    var s1 := MoveProducer(s, p);
    GotoKeepsInv(s, p, Reloaded(item, s.tail));
    Moves(s, p, s.width + 4);
    RetryTestExact(s1, p);
    var s2 := MoveProducer(s1, p);
    GotoKeepsInv(s1, p, Loaded(item, s.tail));
    Moves(s1, p, s.width + 3);
    SwapPublishes(s2, p);
  }

  lemma ThreadSized(s: Ring, p: nat)
    requires WellSized(s)
    ensures Thread(s, p).Lost? ==> |Thread(s, p).item| == s.width
    ensures Thread(s, p).Loaded? ==> |Thread(s, p).item| == s.width
    ensures s.tail < s.size
  {
  }

  /** So does a thread whose tail has gone stale before its first swap. */
  lemma StaleSwapPublishes(s: Ring, p: nat)
    requires Inv(s) && Thread(s, p).Loaded? && Thread(s, p).oldTail != s.tail && Outstanding(s) < s.size - 1
    ensures var acts := Times(Move(p), s.width + 6);
            NeverWinsOnFull(s, acts) && Published(s, p, Run(s, acts), s.won + [Thread(s, p).item])
  {
    hide Inv, WellSized;
    InvIsSized(s);
    ThreadSized(s, p);
    GotoKeepsInv(s, p, Lost(Thread(s, p).item));
    Moves(s, p, s.width + 5);
    RetryPublishes(MoveProducer(s, p), p);
  }
}
