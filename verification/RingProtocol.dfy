/** The lock-free ring of utils/MPSCRingBuffer.h as a state machine.

    Every read or write of shared memory made by `put` and `get` is one step, and the steps of any
    number of producers and of the single consumer interleave in any order (sequential consistency).
    The template parameter T is a struct of `width` machine words that are copied one at a time, so
    a half-written item is a state the model can be in. */
module RingProtocol {
  import opened Arith

  type Item = seq<int>

  datatype Cell = Cell(words: Item, valid: bool)

  /** Where a thread is inside `put`. `ticket` is a history variable: how many compare-and-swaps
      had been won before this one. */
  datatype Producer =
    | Idle
    | Loaded(item: Item, oldTail: nat)                            // tail is read, the swap is next
    | Lost(item: Item)                                            // the swap failed, tail is read again next
    | Reloaded(item: Item, oldTail: nat)                          // the full test of the retry loop is next
    | Won(item: Item, oldTail: nat, ticket: nat)                  // the late full test is next
    | Writing(item: Item, oldTail: nat, ticket: nat, done: nat)   // words [0..done) are written

  /** Where the consumer is inside `get`. */
  datatype Consumer =
    | Resting
    | Checked                // head != tail was seen
    | Copying(out: Item)     // valid was seen, words [0..|out|) are copied
    | Cleared(out: Item)     // valid is cleared, head is advanced next

  /** `won`, `got` and `lateFull` are history: the items in compare-and-swap order, the items `get`
      returned, and how many times `put` returned false after it had already moved the tail. */
  datatype Ring = Ring(
    size: nat, width: nat,
    head: nat, tail: nat, cells: seq<Cell>,
    producers: map<nat, Producer>, consumer: Consumer,
    won: seq<Item>, got: seq<Item>, lateFull: nat)

  datatype Action = Begin(p: nat, item: Item) | Move(p: nat) | Consume

  // ----- the steps

  function Blank(width: nat): Cell {
    Cell(seq(width, _ => 0), false)
  }

  function Init(size: nat, width: nat): Ring {
    Ring(size, width, 0, 0, seq(size, _ => Blank(width)), map[], Resting, [], [], 0)
  }

  function Thread(s: Ring, p: nat): Producer {
    if p in s.producers then s.producers[p] else Idle
  }

  function Goto(s: Ring, p: nat, at: Producer): Ring {
    s.(producers := s.producers[p := at])
  }

  predicate WellSized(s: Ring) {
    && 0 < s.size == |s.cells|
    && s.head < s.size && s.tail < s.size
    && (forall i :: 0 <= i < |s.cells| ==> |s.cells[i].words| == s.width)
    && (forall p :: p in s.producers ==> var t := s.producers[p];
          (t.Loaded? || t.Reloaded? || t.Won? || t.Writing? ==> t.oldTail < s.size)
          && (!t.Idle? ==> |t.item| == s.width)
          && (t.Writing? ==> t.done <= s.width))
  }

  function Next(s: Ring, slot: nat): nat
    requires 0 < s.size
  {
    (slot + 1) % s.size
  }

  /** One step of the thread p inside `put`. */
  function MoveProducer(s: Ring, p: nat): Ring
    requires WellSized(s)
  {
    match Thread(s, p)
    case Idle => s
    case Loaded(item, from) =>
      if s.tail == from then
        Goto(s, p, Won(item, from, |s.won|)).(tail := Next(s, from), won := s.won + [item])
      else
        Goto(s, p, Lost(item))
    case Lost(item) => Goto(s, p, Reloaded(item, s.tail))
    case Reloaded(item, from) =>
      if Next(s, from) == s.head then Goto(s, p, Idle) else Goto(s, p, Loaded(item, from))
    case Won(item, from, ticket) =>
      if Next(s, from) == s.head then Goto(s, p, Idle).(lateFull := s.lateFull + 1)
      else Goto(s, p, Writing(item, from, ticket, 0))
    case Writing(item, from, ticket, done) =>
      var cell := s.cells[from];
      if done < s.width then
        Goto(s, p, Writing(item, from, ticket, done + 1))
          .(cells := s.cells[from := cell.(words := cell.words[done := item[done]])])
      else
        Goto(s, p, Idle).(cells := s.cells[from := cell.(valid := true)])
  }

  /** One step of the consumer inside `get`. */
  function MoveConsumer(s: Ring): Ring
    requires WellSized(s)
  {
    match s.consumer
    case Resting => if s.head == s.tail then s else s.(consumer := Checked)
    case Checked => s.(consumer := if s.cells[s.head].valid then Copying([]) else Resting)
    case Copying(out) =>
      if |out| < s.width then s.(consumer := Copying(out + [s.cells[s.head].words[|out|]]))
      else s.(consumer := Cleared(out), cells := s.cells[s.head := s.cells[s.head].(valid := false)])
    case Cleared(out) => s.(consumer := Resting, head := Next(s, s.head), got := s.got + [out])
  }

  /** An idle thread may call `put` with any item of the ring's item type; the call's first access
      to shared memory is the read of tail. */
  function Step(s: Ring, a: Action): Ring
    requires WellSized(s)
  {
    match a
    case Begin(p, item) =>
      if Thread(s, p).Idle? && |item| == s.width then Goto(s, p, Loaded(item, s.tail)) else s
    case Move(p) => MoveProducer(s, p)
    case Consume => MoveConsumer(s)
  }

  lemma StepKeepsSizes(s: Ring, a: Action)
    requires WellSized(s)
    ensures WellSized(Step(s, a))
    ensures Step(s, a).size == s.size && Step(s, a).width == s.width
  {
    hide MoveProducer, MoveConsumer;
    match a
    case Begin(p, item) =>
    case Move(p) => ProducerKeepsSizes(s, p);
    case Consume => ConsumerKeepsSizes(s);
  }

  lemma ProducerKeepsSizes(s: Ring, p: nat)
    requires WellSized(s)
    ensures WellSized(MoveProducer(s, p))
    ensures MoveProducer(s, p).size == s.size && MoveProducer(s, p).width == s.width
  {
    if Thread(s, p).Writing? && Thread(s, p).done < s.width {
      var from := Thread(s, p).oldTail;
      assert forall i :: 0 <= i < s.size && i != from ==> MoveProducer(s, p).cells[i] == s.cells[i];
    }
  }

  lemma ConsumerKeepsSizes(s: Ring)
    requires WellSized(s)
    ensures WellSized(MoveConsumer(s))
    ensures MoveConsumer(s).size == s.size && MoveConsumer(s).width == s.width
  {
  }

  function Run(s: Ring, acts: seq<Action>): (r: Ring)
    requires WellSized(s)
    ensures WellSized(r) && r.size == s.size
    decreases |acts|
  {
    if acts == [] then s else StepKeepsSizes(s, acts[0]); Run(Step(s, acts[0]), acts[1..])
  }

  // ----- the excluded event

  /** Slots reserved by a won swap and not yet given back by `get`. */
  function Outstanding(s: Ring): int { |s.won| - |s.got| }

  /** The step wins the compare-and-swap on a ring that has all its size-1 usable slots outstanding. */
  predicate WinsOnFull(s: Ring, a: Action) {
    && a.Move? && Thread(s, a.p).Loaded? && Thread(s, a.p).oldTail == s.tail
    && Outstanding(s) >= s.size - 1
  }

  predicate NeverWinsOnFull(s: Ring, acts: seq<Action>)
    requires WellSized(s)
    decreases |acts|
  {
    acts == [] || (
      && !WinsOnFull(s, acts[0])
      && (StepKeepsSizes(s, acts[0]); NeverWinsOnFull(Step(s, acts[0]), acts[1..])))
  }

  // ----- the invariant

  /** The slot of a ticket. */
  function Slot(size: nat, ticket: nat): (r: nat)
    requires 0 < size
    ensures r < size
  {
    ticket % size
  }

  /** Thread p has won ticket t and has not yet published its slot. */
  predicate Holds(s: Ring, p: nat, t: nat) {
    p in s.producers && (s.producers[p].Won? || s.producers[p].Writing?) && s.producers[p].ticket == t
  }

  predicate Held(s: Ring, t: nat) {
    exists p :: p in s.producers && Holds(s, p, t)
  }

  /** The slot of ticket t is valid and carries exactly the item that won ticket t. */
  predicate Finished(s: Ring, t: nat)
    requires WellSized(s) && t < |s.won|
  {
    s.cells[Slot(s.size, t)] == Cell(s.won[t], true)
  }

  /** What thread p relies on between winning ticket t and publishing its slot. */
  predicate HolderOk(s: Ring, p: nat, t: nat)
    requires WellSized(s) && Holds(s, p, t)
  {
    && |s.got| <= t < |s.won|
    && s.producers[p].oldTail == Slot(s.size, t)
    && s.producers[p].item == s.won[t]
    && !s.cells[Slot(s.size, t)].valid
    && (s.producers[p].Writing? ==>
          s.cells[Slot(s.size, t)].words[..s.producers[p].done] == s.won[t][..s.producers[p].done])
  }

  ghost predicate ProducersOk(s: Ring)
    requires WellSized(s)
  {
    && (forall p: nat, t: nat :: Holds(s, p, t) ==> HolderOk(s, p, t))
    && (forall p: nat, q: nat, t: nat :: Holds(s, p, t) && Holds(s, q, t) ==> p == q)
  }

  predicate ConsumerOk(s: Ring)
    requires WellSized(s)
  {
    match s.consumer
    case Resting => true
    case Checked => |s.got| < |s.won|
    case Copying(out) =>
      |s.got| < |s.won| && Finished(s, |s.got|) && |out| <= s.width && out == s.won[|s.got|][..|out|]
    case Cleared(out) =>
      |s.got| < |s.won| && out == s.won[|s.got|] && !s.cells[s.head].valid && !Held(s, |s.got|)
  }

  ghost predicate SlotsOk(s: Ring)
    requires WellSized(s)
  {
    && (forall t: nat :: |s.got| <= t < |s.won| ==>
          Held(s, t) || Finished(s, t) || (t == |s.got| && s.consumer.Cleared?))
    && (forall t: nat :: |s.won| <= t < |s.got| + s.size ==> !s.cells[Slot(s.size, t)].valid)
  }

  ghost predicate CountersOk(s: Ring)
    requires WellSized(s)
  {
    && |s.got| <= |s.won| < |s.got| + s.size
    && s.head == Slot(s.size, |s.got|) && s.tail == Slot(s.size, |s.won|)
    && s.got == s.won[..|s.got|]
    && (forall t :: 0 <= t < |s.won| ==> |s.won[t]| == s.width)
    && s.lateFull == 0
  }

  ghost predicate Inv(s: Ring) {
    WellSized(s) && CountersOk(s) && (ConsumerOk(s) && ProducersOk(s) && SlotsOk(s))
  }

  // ----- wrap-around arithmetic

  /** Slots of two tickets in one window of `size` tickets never coincide. */
  lemma SlotsDiffer(size: nat, lo: nat)
    requires 0 < size
    ensures forall t: nat, u: nat :: lo <= t < lo + size && lo <= u < lo + size && t != u
                                     ==> Slot(size, t) != Slot(size, u)
  {
    forall t: nat, u: nat | lo <= t < lo + size && lo <= u < lo + size && t != u
      ensures Slot(size, t) != Slot(size, u)
    {
      if t < u { RemaindersDiffer(t, u, size); } else { RemaindersDiffer(u, t, size); }
    }
  }

  // ----- every step keeps the invariant

  lemma InitInv(size: nat, width: nat)
    requires 0 < size
    ensures Inv(Init(size, width))
  {
  }

  /** Steps that only move thread p, while it holds no ticket before or after. */
  lemma GotoKeepsInv(s: Ring, p: nat, at: Producer)
    requires Inv(s)
    requires !Thread(s, p).Won? && !Thread(s, p).Writing?
    requires !at.Won? && !at.Writing?
    requires at.Idle? || |at.item| == s.width
    requires at.Loaded? || at.Reloaded? ==> at.oldTail < s.size
    ensures Inv(Goto(s, p, at))
  {
    var s' := Goto(s, p, at);
    assert forall q: nat, t: nat :: Holds(s', q, t) <==> Holds(s, q, t);
    assert forall t: nat :: Held(s', t) <==> Held(s, t);
  }

  /** A swap won with room to spare reserves the slot of a new ticket. */
  lemma WinKeepsInv(s: Ring, p: nat)
    requires Inv(s)
    requires Thread(s, p).Loaded? && Thread(s, p).oldTail == s.tail
    requires Outstanding(s) < s.size - 1
    ensures Inv(MoveProducer(s, p))
  {
    var s' := MoveProducer(s, p);
    var n := |s.won|;
    RemainderStep(n, s.size);
    assert Holds(s', p, n);
    assert forall q: nat, t: nat :: Holds(s', q, t) <==> Holds(s, q, t) || (q == p && t == n);
    assert forall t: nat :: Held(s', t) <==> Held(s, t) || t == n;
    assert forall t: nat :: t < n ==> s'.won[t] == s.won[t];
  }

  /** The late full test never fires for a ticket of the window. */
  lemma LateTestPasses(s: Ring, p: nat)
    requires Inv(s) && Thread(s, p).Won?
    ensures Next(s, Thread(s, p).oldTail) != s.head
  {
    var t := Thread(s, p).ticket;
    assert Holds(s, p, t);
    RemainderStep(t, s.size);
    RemaindersDiffer(|s.got|, t + 1, s.size);
  }

  lemma PassKeepsInv(s: Ring, p: nat)
    requires Inv(s) && Thread(s, p).Won?
    ensures Inv(MoveProducer(s, p))
  {
    LateTestPasses(s, p);
    var s' := MoveProducer(s, p);
    assert forall q: nat, t: nat :: Holds(s', q, t) <==> Holds(s, q, t);
    assert forall t: nat :: Held(s', t) <==> Held(s, t);
  }

  /** Writing one word touches only the slot the thread holds. */
  lemma WriteKeepsInv(s: Ring, p: nat)
    requires Inv(s) && Thread(s, p).Writing? && Thread(s, p).done < s.width
    ensures Inv(MoveProducer(s, p))
  {
    var s' := MoveProducer(s, p);
    var t0 := Thread(s, p).ticket;
    assert Holds(s, p, t0);
    SlotsDiffer(s.size, |s.got|);
    assert forall q: nat, t: nat :: Holds(s', q, t) <==> Holds(s, q, t);
    assert forall t: nat :: Held(s', t) <==> Held(s, t);
    assert forall t: nat :: |s.got| <= t < |s.got| + s.size && t != t0
                            ==> s'.cells[Slot(s.size, t)] == s.cells[Slot(s.size, t)];
    assert WellSized(s') && CountersOk(s');
    var done := Thread(s, p).done;
    assert HolderOk(s', p, t0) by {
      var words := s.cells[Slot(s.size, t0)].words;
      assert words[done := s.won[t0][done]][..done + 1] == words[..done] + [s.won[t0][done]];
      assert s.won[t0][..done + 1] == s.won[t0][..done] + [s.won[t0][done]];
    }
    assert ProducersOk(s');
    assert ConsumerOk(s');
  }

  lemma PublishKeepsInv(s: Ring, p: nat)
    requires Inv(s) && Thread(s, p).Writing? && Thread(s, p).done == s.width
    ensures Inv(MoveProducer(s, p))
  {
    var s' := MoveProducer(s, p);
    PublishChangesOneSlot(s, p);
    PublishKeepsProducers(s, p);
    PublishKeepsSlots(s, p);
    assert CountersOk(s');
    assert ConsumerOk(s') by { hide SlotsOk, ProducersOk; }
  }

  lemma PublishKeepsProducers(s: Ring, p: nat)
    requires Inv(s) && Thread(s, p).Writing? && Thread(s, p).done == s.width
    ensures WellSized(MoveProducer(s, p)) && ProducersOk(MoveProducer(s, p))
  {
    hide SlotsOk, ConsumerOk, Slot, Held;
    PublishChangesOneSlot(s, p);
    var s' := MoveProducer(s, p);
    forall q: nat, t: nat | Holds(s', q, t) ensures HolderOk(s', q, t) {
      assert Holds(s, p, Thread(s, p).ticket);
      assert Holds(s, q, t) && HolderOk(s, q, t) && t != Thread(s, p).ticket;
      assert s'.producers[q] == s.producers[q];
    }
  }

  lemma PublishKeepsSlots(s: Ring, p: nat)
    requires Inv(s) && Thread(s, p).Writing? && Thread(s, p).done == s.width
    ensures WellSized(MoveProducer(s, p)) && SlotsOk(MoveProducer(s, p))
  {
    hide ProducersOk, ConsumerOk, Holds, Held, Finished;
    PublishChangesOneSlot(s, p);
    OtherSlotsFinished(s, p);
  }

  lemma OtherSlotsFinished(s: Ring, p: nat)
    requires Inv(s) && Thread(s, p).Writing? && Thread(s, p).done == s.width
    ensures WellSized(MoveProducer(s, p))
    ensures forall t: nat :: |s.got| <= t < |s.won| && t != Thread(s, p).ticket && Finished(s, t)
                             ==> Finished(MoveProducer(s, p), t)
  {
    hide ProducersOk, ConsumerOk, SlotsOk, Holds, Held;
    PublishChangesOneSlot(s, p);
  }

  /** What publishing does: the ticket is no longer held and its slot is finished; nothing else changes. */
  lemma PublishChangesOneSlot(s: Ring, p: nat)
    requires Inv(s) && Thread(s, p).Writing? && Thread(s, p).done == s.width
    ensures var s' := MoveProducer(s, p);
            var t0 := Thread(s, p).ticket;
            && WellSized(s') && |s.got| <= t0 < |s.won| && Finished(s', t0) && !s.cells[Slot(s.size, t0)].valid
            && (forall q: nat, t: nat :: Holds(s', q, t) <==> Holds(s, q, t) && q != p)
            && (forall t: nat :: Held(s', t) <==> Held(s, t) && t != t0)
            && (forall t: nat :: |s.got| <= t < |s.got| + s.size && t != t0
                                 ==> s'.cells[Slot(s.size, t)] == s.cells[Slot(s.size, t)])
  {
    var s' := MoveProducer(s, p);
    var t0 := Thread(s, p).ticket;
    ProducerKeepsSizes(s, p);
    assert Holds(s, p, t0);
    SlotsDiffer(s.size, |s.got|);
    assert Finished(s', t0) by {
      assert s.cells[Slot(s.size, t0)].words[..s.width] == s.won[t0][..s.width];
      assert s.won[t0][..s.width] == s.won[t0];
    }
  }

  lemma PeekKeepsInv(s: Ring)
    requires Inv(s) && (s.consumer.Resting? || s.consumer.Checked?)
    ensures Inv(MoveConsumer(s))
  {
    var s' := MoveConsumer(s);
    assert forall q: nat, t: nat :: Holds(s', q, t) <==> Holds(s, q, t);
    assert forall t: nat :: Held(s', t) <==> Held(s, t);
    if s.consumer.Resting? && s.head != s.tail {
      assert |s.got| < |s.won|;
    }
    if s.consumer.Checked? && s.cells[s.head].valid {
      assert !Held(s, |s.got|);
      assert Finished(s, |s.got|);
    }
  }

  lemma CopyKeepsInv(s: Ring)
    requires Inv(s) && s.consumer.Copying? && |s.consumer.out| < s.width
    ensures Inv(MoveConsumer(s))
  {
    var s' := MoveConsumer(s);
    assert forall q: nat, t: nat :: Holds(s', q, t) <==> Holds(s, q, t);
    assert forall t: nat :: Held(s', t) <==> Held(s, t);
    assert s'.consumer.out == s.won[|s.got|][..|s'.consumer.out|];
  }

  lemma ClearKeepsInv(s: Ring)
    requires Inv(s) && s.consumer.Copying? && |s.consumer.out| == s.width
    ensures Inv(MoveConsumer(s))
  {
    var s' := MoveConsumer(s);
    var g := |s.got|;
    SlotsDiffer(s.size, g);
    assert forall q: nat, t: nat :: Holds(s', q, t) <==> Holds(s, q, t);
    assert forall t: nat :: Held(s', t) <==> Held(s, t);
    assert !Held(s, g);
    assert s.won[g][..s.width] == s.won[g];
    assert forall t: nat :: g < t < g + s.size ==> s'.cells[Slot(s.size, t)] == s.cells[Slot(s.size, t)];
    assert WellSized(s') && CountersOk(s');
    assert ProducersOk(s');
    assert ConsumerOk(s');
  }

  lemma AdvanceKeepsInv(s: Ring)
    requires Inv(s) && s.consumer.Cleared?
    ensures Inv(MoveConsumer(s))
  {
    var s' := MoveConsumer(s);
    RemainderStep(|s.got|, s.size);
    assert forall q: nat, t: nat :: Holds(s', q, t) <==> Holds(s, q, t);
    assert forall t: nat :: Held(s', t) <==> Held(s, t);
    Wraps(|s.got|, s.size);
  }

  lemma Wraps(t: nat, size: nat)
    requires 0 < size
    ensures Slot(size, t + size) == Slot(size, t)
  {
    var q := t / size;
    assert t + size == (q + 1) * size + t % size;
    DivModUnique(t + size, size, q + 1, t % size);
  }

  /** A step keeps the invariant exactly when it does not win the swap on a full ring. */
  lemma StepKeepsInv(s: Ring, a: Action)
    requires Inv(s)
    ensures Inv(Step(s, a)) <==> !WinsOnFull(s, a)
  {
    if !WinsOnFull(s, a) { OtherStepKeepsInv(s, a); }
  }

  lemma OtherStepKeepsInv(s: Ring, a: Action)
    requires Inv(s) && !WinsOnFull(s, a)
    ensures Inv(Step(s, a))
  {
    match a
    case Begin(p, item) =>
      if Thread(s, p).Idle? && |item| == s.width { GotoKeepsInv(s, p, Loaded(item, s.tail)); }
    case Move(p) =>
      match Thread(s, p) {
        case Idle =>
        case Loaded(item, from) =>
          if s.tail == from { WinKeepsInv(s, p); } else { GotoKeepsInv(s, p, Lost(item)); }
        case Lost(item) => GotoKeepsInv(s, p, Reloaded(item, s.tail));
        case Reloaded(item, from) =>
          GotoKeepsInv(s, p, if Next(s, from) == s.head then Idle else Loaded(item, from));
        case Won(_, _, _) => PassKeepsInv(s, p);
        case Writing(_, _, _, done) =>
          if done < s.width { WriteKeepsInv(s, p); } else { PublishKeepsInv(s, p); }
      }
    case Consume =>
      match s.consumer {
        case Resting => PeekKeepsInv(s);
        case Checked => PeekKeepsInv(s);
        case Copying(out) => if |out| < s.width { CopyKeepsInv(s); } else { ClearKeepsInv(s); }
        case Cleared(_) => AdvanceKeepsInv(s);
      }
  }

  // ----- runs

  lemma {:induction false} RunKeepsInv(s: Ring, acts: seq<Action>)
    requires Inv(s) && NeverWinsOnFull(s, acts)
    ensures Inv(Run(s, acts))
    decreases |acts|
  {
    if acts != [] {
      StepKeepsInv(s, acts[0]);
      RunKeepsInv(Step(s, acts[0]), acts[1..]);
    }
  }

  /** Who may touch the slot of ticket t: one holder and nobody else, or nobody because the item is
      published, or only the consumer that is giving the slot back. */
  ghost predicate Exclusive(s: Ring, t: nat)
    requires WellSized(s)
  {
    var cell := s.cells[Slot(s.size, t)];
    if |s.got| <= t < |s.won| then
      || (!cell.valid && exists p: nat :: Holds(s, p, t) && forall q: nat :: Holds(s, q, t) ==> q == p)
      || (cell == Cell(s.won[t], true) && !Held(s, t))
      || (t == |s.got| && s.consumer == Cleared(s.won[t]) && !cell.valid && !Held(s, t))
    else
      !Held(s, t) && (|s.won| <= t < |s.got| + s.size ==> !cell.valid)
  }

  lemma InvIsExclusive(s: Ring, t: nat)
    requires Inv(s)
    ensures Exclusive(s, t)
  {
    if Held(s, t) {
      var p: nat :| p in s.producers && Holds(s, p, t);
      assert HolderOk(s, p, t);
    }
  }

  // ----- nothing is lost

  function Times(a: Action, n: nat): (r: seq<Action>)
    ensures |r| == n
  {
    if n == 0 then [] else [a] + Times(a, n - 1)
  }

  lemma {:induction false} RunConcat(s: Ring, a: seq<Action>, b: seq<Action>)
    requires WellSized(s)
    ensures Run(s, a + b) == Run(Run(s, a), b)
    ensures NeverWinsOnFull(s, a + b) <==> NeverWinsOnFull(s, a) && NeverWinsOnFull(Run(s, a), b)
    decreases |a|
  {
    hide Step, WellSized, WinsOnFull;
    if a == [] {
      assert a + b == b;
    } else {
      StepKeepsSizes(s, a[0]);
      RunConcat(Step(s, a[0]), a[1..], b);
      assert (a + b)[1..] == a[1..] + b;
    }
  }

  lemma {:induction false} ConsumingNeverWins(s: Ring, n: nat)
    requires WellSized(s)
    ensures NeverWinsOnFull(s, Times(Consume, n))
    decreases n
  {
    if n > 0 {
      StepKeepsSizes(s, Consume);
      ConsumingNeverWins(Step(s, Consume), n - 1);
      assert Times(Consume, n)[1..] == Times(Consume, n - 1);
    }
  }

  lemma {:induction false} CopyRest(s: Ring, n: nat)
    requires Inv(s) && s.consumer.Copying? && n == s.width - |s.consumer.out|
    ensures Inv(Run(s, Times(Consume, n)))
    ensures Run(s, Times(Consume, n)) == s.(consumer := Copying(s.won[|s.got|]))
    decreases n
  {
    if n == 0 {
      assert s.won[|s.got|][..s.width] == s.won[|s.got|];
    } else {
      CopyKeepsInv(s);
      CopyRest(MoveConsumer(s), n - 1);
      assert Times(Consume, n)[1..] == Times(Consume, n - 1);
    }
  }

  /** A call of `get` that runs while the oldest outstanding item is published returns that item. */
  lemma GetReturnsOldest(s: Ring)
    requires Inv(s) && s.consumer.Resting?
    requires |s.got| < |s.won| && !Held(s, |s.got|)
    ensures var r := Run(s, Times(Consume, s.width + 4));
            && Inv(r) && r.consumer.Resting? && r.producers == s.producers && r.won == s.won
            && r.got == s.got + [s.won[|s.got|]]
  {
    RemaindersDiffer(|s.got|, |s.won|, s.size);
    PeekKeepsInv(s);
    var s1 := MoveConsumer(s);
    PeekKeepsInv(s1);
    var s2 := MoveConsumer(s1);
    assert Finished(s, |s.got|);
    CopyRest(s2, s.width);
    var s3 := Run(s2, Times(Consume, s.width));
    ClearKeepsInv(s3);
    AdvanceKeepsInv(MoveConsumer(s3));
    TwoAndWidthAndTwo(s);
  }

  lemma TwoSteps(s: Ring)
    requires WellSized(s)
    ensures WellSized(MoveConsumer(s)) && Run(s, [Consume, Consume]) == MoveConsumer(MoveConsumer(s))
  {
    hide MoveConsumer, WellSized;
    StepKeepsSizes(s, Consume);
    var s1 := MoveConsumer(s);
    assert [Consume, Consume][1..] == [Consume] && [Consume][1..] == [];
    assert Run(s1, [Consume]) == Run(MoveConsumer(s1), []);
  }

  lemma TwoAndWidthAndTwo(s: Ring)
    requires WellSized(s)
    ensures WellSized(MoveConsumer(s))
    ensures var s3 := Run(MoveConsumer(MoveConsumer(s)), Times(Consume, s.width));
            WellSized(MoveConsumer(s3)) && Run(s, Times(Consume, s.width + 4)) == MoveConsumer(MoveConsumer(s3))
  {
    hide MoveConsumer, WellSized, Run;
    var two := [Consume, Consume];
    TwoSteps(s);
    TwoSteps(Run(MoveConsumer(MoveConsumer(s)), Times(Consume, s.width)));
    RunConcat(s, two, Times(Consume, s.width));
    RunConcat(s, two + Times(Consume, s.width), two);
    TimesSplit(Consume, s.width + 2, 2);
    TimesSplit(Consume, 2, s.width);
    assert Times(Consume, 1) == [Consume] + Times(Consume, 0);
    assert Times(Consume, 2) == [Consume] + Times(Consume, 1) == two;
  }

  lemma {:induction false} TimesSplit(a: Action, m: nat, n: nat)
    ensures Times(a, m + n) == Times(a, m) + Times(a, n)
    decreases m
  {
    if m > 0 { TimesSplit(a, m - 1, n); }
  }

  /** How many steps of a call of `get` on a published item have been made. */
  function StepsMade(s: Ring): nat {
    match s.consumer
    case Resting => 0
    case Checked => 1
    case Copying(out) => 2 + |out|
    case Cleared(_) => s.width + 3
  }

  function Consumes(acts: seq<Action>): nat {
    if acts == [] then 0 else (if acts[0].Consume? then 1 else 0) + Consumes(acts[1..])
  }

  /** A step of a producer leaves the consumer and the oldest outstanding item alone. */
  lemma ProducerLeavesOldest(s: Ring, a: Action)
    requires Inv(s) && !a.Consume? && !WinsOnFull(s, a)
    requires |s.got| < |s.won| && !Held(s, |s.got|)
    ensures var r := Step(s, a);
            && r.consumer == s.consumer && r.got == s.got && r.width == s.width && s.won <= r.won
            && !Held(r, |s.got|)
  {
    hide Inv, Holds;
    InvIsSized(s);
    var r, g := Step(s, a), |s.got|;
    forall q | q in r.producers && Holds(r, q, g) ensures q in s.producers && Holds(s, q, g) { NewHolder(s, a, q, g); }
  }

  /** A ticket that is newly held is the one of a swap just won. */
  lemma NewHolder(s: Ring, a: Action, q: nat, t: nat)
    requires WellSized(s) && t < |s.won| && Holds(Step(s, a), q, t)
    ensures Holds(s, q, t)
  {
  }

  /** One step of `get` on a published item. */
  lemma GetStep(s: Ring)
    requires Inv(s) && |s.got| < |s.won| && !Held(s, |s.got|)
    ensures var r := MoveConsumer(s);
            && r.producers == s.producers && r.won == s.won && r.width == s.width
            && StepsMade(s) < s.width + 4
            && if StepsMade(s) == s.width + 3 then r.consumer.Resting? && r.got == s.got + [s.won[|s.got|]]
               else r.got == s.got && StepsMade(r) == StepsMade(s) + 1
  {
    RemaindersDiffer(|s.got|, |s.won|, s.size);
    if !s.consumer.Cleared? { assert Finished(s, |s.got|); }
  }

  lemma {:induction false} NoConsumes(s: Ring, acts: seq<Action>)
    requires Inv(s) && NeverWinsOnFull(s, acts) && Consumes(acts) == 0
    ensures var r := Run(s, acts); Inv(r) && r.consumer == s.consumer && r.got == s.got && s.won <= r.won
    decreases |acts|
  {
    hide Inv, WellSized;
    InvIsSized(s);
    if acts != [] {
      StepKeepsInv(s, acts[0]);
      NoConsumes(Step(s, acts[0]), acts[1..]);
    }
  }

  /** The same in the middle of a call, among any steps of producers. */
  lemma {:induction false} GetFinishes(s: Ring, acts: seq<Action>)
    requires Inv(s) && |s.got| < |s.won| && !Held(s, |s.got|)
    requires NeverWinsOnFull(s, acts) && Consumes(acts) + StepsMade(s) == s.width + 4
    ensures var r := Run(s, acts);
            Inv(r) && r.consumer.Resting? && s.won <= r.won && r.got == s.got + [s.won[|s.got|]]
    decreases |acts|
  {
    hide Inv, WellSized, MoveConsumer, Held, StepsMade, MoveProducer, WinsOnFull;
    InvIsSized(s);
    GetStep(s);
    if acts != [] {
      StepKeepsInv(s, acts[0]);
      var r := Step(s, acts[0]);
      if acts[0].Consume? {
        HeldByProducers(s, r);
        if StepsMade(s) == s.width + 3 { NoConsumes(r, acts[1..]); } else { GetFinishes(r, acts[1..]); }
      } else {
        ProducerLeavesOldest(s, acts[0]);
        SameSteps(s, r);
        GetFinishes(r, acts[1..]);
      }
    }
  }

  lemma SameSteps(s: Ring, r: Ring)
    requires r.consumer == s.consumer && r.width == s.width
    ensures StepsMade(r) == StepsMade(s)
  {
  }

  lemma HeldByProducers(s: Ring, r: Ring)
    requires r.producers == s.producers
    ensures forall t: nat :: Held(r, t) <==> Held(s, t)
  {
    forall p: nat, t: nat ensures Holds(r, p, t) <==> Holds(s, p, t) {
    }
  }

  /** A call of `get` on a published item returns that item, whatever the producers do in the meantime:
      in every interleaving without a full win that contains the steps of one call. */
  lemma GetReturnsOldestAmongPuts(s: Ring, acts: seq<Action>)
    requires Inv(s) && s.consumer.Resting?
    requires |s.got| < |s.won| && !Held(s, |s.got|)
    requires NeverWinsOnFull(s, acts) && Consumes(acts) == s.width + 4
    ensures var r := Run(s, acts);
            Inv(r) && r.consumer.Resting? && s.won <= r.won && r.got == s.got + [s.won[|s.got|]]
  {
    GetFinishes(s, acts);
  }

  /** Once no `put` is in progress on a won slot, repeated calls of `get` return everything won. */
  lemma {:induction false} DrainReturnsAll(s: Ring) returns (n: nat)
    requires Inv(s) && s.consumer.Resting? && forall p, t :: !Holds(s, p, t)
    ensures var r := Run(s, Times(Consume, n));
            Inv(r) && r.got == s.won && r.won == s.won && r.producers == s.producers
    decreases |s.won| - |s.got|
  {
    if |s.got| == |s.won| {
      n := 0;
    } else {
      var k := s.width + 4;
      GetReturnsOldest(s);
      var r := Run(s, Times(Consume, k));
      forall p, t ensures !Holds(r, p, t) { assert !Holds(s, p, t); }
      var m := DrainReturnsAll(r);
      TimesSplit(Consume, k, m);
      RunConcat(s, Times(Consume, k), Times(Consume, m));
      n := k + m;
    }
  }

  // ----- the excluded event: a swap won on a full ring

  /** Winning the swap on a full ring makes head and tail equal: a `get` that begins finds the ring empty
      while every slot is outstanding, and a late test that the winner makes at once reports an overflow. */
  lemma FullWinLooksEmpty(s: Ring, p: nat)
    requires Inv(s) && WinsOnFull(s, Move(p))
    ensures var r := MoveProducer(s, p);
            && WellSized(r) && Outstanding(r) == r.size && r.head == r.tail
            && (s.consumer.Resting? ==> MoveConsumer(r) == r)
            && MoveProducer(r, p).lateFull == s.lateFull + 1
  {
    RemainderStep(|s.won|, s.size);
    Wraps(|s.got|, s.size);
  }

  /** When `get` has already cleared the oldest slot, advancing head makes room for the new ticket. */
  lemma AdvanceAfterFullWin(s: Ring, p: nat)
    requires Inv(s) && s.consumer.Cleared? && WinsOnFull(s, Move(p))
    ensures WellSized(MoveProducer(s, p)) && Inv(MoveConsumer(MoveProducer(s, p)))
  {
    hide Inv, MoveConsumer, MoveProducer, WellSized;
    WinThenAdvance(s, p);
    StepKeepsSizes(s, Move(p));
    AdvanceKeepsInv(s);
    WinKeepsInv(MoveConsumer(s), p);
  }

  lemma WinThenAdvance(s: Ring, p: nat)
    requires Inv(s) && s.consumer.Cleared? && WinsOnFull(s, Move(p))
    ensures var r := MoveConsumer(s);
            && WellSized(s) && WellSized(r) && Thread(r, p).Loaded? && Thread(r, p).oldTail == r.tail
            && Outstanding(r) < r.size - 1
            && WellSized(MoveProducer(s, p)) && MoveConsumer(MoveProducer(s, p)) == MoveProducer(r, p)
  {
  }

  lemma InvIsSized(s: Ring)
    requires Inv(s)
    ensures WellSized(s)
  {
  }

  /** The first three accesses of an undisturbed `put`: read tail, swap, late test. */
  function PutAlone(s: Ring, p: nat, item: Item): Ring
    requires WellSized(s)
  {
    Run(s, [Begin(p, item), Move(p), Move(p)])
  }

  lemma RunCons(s: Ring, a: Action, rest: seq<Action>)
    requires WellSized(s)
    ensures WellSized(Step(s, a)) && Run(s, [a] + rest) == Run(Step(s, a), rest)
  {
    StepKeepsSizes(s, a);
    assert ([a] + rest)[1..] == rest;
  }

  lemma PutAloneUnfolds(s: Ring, p: nat, item: Item)
    requires WellSized(s)
    ensures var s1 := Step(s, Begin(p, item));
            WellSized(s1) && WellSized(MoveProducer(s1, p))
            && PutAlone(s, p, item) == MoveProducer(MoveProducer(s1, p), p)
  {
    var s1 := Step(s, Begin(p, item));
    RunCons(s, Begin(p, item), [Move(p), Move(p)]);
    assert [Begin(p, item)] + [Move(p), Move(p)] == [Begin(p, item), Move(p), Move(p)];
    RunCons(s1, Move(p), [Move(p)]);
    assert [Move(p)] + [Move(p)] == [Move(p), Move(p)];
    RunCons(Step(s1, Move(p)), Move(p), []);
    assert [Move(p)] + [] == [Move(p)];
  }

  /** Exact condition: an undisturbed `put` reserves a slot for its item, keeping the ring sound, if
      and only if fewer than size-1 slots are outstanding; otherwise it reports an overflow after
      moving the tail, and the ring then looks empty with all its slots outstanding. */
  lemma PutAloneExact(s: Ring, p: nat, item: Item)
    requires Inv(s) && s.consumer.Resting? && Thread(s, p).Idle? && |item| == s.width
    ensures var r := PutAlone(s, p, item);
            && (Inv(r) <==> Outstanding(s) < s.size - 1)
            && r.won == s.won + [item]
            && (Inv(r) ==> Thread(r, p) == Writing(item, s.tail, |s.won|, 0))
            && (!Inv(r) ==> Thread(r, p).Idle? && r.lateFull == s.lateFull + 1
                            && r.head == r.tail && Outstanding(r) == r.size)
  {
    PutAloneUnfolds(s, p, item);
    GotoKeepsInv(s, p, Loaded(item, s.tail));
    var s1 := Step(s, Begin(p, item));
    if Outstanding(s) < s.size - 1 {
      WinKeepsInv(s1, p);
      PassKeepsInv(MoveProducer(s1, p), p);
      LateTestPasses(MoveProducer(s1, p), p);
    } else {
      FullWinLooksEmpty(s1, p);
    }
  }

  // ----- the full test inside the retry loop

  /** While the tail has not moved since it was read, the retry loop gives up exactly on a full ring. */
  lemma RetryTestExact(s: Ring, p: nat)
    requires Inv(s) && Thread(s, p).Reloaded? && Thread(s, p).oldTail == s.tail
    ensures Thread(MoveProducer(s, p), p).Idle? <==> Outstanding(s) == s.size - 1
  {
    RemainderStep(|s.won|, s.size);
    if Outstanding(s) < s.size - 1 {
      RemaindersDiffer(|s.got|, |s.won| + 1, s.size);
    } else {
      Wraps(|s.got|, s.size);
    }
  }

  /** A thread that is left alone after the late test finishes its item. */
  lemma {:induction false} WriteRest(s: Ring, p: nat, n: nat)
    requires Inv(s) && Thread(s, p).Writing? && n == s.width - Thread(s, p).done
    ensures var acts := Times(Move(p), n + 1);
            && NeverWinsOnFull(s, acts)
            && var r := Run(s, acts);
            && Inv(r) && r.producers == s.producers[p := Idle]
            && r.won == s.won && r.got == s.got && r.consumer == s.consumer
    decreases n
  {
    var r := MoveProducer(s, p);
    var rest := Times(Move(p), n);
    assert Times(Move(p), n + 1)[1..] == rest;
    StepKeepsSizes(s, Move(p));
    assert !WinsOnFull(s, Move(p));
    if n == 0 {
      PublishKeepsInv(s, p);
      assert Run(r, rest) == r;
    } else {
      WriteKeepsInv(s, p);
      WriteRest(r, p, n - 1);
    }
  }

  /** An undisturbed `put` on a ring that is not full publishes its item. */
  lemma PutPublishes(s: Ring, p: nat, item: Item) returns (acts: seq<Action>)
    requires Inv(s) && Thread(s, p).Idle? && |item| == s.width && Outstanding(s) < s.size - 1
    ensures NeverWinsOnFull(s, acts)
    ensures var r := Run(s, acts);
            && Inv(r) && r.producers == s.producers[p := Idle]
            && r.won == s.won + [item] && r.got == s.got && r.consumer == s.consumer
  {
    ReserveAlone(s, p, item);
    var s3 := PutAlone(s, p, item);
    WriteRest(s3, p, s.width);
    var first, rest := [Begin(p, item), Move(p), Move(p)], Times(Move(p), s.width + 1);
    acts := first + rest;
    RunConcat(s, first, rest);
  }

  lemma ReserveAlone(s: Ring, p: nat, item: Item)
    requires Inv(s) && Thread(s, p).Idle? && |item| == s.width && Outstanding(s) < s.size - 1
    ensures NeverWinsOnFull(s, [Begin(p, item), Move(p), Move(p)])
    ensures var r := PutAlone(s, p, item);
            && Inv(r) && r.producers == s.producers[p := Writing(item, s.tail, |s.won|, 0)]
            && r.width == s.width && r.won == s.won + [item] && r.got == s.got && r.consumer == s.consumer
  {
    GotoKeepsInv(s, p, Loaded(item, s.tail));
    var s1 := Step(s, Begin(p, item));
    WinKeepsInv(s1, p);
    var s2 := MoveProducer(s1, p);
    LateTestPasses(s2, p);
    PassKeepsInv(s2, p);
    PutAloneUnfolds(s, p, item);
    assert NeverWinsOnFull(s2, [Move(p)]) by { assert [Move(p)][1..] == []; }
    assert NeverWinsOnFull(s1, [Move(p), Move(p)]) by { assert [Move(p), Move(p)][1..] == [Move(p)]; }
    assert [Begin(p, item), Move(p), Move(p)][1..] == [Move(p), Move(p)];
  }

  /** A retry whose tail has gone stale can report an overflow on an empty ring: whenever a thread is
      about to make the retry test on a ring that is not full, another thread may put one item and the
      consumer may take everything, and then the test fails although nothing is outstanding. */
  lemma StaleRetryRefusesEmptyRing(s: Ring, p: nat, other: nat, item: Item) returns (acts: seq<Action>)
    requires Inv(s) && s.consumer.Resting? && forall q, t :: !Holds(s, q, t)
    requires Thread(s, p).Reloaded? && Thread(s, p).oldTail == s.tail
    requires Thread(s, other).Idle? && |item| == s.width && Outstanding(s) < s.size - 1
    ensures NeverWinsOnFull(s, acts)
    ensures var r := Run(s, acts);
            && Inv(r) && Thread(r, p) == Thread(s, p) && Outstanding(r) == 0
            && Thread(MoveProducer(r, p), p).Idle? && MoveProducer(r, p).won == r.won
  {
    hide Inv, WellSized, Run, MoveProducer;
    InvIsSized(s);
    var put := PutPublishes(s, other, item);
    var s1 := Run(s, put);
    forall q, t ensures !Holds(s1, q, t) { assert !Holds(s, q, t); }
    var n := DrainReturnsAll(s1);
    ConsumingNeverWins(s1, n);
    RunConcat(s, put, Times(Consume, n));
    acts := put + Times(Consume, n);
    StaleTest(s, Run(s, acts), p);
  }

  /** After one more item the stale tail is right in front of the head of the drained ring. */
  lemma StaleTest(s: Ring, r: Ring, p: nat)
    requires Inv(s) && Inv(r) && r.size == s.size && Thread(r, p) == Thread(s, p)
    requires Thread(s, p).Reloaded? && Thread(s, p).oldTail == s.tail
    requires |r.won| == |s.won| + 1 && r.got == r.won
    ensures Thread(MoveProducer(r, p), p).Idle? && MoveProducer(r, p).won == r.won
  {
    RemainderStep(|s.won|, s.size);
  }
}
