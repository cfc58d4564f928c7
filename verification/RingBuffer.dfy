/** The ring of utils/MPSCRingBuffer.h as one thread at a time uses it: no other call is in progress,
    so the compare-and-swap succeeds at once. RingProtocol has the interleaved form. */
module RingBuffer {
  import opened Arith
  import P = RingProtocol

  /** What an undisturbed `put` does to the queued items. On a full ring the tail is moved before the
      full test is made, so the call fails and every queued item is gone from the consumer's view. */
  function AfterPut<T>(size: nat, queue: seq<T>, x: T): (seq<T>, bool) {
    if |queue| < size - 1 then (queue + [x], true) else ([], false)
  }

  datatype Cell<T> = Cell(item: T, valid: bool)

  /** How many slots lie between head and tail. */
  function Count(size: nat, head: nat, tail: nat): nat
    requires head < size && tail < size
  {
    if head <= tail then tail - head else tail + size - head
  }

  function At(size: nat, head: nat, i: nat): (r: nat)
    requires head < size && i < size
    ensures r < size
  {
    if head + i < size then head + i else head + i - size
  }

  /** The items of the n slots from head on. */
  function Window<T>(cells: seq<Cell<T>>, head: nat, n: nat): (q: seq<T>)
    requires head < |cells| && n <= |cells|
    ensures |q| == n
  {
    seq(n, i requires 0 <= i < n => cells[At(|cells|, head, i)].item)
  }

  lemma NextIsMod(size: nat, i: nat)
    requires i < size
    ensures (i + 1) % size == At(size, i, if size == 1 then 0 else 1)
  {
    if i + 1 < size { DivModUnique(i + 1, size, 0, i + 1); } else { DivModUnique(i + 1, size, 1, 0); }
  }

  predicate AllValid<T>(cells: seq<Cell<T>>, head: nat, n: nat)
    requires head < |cells| && n <= |cells|
  {
    forall i :: 0 <= i < n ==> cells[At(|cells|, head, i)].valid
  }

  /** Giving back the first slot of a window leaves the rest of it. */
  lemma GiveBackFirst<T>(cells: seq<Cell<T>>, head: nat, n: nat, cell: Cell<T>)
    requires head < |cells| && 0 < n < |cells| && AllValid(cells, head, n)
    ensures var next := At(|cells|, head, 1);
            && AllValid(cells[head := cell], next, n - 1)
            && Window(cells[head := cell], next, n - 1) == Window(cells, head, n)[1..]
  {
    var size, next := |cells|, At(|cells|, head, 1);
    forall i | 0 <= i < n - 1
      ensures At(size, next, i) == At(size, head, i + 1) && At(size, head, i + 1) != head
    {
    }
  }

  class MPSCRingBuffer<T(0)> {
    const size: nat
    var head: nat
    var tail: nat
    const items: array<Cell<T>>

    ghost predicate Valid()
      reads this, items
    {
      && items.Length == size && head < size && tail < size
      && AllValid(items[..], head, Count(size, head, tail))
    }

    ghost function Contents(): (q: seq<T>)
      requires Valid()
      reads this, items
      ensures |q| < size
    {
      Window(items[..], head, Count(size, head, tail))
    }

    constructor (size: nat, blank: T)
      requires 0 < size
      ensures Valid() && fresh(items) && this.size == size && Contents() == []
    {
      this.size := size;
      head, tail := 0, 0;
      items := new Cell<T>[size](_ => Cell(blank, false));
    }

    method Put(x: T) returns (ok: bool)
      requires Valid()
      modifies this, items
      ensures Valid()
      ensures (Contents(), ok) == AfterPut(size, old(Contents()), x)
    {
      ghost var before := Contents();
      var oldTail := tail;
      var newTail := (oldTail + 1) % size;
      NextIsMod(size, oldTail);
      tail := newTail;
      if newTail == head {
        assert Contents() == [];
        return false;
      }
      items[oldTail] := Cell(x, true);
      assert Contents() == before + [x];
      return true;
    }

    method Get() returns (ok: bool, x: T)
      requires Valid()
      modifies this, items
      ensures Valid()
      ensures ok <==> old(Contents()) != []
      ensures ok ==> old(Contents()) == [x] + Contents()
      ensures !ok ==> Contents() == old(Contents())
    {
      x := items[head].item;
      assert head != tail ==> At(size, head, 0) == head;
      if head == tail || !items[head].valid {
        return false, x;
      }
      GiveBackFirst(items[..], head, Count(size, head, tail), items[head].(valid := false));
      NextIsMod(size, head);
      items[head] := items[head].(valid := false);
      head := (head + 1) % size;
      return true, x;
    }
  }

  // ----- the interleaved form, undisturbed

  /** What calls of `get` can still return. */
  function Visible(s: P.Ring): seq<P.Item> {
    if s.head == s.tail || |s.got| > |s.won| then [] else s.won[|s.got|..]
  }

  /** AfterPut is what `put` does step by step when nobody disturbs it: with room the item is behind what was
      visible and published, without room the call reports an overflow and nothing is visible any more. */
  lemma PutStepByStep(s: P.Ring, p: nat, item: P.Item) returns (acts: seq<P.Action>)
    requires P.Inv(s) && s.consumer.Resting? && P.Thread(s, p).Idle? && |item| == s.width
    ensures var r := P.Run(s, acts);
            var (queue, ok) := AfterPut(s.size, Visible(s), item);
            && Visible(r) == queue && P.Thread(r, p).Idle?
            && (ok ==> P.Inv(r) && r.won == s.won + [item] && r.lateFull == s.lateFull)
            && (!ok ==> r.lateFull == s.lateFull + 1)
  {
    VisibleIs(s);
    if P.Outstanding(s) < s.size - 1 {
      acts := P.PutPublishes(s, p, item);
      var r := P.Run(s, acts);
      VisibleIs(r);
      assert (s.won + [item])[|s.got|..] == s.won[|s.got|..] + [item];
    } else {
      acts := [P.Begin(p, item), P.Move(p), P.Move(p)];
      P.PutAloneExact(s, p, item);
    }
  }

  lemma VisibleIs(s: P.Ring)
    requires P.Inv(s)
    ensures |s.got| <= |s.won| && Visible(s) == s.won[|s.got|..] && s.lateFull == 0
  {
    if |s.got| < |s.won| { RemaindersDiffer(|s.got|, |s.won|, s.size); }
  }
}
