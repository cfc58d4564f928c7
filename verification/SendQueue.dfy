/** The transmit side that webserver/TcpClient.cpp and websocket/WebSocket.cpp share, as functions: a
    buffer being sent and a ring of buffers waiting behind it. */
module SendQueue {
  import opened Common
  import opened RingBuffer

  datatype SendBuffer<T> = SendBuffer(data: seq<T>, currentIndex: nat)

  /** `current` is None when the buffer pointer is null. */
  datatype Tx<T> = Tx(current: Option<SendBuffer<T>>, queue: seq<SendBuffer<T>>)

  predicate Fresh<T>(b: SendBuffer<T>) { b.currentIndex == 0 }

  ghost predicate TxOk<T>(tx: Tx<T>) {
    && (tx.current.Some? ==> tx.current.value.currentIndex <= |tx.current.value.data|)
    && (forall b :: b in tx.queue ==> Fresh(b))
  }

  function Enqueue<T>(capacity: nat, tx: Tx<T>, data: seq<T>): (Tx<T>, bool) {
    var (queue, ok) := AfterPut(capacity, tx.queue, SendBuffer(data, 0));
    (tx.(queue := queue), ok)
  }

  /** The first half of getTxData: take the next buffer when none is being sent. */
  function Load<T>(tx: Tx<T>): Tx<T> {
    if tx.current.None? && tx.queue != [] then Tx(Some(tx.queue[0]), tx.queue[1..]) else tx
  }

  lemma LoadOk<T>(tx: Tx<T>)
    requires TxOk(tx)
    ensures TxOk(Load(tx))
  {
    if tx.current.None? && tx.queue != [] {
      assert tx.queue[0] in tx.queue && Fresh(tx.queue[0]);
      assert forall b :: b in tx.queue[1..] ==> b in tx.queue;
    }
  }

  /** What getTxData hands to the socket; empty means that the send loop stops. */
  ghost function Offered<T>(tx: Tx<T>): seq<T>
    requires TxOk(tx)
  {
    LoadOk(tx);
    match Load(tx).current
    case None => []
    case Some(b) => b.data[b.currentIndex..]
  }

  /** onDataSent: the socket took n of the bytes last handed out. */
  function Sent<T>(tx: Tx<T>, n: nat): Tx<T> {
    match tx.current
    case None => tx
    case Some(b) =>
      if b.currentIndex + n == |b.data| then tx.(current := None)
      else tx.(current := Some(b.(currentIndex := b.currentIndex + n)))
  }

  // ----- what is still to be sent

  function Datas<T>(queue: seq<SendBuffer<T>>): (r: seq<seq<T>>)
    ensures |r| == |queue|
  {
    seq(|queue|, i requires 0 <= i < |queue| => queue[i].data)
  }

  /** The rest of the current buffer and the queued buffers, in order. */
  ghost function Parts<T>(tx: Tx<T>): seq<seq<T>>
    requires TxOk(tx)
  {
    (match tx.current
     case None => []
     case Some(b) => [b.data[b.currentIndex..]]) + Datas(tx.queue)
  }

  ghost function Pending<T>(tx: Tx<T>): seq<T>
    requires TxOk(tx)
  {
    Flatten(Parts(tx))
  }

  /** The bytes in front of the first empty part. */
  ghost function Reachable<T>(parts: seq<seq<T>>): seq<T> {
    if parts == [] || parts[0] == [] then [] else parts[0] + Reachable(parts[1..])
  }

  /** Nothing but empty parts follows the first empty part. */
  ghost predicate NoDataBehindEmpty<T>(parts: seq<seq<T>>) {
    forall i, j :: 0 <= i < j < |parts| && parts[i] == [] ==> parts[j] == []
  }

  lemma LoadKeepsParts<T>(tx: Tx<T>)
    requires TxOk(tx)
    ensures TxOk(Load(tx)) && Parts(Load(tx)) == Parts(tx)
  {
    if tx.current.None? && tx.queue != [] {
      assert tx.queue[0] in tx.queue;
      assert Datas(tx.queue) == [tx.queue[0].data] + Datas(tx.queue[1..]);
      assert Fresh(tx.queue[0]);
    }
  }

  /** Taking n > 0 items off the first part. */
  lemma TakeFront<T>(first: seq<T>, tail: seq<seq<T>>, n: nat)
    requires 0 < n <= |first|
    ensures var left := if n == |first| then tail else [first[n..]] + tail;
            && Flatten([first] + tail) == first[..n] + Flatten(left)
            && Reachable([first] + tail) == first[..n] + Reachable(left)
  {
    assert ([first] + tail)[1..] == tail;
    if n < |first| {
      var rest := first[n..];
      assert ([rest] + tail)[1..] == tail;
      Regroup(first[..n], rest, Flatten(tail));
      Regroup(first[..n], rest, Reachable(tail));
      assert first[..n] + rest == first;
    }
  }

  /** Sending n of the offered bytes takes exactly them off the front of what is pending. */
  lemma SentTakesFront<T>(tx: Tx<T>, n: nat)
    requires TxOk(tx) && 0 < n <= |Offered(tx)|
    ensures var tx' := Sent(Load(tx), n);
            && TxOk(tx')
            && Pending(tx) == Offered(tx)[..n] + Pending(tx')
            && Reachable(Parts(tx)) == Offered(tx)[..n] + Reachable(Parts(tx'))
            && ([] in Parts(tx) ==> [] in Parts(tx'))
  {
    LoadKeepsParts(tx);
    var l, tx' := Load(tx), Sent(Load(tx), n);
    var first, tail := Offered(tx), Datas(l.queue);
    assert Parts(tx) == [first] + tail;
    TakeFront(first, tail, n);
    if n == |first| {
      assert Parts(tx') == tail;
    } else {
      assert tx'.current.value.data[tx'.current.value.currentIndex..] == first[n..];
      assert Parts(tx') == [first[n..]] + tail;
    }
  }

  /** When nothing is offered the send loop has reached the first empty part, or the end. */
  lemma StopsAtEmpty<T>(tx: Tx<T>)
    requires TxOk(tx) && Offered(tx) == []
    ensures Reachable(Parts(tx)) == [] && TxOk(Load(tx)) && Offered(Load(tx)) == [] && Parts(Load(tx)) == Parts(tx)
  {
    LoadKeepsParts(tx);
  }

  lemma EnqueueAppends<T>(capacity: nat, tx: Tx<T>, data: seq<T>)
    requires TxOk(tx)
    ensures var (tx', ok) := Enqueue(capacity, tx, data);
            && TxOk(tx')
            && (ok <==> |tx.queue| < capacity - 1)
            && (ok ==> Pending(tx') == Pending(tx) + data && Parts(tx') == Parts(tx) + [data])
            && (!ok ==> Pending(tx) == Pending(tx') + Flatten(Datas(tx.queue)))
  {
    var (tx', ok) := Enqueue(capacity, tx, data);
    var front := Parts(tx.(queue := []));
    assert Parts(tx) == front + Datas(tx.queue);
    FlattenConcat(front, Datas(tx.queue));
    if ok {
      assert Parts(tx') == Parts(tx) + [data];
      FlattenConcat(Parts(tx), [data]);
      assert Flatten([data]) == data;
    } else {
      assert Parts(tx') == front;
    }
  }

  // ----- runs of sends and writes

  /** Send: some thread queues a buffer. Write: one turn of the send loop in which the socket takes at
      most n of the offered bytes. */
  datatype Op<T> = Send(data: seq<T>) | Write(n: nat)

  datatype Log<T> = Log(tx: Tx<T>, accepted: seq<T>, sent: seq<T>, overflowed: bool)

  ghost function Turn<T>(capacity: nat, l: Log<T>, op: Op<T>): (r: Log<T>)
    requires TxOk(l.tx)
    ensures TxOk(r.tx)
  {
    match op
    case Send(data) =>
      EnqueueAppends(capacity, l.tx, data);
      var (tx, ok) := Enqueue(capacity, l.tx, data);
      l.(tx := tx, accepted := if ok then l.accepted + data else l.accepted, overflowed := l.overflowed || !ok)
    case Write(n) =>
      LoadKeepsParts(l.tx);
      var off := Offered(l.tx);
      var took := if n < |off| then n else |off|;
      if took == 0 then l.(tx := Load(l.tx))
      else SentTakesFront(l.tx, took); l.(tx := Sent(Load(l.tx), took), sent := l.sent + off[..took])
  }

  ghost function Turns<T>(capacity: nat, l: Log<T>, ops: seq<Op<T>>): (r: Log<T>)
    requires TxOk(l.tx)
    ensures TxOk(r.tx)
    decreases |ops|
  {
    if ops == [] then l else Turns(capacity, Turn(capacity, l, ops[0]), ops[1..])
  }

  ghost predicate Conserved<T>(l: Log<T>) {
    TxOk(l.tx) && l.sent + Pending(l.tx) == l.accepted
  }

  /** One turn keeps the balance exactly when it does not overflow a ring that holds bytes. */
  lemma TurnConserves<T>(capacity: nat, l: Log<T>, op: Op<T>)
    requires Conserved(l)
    ensures Conserved(Turn(capacity, l, op))
            <==> (op.Send? ==> |l.tx.queue| < capacity - 1 || Flatten(Datas(l.tx.queue)) == [])
  {
    hide Pending, Offered;
    var l' := Turn(capacity, l, op);
    match op
    case Send(data) =>
      EnqueueAppends(capacity, l.tx, data);
      if |l.tx.queue| < capacity - 1 {
        Regroup(l.sent, Pending(l.tx), data);
      } else {
        Regroup(l.sent, Pending(l'.tx), Flatten(Datas(l.tx.queue)));
      }
    case Write(n) =>
      LoadKeepsParts(l.tx);
      SamePending(l.tx, Load(l.tx));
      var off := Offered(l.tx);
      var took := if n < |off| then n else |off|;
      if took != 0 {
        SentTakesFront(l.tx, took);
        Regroup(l.sent, off[..took], Pending(l'.tx));
      }
  }

  lemma SamePending<T>(a: Tx<T>, b: Tx<T>)
    requires TxOk(a) && TxOk(b) && Parts(a) == Parts(b)
    ensures Pending(a) == Pending(b)
  {
  }

  lemma {:induction false} OverflowStays<T>(capacity: nat, l: Log<T>, ops: seq<Op<T>>)
    requires TxOk(l.tx) && l.overflowed
    ensures Turns(capacity, l, ops).overflowed
    decreases |ops|
  {
    if ops != [] { OverflowStays(capacity, Turn(capacity, l, ops[0]), ops[1..]); }
  }

  /** Conservation over every run without an overflow: the bytes sent, then what is pending, are the
      accepted buffers in order. */
  lemma {:induction false} RunConserves<T>(capacity: nat, l: Log<T>, ops: seq<Op<T>>)
    requires Conserved(l) && !Turns(capacity, l, ops).overflowed
    ensures Conserved(Turns(capacity, l, ops))
    decreases |ops|
  {
    if ops != [] {
      TurnConserves(capacity, l, ops[0]);
      var l1 := Turn(capacity, l, ops[0]);
      if l1.overflowed { OverflowStays(capacity, l1, ops[1..]); }
      if ops[0].Send? { EnqueueAppends(capacity, l.tx, ops[0].data); }
      RunConserves(capacity, l1, ops[1..]);
    }
  }

  /** The send overflows a ring that holds bytes. */
  predicate Loses<T>(capacity: nat, l: Log<T>, op: Op<T>) {
    op.Send? && |l.tx.queue| >= capacity - 1 && Flatten(Datas(l.tx.queue)) != []
  }

  ghost predicate NeverLoses<T>(capacity: nat, l: Log<T>, ops: seq<Op<T>>)
    requires TxOk(l.tx)
    decreases |ops|
  {
    ops == [] || (!Loses(capacity, l, ops[0]) && NeverLoses(capacity, Turn(capacity, l, ops[0]), ops[1..]))
  }

  ghost predicate ConservedThroughout<T>(capacity: nat, l: Log<T>, ops: seq<Op<T>>)
    requires TxOk(l.tx)
    decreases |ops|
  {
    Conserved(l) && (ops == [] || ConservedThroughout(capacity, Turn(capacity, l, ops[0]), ops[1..]))
  }

  /** Over whole runs: every state is conserved if and only if no turn overflows a ring that holds bytes. */
  lemma {:induction false} ConservesExactly<T>(capacity: nat, l: Log<T>, ops: seq<Op<T>>)
    requires Conserved(l)
    ensures ConservedThroughout(capacity, l, ops) <==> NeverLoses(capacity, l, ops)
    decreases |ops|
  {
    hide Turn, Pending;
    if ops != [] {
      TurnConserves(capacity, l, ops[0]);
      if !Loses(capacity, l, ops[0]) { ConservesExactly(capacity, Turn(capacity, l, ops[0]), ops[1..]); }
    }
  }

  // ----- draining

  lemma {:induction false} ReachableIsAll<T>(parts: seq<seq<T>>)
    ensures Reachable(parts) == Flatten(parts) <==> NoDataBehindEmpty(parts)
  {
    if parts != [] {
      var rest := parts[1..];
      ReachableIsAll(rest);
      if parts[0] == [] {
        EmptyFlatten(parts);
      } else {
        if NoDataBehindEmpty(parts) {
          assert forall i, j :: 0 <= i < j < |rest| ==> rest[i] == parts[i + 1] && rest[j] == parts[j + 1];
        } else {
          var i, j :| 0 <= i < j < |parts| && parts[i] == [] && parts[j] != [];
          assert rest[i - 1] == [] && rest[j - 1] != [];
        }
        if Reachable(rest) != Flatten(rest) && parts[0] + Reachable(rest) == parts[0] + Flatten(rest) {
          CancelPrefix(parts[0], Reachable(rest), Flatten(rest));
        }
      }
    }
  }

  lemma {:induction false} EmptyFlatten<T>(parts: seq<seq<T>>)
    ensures Flatten(parts) == [] <==> forall j :: 0 <= j < |parts| ==> parts[j] == []
  {
    if parts != [] {
      EmptyFlatten(parts[1..]);
      assert forall j :: 0 <= j < |parts[1..]| ==> parts[1..][j] == parts[j + 1];
      if forall j :: 0 <= j < |parts[1..]| ==> parts[1..][j] == [] {
        assert forall j :: 0 < j < |parts| ==> parts[j] == parts[1..][j - 1];
      }
    }
  }

  /** Once an empty buffer is being sent, nothing is ever handed to the socket again. */
  lemma {:induction false} EmptyBufferStalls<T>(capacity: nat, l: Log<T>, ops: seq<Op<T>>)
    requires TxOk(l.tx) && l.tx.current.Some? && Offered(l.tx) == []
    ensures Turns(capacity, l, ops).sent == l.sent
    decreases |ops|
  {
    if ops != [] { EmptyBufferStalls(capacity, Turn(capacity, l, ops[0]), ops[1..]); }
  }

  lemma {:induction false} ReachableStops<T>(a: seq<seq<T>>, b: seq<seq<T>>)
    requires [] in a
    ensures Reachable(a + b) == Reachable(a)
  {
    assert (a + b)[0] == a[0];
    if a[0] != [] {
      assert (a + b)[1..] == a[1..] + b;
      ReachableStops(a[1..], b);
    }
  }

  /** Whatever is queued and written: nothing behind an empty buffer ever comes in reach. */
  lemma {:induction false} BlockedRun<T>(capacity: nat, l: Log<T>, ops: seq<Op<T>>)
    requires TxOk(l.tx) && [] in Parts(l.tx) && !Turns(capacity, l, ops).overflowed
    ensures var r := Turns(capacity, l, ops);
            [] in Parts(r.tx) && r.sent + Reachable(Parts(r.tx)) == l.sent + Reachable(Parts(l.tx))
    decreases |ops|
  {
    hide TxOk, Parts, Turn, Reachable;
    if ops != [] {
      var l1 := Turn(capacity, l, ops[0]);
      if l1.overflowed { OverflowStays(capacity, l1, ops[1..]); }
      BlockedTurn(capacity, l, ops[0]);
      BlockedRun(capacity, l1, ops[1..]);
    }
  }

  lemma BlockedTurn<T>(capacity: nat, l: Log<T>, op: Op<T>)
    requires TxOk(l.tx) && [] in Parts(l.tx) && !Turn(capacity, l, op).overflowed
    ensures var r := Turn(capacity, l, op);
            [] in Parts(r.tx) && r.sent + Reachable(Parts(r.tx)) == l.sent + Reachable(Parts(l.tx))
  {
    hide Reachable, Parts, Offered;
    match op
    case Send(data) =>
      EnqueueAppends(capacity, l.tx, data);
      ReachableStops(Parts(l.tx), [data]);
    case Write(n) =>
      LoadKeepsParts(l.tx);
      var off := Offered(l.tx);
      var took := if n < |off| then n else |off|;
      if took != 0 {
        SentTakesFront(l.tx, took);
        Regroup(l.sent, off[..took], Reachable(Parts(Turn(capacity, l, op).tx)));
      }
  }
}
