/** Whole lives of a WebSocket connection: every sequence of receives, sends, writes to the socket and
    watchdog calls on websocket/WebSocket.cpp. */
module WsLifecycle {
  import opened Bytes
  import opened Common
  import opened SendQueue
  import opened WsFrames
  import opened WsParser
  import opened WsConnection

  /** What the HTTP parser and the request handler decide about received handshake bytes: no reply (not
      complete, malformed, not a GET, or no key), a rejection, or a switch of protocol. */
  datatype Handshake = NoReply | Reject(reply: seq<byte>) | Accept(reply: seq<byte>)

  datatype Op =
    | Receive(data: seq<byte>, handshake: Handshake, now: int)
    | SendText(text: seq<byte>)
    | SendBinary(bytes: seq<byte>)
    | Transmit(n: nat)            // the socket takes at most n of the bytes it is handed
    | Watchdog(now: int)

  function ProcessData(c: Conn, data: seq<byte>, handshake: Handshake, now: int): Option<Conn>
    requires ConnOk(c)
  {
    if c.protocol == HTTP then
      match handshake
      case NoReply => Some(c)
      case Reject(reply) => Some(SendData(c, reply))
      case Accept(reply) => Some(SendData(c, reply).(protocol := WebSocket, state := Connected))
    else ReceiveLoop(c, data, now)
  }

  predicate MaySend(c: Conn) { c.protocol == HTTP || c.state == Connected }

  ghost function TransmitTurn(c: Conn, n: nat): Conn
    requires TxOk(c.tx)
  {
    if !MaySend(c) then c
    else
      var off := Offered(c.tx);
      var took := if n < |off| then n else |off|;
      if took == 0 then c.(tx := Load(c.tx))
      else c.(tx := Sent(Load(c.tx), took), sent := c.sent + off[..took])
  }

  function WatchdogTurn(c: Conn, now: int): Conn {
    if c.protocol == WebSocket && c.state == Closing && now >= c.closingTimeStamp + CLOSING_TIMEOUT
    then c.(state := Closed) else c
  }

  ghost function Step(c: Conn, op: Op): Option<Conn>
    requires ConnOk(c) && TxOk(c.tx)
  {
    match op
    case Receive(data, handshake, now) => ProcessData(c, data, handshake, now)
    case SendText(text) => Some(SendMessage(c, WS_TEXT, text))
    case SendBinary(bytes) => Some(SendMessage(c, WS_BINARY, bytes))
    case Transmit(n) => Some(TransmitTurn(c, n))
    case Watchdog(now) => Some(WatchdogTurn(c, now))
  }

  // ----- what holds of one turn of the receive loop holds of the loop

  lemma SendDataOk(c: Conn, data: seq<byte>)
    requires TxOk(c.tx)
    ensures TxOk(SendData(c, data).tx)
  {
    EnqueueAppends(TX_LIST_SIZE, c.tx, data);
  }

  lemma TurnTxOk(c: Conn, buf: seq<byte>, now: int)
    requires ConnOk(c) && TxOk(c.tx)
    ensures TxOk(ReceiveTurn(c, buf, now).conn.tx)
  {
    ParseKeepsSound(c.parser, buf);
    var c1 := c.(parser := Parse(c.parser, buf).0);
    SendDataOk(c1, CLOSE_FRAME);
    if c1.parser.acc != [] { SendDataOk(c1, Pong(c1.parser.acc)); }
  }

  lemma StepOk(c: Conn, op: Op)
    requires ConnOk(c) && TxOk(c.tx)
    ensures Step(c, op).Some? ==> ConnOk(Step(c, op).value) && TxOk(Step(c, op).value.tx)
  {
    hide Encode, TxOk, TransmitTurn, ReceiveLoop;
    match op
    case Receive(data, handshake, now) =>
      if c.protocol == WebSocket { LoopTxOk(c, data, now); }
      else if !handshake.NoReply? { SendDataOk(c, handshake.reply); }
    case SendText(text) =>
      if |text| <= 65535 { SendDataOk(c, Encode(Frame(true, 0, WS_TEXT, None, text))); }
    case SendBinary(bytes) =>
      if |bytes| <= 65535 { SendDataOk(c, Encode(Frame(true, 0, WS_BINARY, None, bytes))); }
    case Transmit(n) => TransmitOk(c, n);
    case Watchdog(_) =>
  }

  lemma TransmitOk(c: Conn, n: nat)
    requires TxOk(c.tx)
    ensures TxOk(TransmitTurn(c, n).tx) && TransmitTurn(c, n).parser == c.parser
  {
    LoadOk(c.tx);
    var off := Offered(c.tx);
    var took := if n < |off| then n else |off|;
    if took > 0 { SentTakesFront(c.tx, took); }
  }

  lemma {:induction false} LoopTxOk(c: Conn, buf: seq<byte>, now: int)
    requires ConnOk(c) && TxOk(c.tx)
    ensures var r := ReceiveLoop(c, buf, now); r.Some? ==> TxOk(r.value.tx)
    decreases |buf|
  {
    hide ReceiveTurn, TxOk, ConnOk;
    if buf != [] {
      ReceiveTurnOk(c, buf, now);
      TurnTxOk(c, buf, now);
      var t := ReceiveTurn(c, buf, now);
      if !t.leave && t.took != 0 { LoopTxOk(t.conn, buf[t.took..], now); }
    }
  }

  ghost function Run(c: Conn, ops: seq<Op>): Option<Conn>
    requires ConnOk(c) && TxOk(c.tx)
    decreases |ops|
  {
    if ops == [] then Some(c)
    else
      StepOk(c, ops[0]);
      match Step(c, ops[0])
      case None => None
      case Some(c1) => Run(c1, ops[1..])
  }

  // ----- leaving Connected is final

  /** The protocol was switched and the connection is closing or closed. */
  predicate Left(c: Conn) { c.protocol == WebSocket && c.state != Connected }

  lemma TurnStaysLeft(c: Conn, buf: seq<byte>, now: int)
    requires ConnOk(c) && Left(c)
    ensures var c1 := ReceiveTurn(c, buf, now).conn; Left(c1) && c1.sent == c.sent
  {
    hide Parse, ConnOk, Mask, Encode;
  }

  lemma {:induction false} LoopStaysLeft(c: Conn, buf: seq<byte>, now: int)
    requires ConnOk(c) && Left(c)
    ensures var r := ReceiveLoop(c, buf, now); r.Some? ==> Left(r.value) && r.value.sent == c.sent
    decreases |buf|
  {
    hide ReceiveTurn, ConnOk;
    if buf != [] {
      ReceiveTurnOk(c, buf, now);
      TurnStaysLeft(c, buf, now);
      var t := ReceiveTurn(c, buf, now);
      if !t.leave && t.took != 0 { LoopStaysLeft(t.conn, buf[t.took..], now); }
    }
  }

  /** Once a switched connection has left Connected, no sequence of calls returns it there or hands
      another byte to the socket. */
  lemma {:induction false} LeftForever(c: Conn, ops: seq<Op>)
    requires ConnOk(c) && TxOk(c.tx) && Left(c)
    ensures var r := Run(c, ops); r.Some? ==> Left(r.value) && r.value.sent == c.sent
    decreases |ops|
  {
    if ops != [] {
      StepOk(c, ops[0]);
      if ops[0].Receive? { LoopStaysLeft(c, ops[0].data, ops[0].now); }
      var r := Step(c, ops[0]);
      if r.Some? { LeftForever(r.value, ops[1..]); }
    }
  }

  // ----- what the socket was given

  /** Until the ring overflows the sent bytes and the pending ones are the accepted ones; after an
      overflow the connection has left Connected and what was sent is still a prefix. */
  ghost predicate Balanced(c: Conn) {
    && TxOk(c.tx)
    && (if c.lost then Left(c) && c.sent <= c.accepted else c.sent + Pending(c.tx) == c.accepted)
  }

  lemma SendDataBalance(c: Conn, data: seq<byte>)
    requires Balanced(c)
    requires c.protocol == WebSocket || |c.tx.queue| < TX_LIST_SIZE - 1
    ensures Balanced(SendData(c, data))
  {
    EnqueueAppends(TX_LIST_SIZE, c.tx, data);
    if !c.lost { Regroup(c.sent, Pending(c.tx), data); }
  }

  lemma TurnBalance(c: Conn, buf: seq<byte>, now: int)
    requires ConnOk(c) && Balanced(c) && c.protocol == WebSocket
    ensures var c1 := ReceiveTurn(c, buf, now).conn; Balanced(c1) && c1.protocol == WebSocket
  {
    hide Pending, TxOk, Mask, Encode, Opcode, Check;
    ParseKeepsSound(c.parser, buf);
    var c1 := c.(parser := Parse(c.parser, buf).0);
    SendDataBalance(c1, CLOSE_FRAME);
    if c1.parser.acc != [] { SendDataBalance(c1, Pong(c1.parser.acc)); }
  }

  lemma {:induction false} LoopBalance(c: Conn, buf: seq<byte>, now: int)
    requires ConnOk(c) && Balanced(c) && c.protocol == WebSocket
    ensures var r := ReceiveLoop(c, buf, now); r.Some? ==> Balanced(r.value)
    decreases |buf|
  {
    hide ReceiveTurn, ConnOk, Balanced;
    if buf != [] {
      ReceiveTurnOk(c, buf, now);
      TurnBalance(c, buf, now);
      var t := ReceiveTurn(c, buf, now);
      if !t.leave && t.took != 0 { LoopBalance(t.conn, buf[t.took..], now); }
    }
  }

  /** The ring is full when a buffer is queued before the protocol is switched. */
  predicate OverflowsInHttp(c: Conn, op: Op) {
    && c.protocol == HTTP && |c.tx.queue| >= TX_LIST_SIZE - 1
    && match op
       case Receive(_, handshake, _) => !handshake.NoReply?
       case SendText(text) => |text| <= 65535
       case SendBinary(bytes) => |bytes| <= 65535
       case _ => false
  }

  ghost predicate NeverOverflowsInHttp(c: Conn, ops: seq<Op>)
    requires ConnOk(c) && TxOk(c.tx)
    decreases |ops|
  {
    ops == [] || (
      && !OverflowsInHttp(c, ops[0])
      && (StepOk(c, ops[0]);
          Step(c, ops[0]).Some? ==> NeverOverflowsInHttp(Step(c, ops[0]).value, ops[1..])))
  }

  lemma TransmitBalance(c: Conn, n: nat)
    requires Balanced(c)
    ensures Balanced(TransmitTurn(c, n))
  {
    if MaySend(c) {
      LoadKeepsParts(c.tx);
      var off := Offered(c.tx);
      var took := if n < |off| then n else |off|;
      if took > 0 {
        SentTakesFront(c.tx, took);
        Regroup(c.sent, off[..took], Pending(Sent(Load(c.tx), took)));
      }
    }
  }

  /** A call keeps the balance exactly when it does not overflow the ring before the switch. */
  lemma StepBalance(c: Conn, op: Op)
    requires ConnOk(c) && Balanced(c)
    ensures Step(c, op).Some? ==> (Balanced(Step(c, op).value) <==> !OverflowsInHttp(c, op))
  {
    if OverflowsInHttp(c, op) { OverflowIsUnbalanced(c, op); } else { StepKeepsBalance(c, op); }
  }

  lemma OverflowIsUnbalanced(c: Conn, op: Op)
    requires ConnOk(c) && TxOk(c.tx) && OverflowsInHttp(c, op)
    ensures var r := Step(c, op);
            && r.Some? && r.value.lost && MaySend(r.value) && r.value.accepted == c.accepted && r.value.sent == c.sent
            && Pending(c.tx) == Pending(r.value.tx) + Flatten(Datas(c.tx.queue))
  {
    hide Encode, Pending, Datas, ReceiveLoop;
    match op
    case Receive(data, handshake, now) => EnqueueAppends(TX_LIST_SIZE, c.tx, handshake.reply);
    case SendText(text) => EnqueueAppends(TX_LIST_SIZE, c.tx, Encode(Frame(true, 0, WS_TEXT, None, text)));
    case SendBinary(bytes) => EnqueueAppends(TX_LIST_SIZE, c.tx, Encode(Frame(true, 0, WS_BINARY, None, bytes)));
  }

  lemma StepKeepsBalance(c: Conn, op: Op)
    requires ConnOk(c) && Balanced(c) && !OverflowsInHttp(c, op)
    ensures Step(c, op).Some? ==> Balanced(Step(c, op).value)
  {
    hide Pending, TxOk, TransmitTurn, Encode, ReceiveLoop, ConnOk;
    match op
    case Receive(data, handshake, now) =>
      if c.protocol == WebSocket { LoopBalance(c, data, now); }
      else if !handshake.NoReply? { SendDataBalance(c, handshake.reply); }
    case SendText(text) =>
      if |text| <= 65535 { SendDataBalance(c, Encode(Frame(true, 0, WS_TEXT, None, text))); }
    case SendBinary(bytes) =>
      if |bytes| <= 65535 { SendDataBalance(c, Encode(Frame(true, 0, WS_BINARY, None, bytes))); }
    case Transmit(n) => TransmitBalance(c, n);
    case Watchdog(_) =>
  }

  /** Over every run in which the ring does not overflow before the protocol is switched, the bytes
      the socket took are a prefix of the handshake replies followed by the queued frames. */
  lemma {:induction false} SentIsPrefix(c: Conn, ops: seq<Op>)
    requires ConnOk(c) && Balanced(c) && NeverOverflowsInHttp(c, ops)
    ensures var r := Run(c, ops); r.Some? ==> Balanced(r.value) && r.value.sent <= r.value.accepted
    decreases |ops|
  {
    hide Pending, TxOk, Step, OverflowsInHttp;
    if ops != [] {
      StepOk(c, ops[0]);
      StepBalance(c, ops[0]);
      var r := Step(c, ops[0]);
      if r.Some? { SentIsPrefix(r.value, ops[1..]); }
    }
  }

  /** Every state of the run is balanced. */
  ghost predicate BalancedThroughout(c: Conn, ops: seq<Op>)
    requires ConnOk(c) && TxOk(c.tx)
    decreases |ops|
  {
    Balanced(c)
    && (ops == [] || (StepOk(c, ops[0]);
                      Step(c, ops[0]).Some? ==> BalancedThroughout(Step(c, ops[0]).value, ops[1..])))
  }

  /** Over whole runs: all states are balanced if and only if the ring never overflows before the switch. */
  lemma {:induction false} RunBalance(c: Conn, ops: seq<Op>)
    requires ConnOk(c) && Balanced(c)
    ensures BalancedThroughout(c, ops) <==> NeverOverflowsInHttp(c, ops)
    decreases |ops|
  {
    hide Balanced, TxOk, Step, OverflowsInHttp, ConnOk;
    BalancedOk(c);
    if ops != [] {
      StepOk(c, ops[0]);
      StepBalance(c, ops[0]);
      var r := Step(c, ops[0]);
      if OverflowsInHttp(c, ops[0]) {
        OverflowIsUnbalanced(c, ops[0]);
      } else if r.Some? {
        RunBalance(r.value, ops[1..]);
      }
    }
  }

  lemma BalancedOk(c: Conn)
    requires Balanced(c)
    ensures TxOk(c.tx)
  {
  }

  /** What such an overflow does: every queued buffer is lost, so bytes that were accepted are missing
      exactly when the queue held any, and the connection goes on. */
  lemma HttpOverflowLoses(c: Conn, op: Op)
    requires ConnOk(c) && Balanced(c) && !c.lost && OverflowsInHttp(c, op)
    ensures Step(c, op).Some?
    ensures var c1 := Step(c, op).value;
            && TxOk(c1.tx) && MaySend(c1) && c1.accepted == c.accepted
            && c1.sent + Pending(c1.tx) + Flatten(Datas(c.tx.queue)) == c1.accepted
            && (c1.sent + Pending(c1.tx) == c1.accepted <==> Flatten(Datas(c.tx.queue)) == [])
  {
    hide Step, Datas, Pending;
    OverflowIsUnbalanced(c, op);
    StepOk(c, op);
    Regroup(c.sent, Pending(Step(c, op).value.tx), Flatten(Datas(c.tx.queue)));
  }

  // ----- no empty buffers

  /** Every buffer still has bytes to send. */
  ghost predicate NoEmptyBuffer(tx: Tx<byte>) {
    && (tx.current.Some? ==> tx.current.value.currentIndex < |tx.current.value.data|)
    && (forall i :: 0 <= i < |tx.queue| ==> tx.queue[i].data != [])
  }

  lemma SendDataFull(c: Conn, data: seq<byte>)
    requires NoEmptyBuffer(c.tx) && data != []
    ensures NoEmptyBuffer(SendData(c, data).tx)
  {
  }

  lemma TurnFull(c: Conn, buf: seq<byte>, now: int)
    requires ConnOk(c) && NoEmptyBuffer(c.tx)
    ensures NoEmptyBuffer(ReceiveTurn(c, buf, now).conn.tx)
  {
    hide NoEmptyBuffer, Mask;
    ParseKeepsSound(c.parser, buf);
    var c1 := c.(parser := Parse(c.parser, buf).0);
    SendDataFull(c1, CLOSE_FRAME);
    if c1.parser.acc != [] { SendDataFull(c1, Pong(c1.parser.acc)); }
  }

  lemma {:induction false} LoopFull(c: Conn, buf: seq<byte>, now: int)
    requires ConnOk(c) && NoEmptyBuffer(c.tx)
    ensures var r := ReceiveLoop(c, buf, now); r.Some? ==> NoEmptyBuffer(r.value.tx)
    decreases |buf|
  {
    hide ReceiveTurn, ConnOk, NoEmptyBuffer;
    if buf != [] {
      ReceiveTurnOk(c, buf, now);
      TurnFull(c, buf, now);
      var t := ReceiveTurn(c, buf, now);
      if !t.leave && t.took != 0 { LoopFull(t.conn, buf[t.took..], now); }
    }
  }

  lemma TransmitFull(c: Conn, n: nat)
    requires TxOk(c.tx) && NoEmptyBuffer(c.tx)
    ensures NoEmptyBuffer(TransmitTurn(c, n).tx)
  {
    LoadOk(c.tx);
    var l := Load(c.tx);
    if c.tx.current.None? && c.tx.queue != [] {
      assert c.tx.queue[0].data != [];
      assert Fresh(c.tx.queue[0]) by { assert c.tx.queue[0] in c.tx.queue; }
    }
    assert NoEmptyBuffer(l);
  }

  /** Frames are never empty, so a connection whose replies are not empty never queues a buffer that
      would stall the send loop, and everything pending is in reach of it. */
  lemma StepNeverStalls(c: Conn, op: Op)
    requires ConnOk(c) && TxOk(c.tx) && NoEmptyBuffer(c.tx)
    requires op.Receive? && !op.handshake.NoReply? ==> op.handshake.reply != []
    ensures Step(c, op).Some? ==>
              var c1 := Step(c, op).value;
              TxOk(c1.tx) && NoEmptyBuffer(c1.tx) && Reachable(Parts(c1.tx)) == Pending(c1.tx)
  {
    StepOk(c, op);
    match op {
      case Receive(data, handshake, now) =>
        if c.protocol == WebSocket { LoopFull(c, data, now); }
        else if !handshake.NoReply? { SendDataFull(c, handshake.reply); }
      case SendText(text) =>
        if |text| <= 65535 { SendDataFull(c, Encode(Frame(true, 0, WS_TEXT, None, text))); }
      case SendBinary(bytes) =>
        if |bytes| <= 65535 { SendDataFull(c, Encode(Frame(true, 0, WS_BINARY, None, bytes))); }
      case Transmit(n) => TransmitFull(c, n);
      case Watchdog(_) =>
    }
    if Step(c, op).Some? { FullIsReachable(Step(c, op).value.tx); }
  }

  /** Every handshake reply of the run has bytes. */
  predicate RepliesNotEmpty(ops: seq<Op>) {
    forall i :: 0 <= i < |ops| ==>
      ops[i].Receive? && !ops[i].handshake.NoReply? ==> ops[i].handshake.reply != []
  }

  /** So after any run with such replies everything pending is in reach of the send loop. */
  lemma {:induction false} RunNeverStalls(c: Conn, ops: seq<Op>)
    requires ConnOk(c) && TxOk(c.tx) && NoEmptyBuffer(c.tx) && RepliesNotEmpty(ops)
    ensures Run(c, ops).Some? ==>
              var c1 := Run(c, ops).value;
              TxOk(c1.tx) && NoEmptyBuffer(c1.tx) && Reachable(Parts(c1.tx)) == Pending(c1.tx)
    decreases |ops|
  {
    hide Step, NoEmptyBuffer, ConnOk, Reachable, Pending, Parts, TxOk;
    if ops == [] {
      FullIsReachable(c.tx);
    } else {
      StepOk(c, ops[0]);
      StepNeverStalls(c, ops[0]);
      var r := Step(c, ops[0]);
      if r.Some? {
        assert forall i :: 0 <= i < |ops| - 1 ==> ops[1..][i] == ops[i + 1];
        RunNeverStalls(r.value, ops[1..]);
      }
    }
  }

  lemma FullIsReachable(tx: Tx<byte>)
    requires TxOk(tx) && NoEmptyBuffer(tx)
    ensures Reachable(Parts(tx)) == Pending(tx)
  {
    ReachableIsAll(Parts(tx));
  }

  // ----- the stream a client reads

  /** The frames of the messages that are not dropped for their size. */
  function FramesOf(ms: seq<Message>): (fs: seq<Frame>)
    requires forall i :: 0 <= i < |ms| ==> ms[i].opcode == WS_TEXT || ms[i].opcode == WS_BINARY
    ensures forall i :: 0 <= i < |fs| ==> WellFormed(fs[i])
  {
    if ms == [] then []
    else
      (if |ms[0].payload| > 65535 then [] else [Frame(true, 0, ms[0].opcode, None, ms[0].payload)]) + FramesOf(ms[1..])
  }

  /** One call of sendText or sendBinary after the other. */
  function SendAll(c: Conn, ms: seq<Message>): Conn
    requires forall i :: 0 <= i < |ms| ==> ms[i].opcode == WS_TEXT || ms[i].opcode == WS_BINARY
    decreases |ms|
  {
    if ms == [] then c else SendAll(SendMessage(c, ms[0].opcode, ms[0].payload), ms[1..])
  }

  /** The messages are too many for the ring. */
  predicate TooMany(c: Conn, ms: seq<Message>)
    requires forall i :: 0 <= i < |ms| ==> ms[i].opcode == WS_TEXT || ms[i].opcode == WS_BINARY
  {
    FramesOf(ms) != [] && |c.tx.queue| + |FramesOf(ms)| >= 1000
  }

  lemma EnqueueCounts(capacity: nat, tx: Tx<byte>, data: seq<byte>)
    ensures Enqueue(capacity, tx, data).1 ==> |Enqueue(capacity, tx, data).0.queue| == |tx.queue| + 1
  {
  }

  lemma {:induction false} SendAllAppends(c: Conn, ms: seq<Message>)
    requires forall i :: 0 <= i < |ms| ==> ms[i].opcode == WS_TEXT || ms[i].opcode == WS_BINARY
    requires TxOk(c.tx)
    ensures TxOk(SendAll(c, ms).tx)
    ensures SendAll(c, ms).lost <==> c.lost || TooMany(c, ms)
    ensures !TooMany(c, ms) ==> Pending(SendAll(c, ms).tx) == Pending(c.tx) + EncodeAll(FramesOf(ms))
    decreases |ms|
  {
    hide Encode, Pending, TxOk;
    if ms == [] {
      assert Pending(c.tx) + [] == Pending(c.tx);
    } else {
      var c1 := SendMessage(c, ms[0].opcode, ms[0].payload);
      if |ms[0].payload| > 65535 {
        SendAllAppends(c, ms[1..]);
        assert [] + FramesOf(ms[1..]) == FramesOf(ms[1..]);
      } else {
        var f := Frame(true, 0, ms[0].opcode, None, ms[0].payload);
        EnqueueAppends(TX_LIST_SIZE, c.tx, Encode(f));
        EnqueueCounts(TX_LIST_SIZE, c.tx, Encode(f));
        SendAllAppends(c1, ms[1..]);
        Regroup(Pending(c.tx), Encode(f), EncodeAll(FramesOf(ms[1..])));
        assert FramesOf(ms)[1..] == FramesOf(ms[1..]);
      }
    }
  }

  /** Whatever is sent in whatever order: what a decoder written from the standard reads behind the bytes
      already pending are exactly the messages of at most 65535 bytes, each in one final unmasked frame of
      the shortest form. */
  lemma SentMessagesDecode(c: Conn, ms: seq<Message>)
    requires forall i :: 0 <= i < |ms| ==> ms[i].opcode == WS_TEXT || ms[i].opcode == WS_BINARY
    requires TxOk(c.tx) && !c.lost
    ensures TxOk(SendAll(c, ms).tx) && (SendAll(c, ms).lost <==> TooMany(c, ms))
    ensures var after := Pending(SendAll(c, ms).tx);
            !TooMany(c, ms) ==>
              Pending(c.tx) <= after && DecodeAll(after[|Pending(c.tx)|..]) == Some(Shortest(FramesOf(ms)))
  {
    SendAllAppends(c, ms);
    DecodeAllEncodeAll(FramesOf(ms));
  }
}
