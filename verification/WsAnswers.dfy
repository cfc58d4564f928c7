/** What the engine of websocket/WebSocket.cpp does in answer to its peer and to its timer: the handshake, the
    bytes it queues, the close handshake and the watchdog. */
module WsAnswers {
  import opened Bytes
  import opened Common
  import opened SendQueue
  import opened WsFrames
  import opened WsParser
  import opened WsConnection
  import opened WsLifecycle
  import opened WsStream

  // ----- the handshake

  predicate Accepts(op: WsLifecycle.Op) { op.Receive? && op.handshake.Accept? }

  predicate NoneAccepts(ops: seq<WsLifecycle.Op>) { forall i :: 0 <= i < |ops| ==> !Accepts(ops[i]) }

  lemma HttpStep(c: Conn, op: WsLifecycle.Op)
    requires ConnOk(c) && TxOk(c.tx) && c.protocol == HTTP
    ensures Step(c, op).Some?
    ensures var r := Step(c, op).value;
            if Accepts(op) then r.protocol == WebSocket && r.state == Connected else r.protocol == HTTP
  {
    hide Encode;
  }

  lemma SwitchedStep(c: Conn, op: WsLifecycle.Op)
    requires ConnOk(c) && TxOk(c.tx) && c.protocol == WebSocket
    ensures Step(c, op).Some? ==> Step(c, op).value.protocol == WebSocket
  {
    hide Encode, ReceiveLoop;
    if op.Receive? { LoopKeepsProtocol(c, op.data, op.now); }
  }

  lemma TurnKeepsProtocol(c: Conn, buf: seq<byte>, now: int)
    requires ConnOk(c)
    ensures ReceiveTurn(c, buf, now).conn.protocol == c.protocol
  {
    hide Parse, Mask, Encode, ConnOk;
  }

  lemma {:induction false} LoopKeepsProtocol(c: Conn, buf: seq<byte>, now: int)
    requires ConnOk(c)
    ensures var r := ReceiveLoop(c, buf, now); r.Some? ==> r.value.protocol == c.protocol
    decreases |buf|
  {
    hide ReceiveTurn, ConnOk;
    if buf != [] {
      ReceiveTurnOk(c, buf, now);
      TurnKeepsProtocol(c, buf, now);
      var t := ReceiveTurn(c, buf, now);
      if !t.leave && t.took != 0 { LoopKeepsProtocol(t.conn, buf[t.took..], now); }
    }
  }

  lemma {:induction false} StaysSwitched(c: Conn, ops: seq<WsLifecycle.Op>)
    requires ConnOk(c) && TxOk(c.tx) && c.protocol == WebSocket
    ensures Run(c, ops).Some? ==> Run(c, ops).value.protocol == WebSocket
    decreases |ops|
  {
    hide Step, ConnOk, TxOk;
    if ops != [] {
      StepOk(c, ops[0]);
      SwitchedStep(c, ops[0]);
      var r := Step(c, ops[0]);
      if r.Some? { StaysSwitched(r.value, ops[1..]); }
    }
  }

  /** A connection that starts in HTTP has switched after a run if and only if some handshake of the run was
      accepted; as long as none is, every run ends. */
  lemma {:induction false} SwitchesExactly(c: Conn, ops: seq<WsLifecycle.Op>)
    requires ConnOk(c) && TxOk(c.tx) && c.protocol == HTTP
    ensures NoneAccepts(ops) ==> Run(c, ops).Some?
    ensures Run(c, ops).Some? ==> (Run(c, ops).value.protocol == HTTP <==> NoneAccepts(ops))
    decreases |ops|
  {
    hide Step, ConnOk, TxOk, Accepts;
    if ops != [] {
      StepOk(c, ops[0]);
      HttpStep(c, ops[0]);
      ShiftedItems(ops);
      var r := Step(c, ops[0]).value;
      if Accepts(ops[0]) { StaysSwitched(r, ops[1..]); } else { SwitchesExactly(r, ops[1..]); }
    }
  }

  /** Right after the first accepted handshake the connection is a connected WebSocket. */
  lemma {:induction false} AcceptConnects(c: Conn, before: seq<WsLifecycle.Op>, op: WsLifecycle.Op)
    requires ConnOk(c) && TxOk(c.tx) && c.protocol == HTTP && NoneAccepts(before) && Accepts(op)
    ensures var r := Run(c, before + [op]);
            r.Some? && r.value.protocol == WebSocket && r.value.state == Connected
    decreases |before|
  {
    hide Step, ConnOk, TxOk, Accepts;
    if before == [] {
      assert [] + [op] == [op] && [op][1..] == [];
      StepOk(c, op);
      HttpStep(c, op);
    } else {
      StepOk(c, before[0]);
      HttpStep(c, before[0]);
      ShiftedItems(before);
      assert (before + [op])[1..] == before[1..] + [op];
      AcceptConnects(Step(c, before[0]).value, before[1..], op);
    }
  }

  // ----- the bytes that are queued, written out from what happens

  /** What the engine writes when a whole frame is there. */
  function FrameWrites(state: WSState, frame: seq<byte>): seq<byte>
    requires frame != []
  {
    var opcode := Opcode(frame[0]);
    if opcode == 0 || opcode == 1 || opcode == 2 then []
    else if opcode == 8 then (if state == Connected then CLOSE_FRAME else [])
    else if opcode == 9 then Pong(frame)
    else CLOSE_FRAME
  }

  function TurnWrites(c: Conn, buf: seq<byte>): seq<byte>
    requires ConnOk(c)
  {
    ParseKeepsSound(c.parser, buf);
    match Parse(c.parser, buf)
    case (_, Error) => CLOSE_FRAME
    case (parser, MessageReady(_, _)) => FrameWrites(c.state, parser.acc)
    case (_, MessageIncomplete) => []
  }

  function LoopWrites(c: Conn, buf: seq<byte>, now: int): seq<byte>
    requires ConnOk(c)
    decreases |buf|
  {
    if buf == [] then []
    else
      var t := ReceiveTurn(c, buf, now);
      ReceiveTurnOk(c, buf, now);
      TurnWrites(c, buf) + if t.leave || t.took == 0 then [] else LoopWrites(t.conn, buf[t.took..], now)
  }

  /** A handshake reply, the answers to received frames, or one frame for a text or binary message. */
  function StepWrites(c: Conn, op: WsLifecycle.Op): seq<byte>
    requires ConnOk(c)
  {
    match op
    case Receive(data, handshake, now) =>
      if c.protocol == WebSocket then LoopWrites(c, data, now)
      else (match handshake case NoReply => [] case Reject(reply) => reply case Accept(reply) => reply)
    case SendText(text) => if |text| > 65535 then [] else Encode(Frame(true, 0, 1, None, text))
    case SendBinary(bytes) => if |bytes| > 65535 then [] else Encode(Frame(true, 0, 2, None, bytes))
    case Transmit(_) => []
    case Watchdog(_) => []
  }

  ghost function RunWrites(c: Conn, ops: seq<WsLifecycle.Op>): seq<byte>
    requires ConnOk(c) && TxOk(c.tx)
    decreases |ops|
  {
    if ops == [] then []
    else
      StepOk(c, ops[0]);
      match Step(c, ops[0])
      case None => []
      case Some(c1) => StepWrites(c, ops[0]) + RunWrites(c1, ops[1..])
  }

  /** Unless a buffer was lost, exactly these bytes were accepted; once lost, always lost. */
  predicate Wrote(c: Conn, r: Conn, bytes: seq<byte>) {
    (c.lost ==> r.lost) && (!r.lost ==> r.accepted == c.accepted + bytes)
  }

  lemma WroteTwice(c: Conn, r: Conn, s: Conn, a: seq<byte>, b: seq<byte>)
    requires Wrote(c, r, a) && Wrote(r, s, b)
    ensures Wrote(c, s, a + b)
  {
    Regroup(c.accepted, a, b);
  }

  lemma TurnWrote(c: Conn, buf: seq<byte>, now: int)
    requires ConnOk(c)
    ensures Wrote(c, ReceiveTurn(c, buf, now).conn, TurnWrites(c, buf))
  {
    hide Parse, Mask, Pong;
    ParseKeepsSound(c.parser, buf);
    assert c.accepted + [] == c.accepted;
  }

  lemma {:induction false} LoopWrote(c: Conn, buf: seq<byte>, now: int)
    requires ConnOk(c)
    ensures var r := ReceiveLoop(c, buf, now); r.Some? ==> Wrote(c, r.value, LoopWrites(c, buf, now))
    decreases |buf|
  {
    hide ReceiveTurn, TurnWrites, ConnOk;
    assert c.accepted + [] == c.accepted;
    if buf != [] {
      ReceiveTurnOk(c, buf, now);
      TurnWrote(c, buf, now);
      var t := ReceiveTurn(c, buf, now);
      assert TurnWrites(c, buf) + [] == TurnWrites(c, buf);
      if !t.leave && t.took != 0 {
        LoopWrote(t.conn, buf[t.took..], now);
        var r := ReceiveLoop(t.conn, buf[t.took..], now);
        if r.Some? {
          WroteTwice(c, t.conn, r.value, TurnWrites(c, buf), LoopWrites(t.conn, buf[t.took..], now));
        }
      }
    }
  }

  lemma StepWrote(c: Conn, op: WsLifecycle.Op)
    requires ConnOk(c) && TxOk(c.tx)
    ensures Step(c, op).Some? ==> Wrote(c, Step(c, op).value, StepWrites(c, op))
  {
    hide Encode, ReceiveLoop, LoopWrites, ConnOk, TxOk;
    assert c.accepted + [] == c.accepted;
    if op.Receive? && c.protocol == WebSocket { LoopWrote(c, op.data, op.now); }
  }

  /** Over every run in which no buffer is lost, the accepted bytes are the handshake replies, the frames of
      the messages sent and the answers to received frames, in order. */
  lemma {:induction false} AcceptedExactly(c: Conn, ops: seq<WsLifecycle.Op>)
    requires ConnOk(c) && TxOk(c.tx)
    ensures Run(c, ops).Some? ==> Wrote(c, Run(c, ops).value, RunWrites(c, ops))
    decreases |ops|
  {
    hide Step, StepWrites, ConnOk, TxOk;
    assert c.accepted + [] == c.accepted;
    if ops != [] {
      StepOk(c, ops[0]);
      StepWrote(c, ops[0]);
      var r := Step(c, ops[0]);
      if r.Some? {
        AcceptedExactly(r.value, ops[1..]);
        var s := Run(r.value, ops[1..]);
        if s.Some? { WroteTwice(c, r.value, s.value, StepWrites(c, ops[0]), RunWrites(r.value, ops[1..])); }
      }
    }
  }

  // ----- answers to single frames

  /** The close frame is a final, unmasked close frame without payload. */
  lemma CloseFrameIs()
    ensures CLOSE_FRAME == Encode(Frame(true, 0, 8, None, []))
    ensures Decode(CLOSE_FRAME) == Some(Decoded(Frame(true, 0, 8, None, []), 0, []))
  {
    var f := Frame(true, 0, 8, None, []);
    assert CLOSE_FRAME == Encode(f);
    DecodeEncode(f, []);
    assert Encode(f) + [] == Encode(f);
  }

  lemma SendDataQueues(c: Conn, data: seq<byte>)
    requires TxOk(c.tx) && |c.tx.queue| < TX_LIST_SIZE - 1
    ensures var r := SendData(c, data);
            TxOk(r.tx) && Pending(r.tx) == Pending(c.tx) + data && r.state == c.state
  {
    EnqueueAppends(TX_LIST_SIZE, c.tx, data);
  }

  /** The answer to every frame, while the ring has room: a ping is answered by the pong with its payload and
      mask and changes no state, a close frame is answered by a close frame unless one was sent already and
      closes the connection, an unknown opcode starts closing, data is not answered. */
  lemma FrameAnswers(c: Conn, f: Frame, now: int)
    requires MaskedFrame(f) && TxOk(c.tx) && |c.tx.queue| < TX_LIST_SIZE - 1
    ensures var r := Handle(c, f, now);
            var close := Encode(Frame(true, 0, 8, None, []));
            && TxOk(r.tx)
            && (f.opcode == 0 || f.opcode == 1 || f.opcode == 2 ==> r.tx == c.tx && r.state == c.state)
            && (f.opcode == 8 ==> r.state == Closed && r.messages == c.messages
                                  && Pending(r.tx) == Pending(c.tx) + if c.state == Connected then close else [])
            && (f.opcode == 9 ==> r.state == c.state && r.messages == c.messages
                                  && Pending(r.tx) == Pending(c.tx) + Encode(f.(opcode := 10)))
            && (f.opcode == 10 || 2 < f.opcode < 8 || f.opcode > 10 ==>
                  r.state == Closing && r.closingTimeStamp == now && r.messages == c.messages
                  && Pending(r.tx) == Pending(c.tx) + close)
  {
    hide Encode, Pending;
    CloseFrameIs();
    SendDataQueues(c, CLOSE_FRAME);
    SendDataQueues(c, Encode(f.(opcode := WS_PONG)));
    assert Pending(c.tx) + [] == Pending(c.tx);
  }

  /** The first two bytes of an unmasked frame make the connection close. */
  lemma UnmaskedIsRefused(f: Frame, n: nat, c: Conn, buf: seq<byte>, now: int)
    requires WellFormed(f) && f.mask.None? && Holding(f, n, c) && n < HEADER <= n + |buf|
    requires buf[..if |buf| < |Encode(f)| - n then |buf| else |Encode(f)| - n] <= Encode(f)[n..]
    ensures var r := ReceiveLoop(c, buf, now);
            && r == Some(CloseWebSocket(c, now).(parser := PState(Encode(f)[..HEADER], HEADER)))
            && Refused(r.value) && r.value.state == Closing && r.value.closingTimeStamp == now
  {
    hide Encode, Masked, PayloadLength, Parse, WholePacket;
    EncodedParts(f, []);
    assert Encode(f) + [] == Encode(f);
    UnmaskedParse(f, n, c.parser, buf);
    ReceiveTurnOk(c, buf, now);
    assert ReceiveTurn(c, buf, now).leave;
  }

  // ----- the watchdog

  function Checks(times: seq<int>): (ops: seq<WsLifecycle.Op>)
    ensures |ops| == |times|
  {
    if times == [] then [] else [WsLifecycle.Op.Watchdog(times[0])] + Checks(times[1..])
  }

  /** A connection that starts closing at some time is closed by the watchdog if and only if the watchdog
      runs five seconds later or more. */
  lemma {:induction false} ClosedAfterFiveSeconds(c: Conn, times: seq<int>)
    requires ConnOk(c) && TxOk(c.tx) && c.protocol == WebSocket && c.state == Closing
    ensures var r := Run(c, Checks(times));
            && r.Some? && r.value == c.(state := r.value.state)
            && r.value.state == if exists i :: 0 <= i < |times| && times[i] >= c.closingTimeStamp + 5
                                then Closed else Closing
    decreases |times|
  {
    hide ConnOk, TxOk;
    if times != [] {
      var op := WsLifecycle.Op.Watchdog(times[0]);
      StepOk(c, op);
      ShiftedItems(times);
      assert Checks(times)[1..] == Checks(times[1..]);
      var r := Step(c, op).value;
      if times[0] >= c.closingTimeStamp + 5 {
        StaysClosed(r, times[1..]);
        assert exists i :: 0 <= i < |times| && times[i] >= c.closingTimeStamp + 5;
      } else {
        ClosedAfterFiveSeconds(c, times[1..]);
        if exists i :: 0 <= i < |times| && times[i] >= c.closingTimeStamp + 5 {
          var i :| 0 <= i < |times| && times[i] >= c.closingTimeStamp + 5;
          assert times[1..][i - 1] >= c.closingTimeStamp + 5;
        }
      }
    }
  }

  lemma {:induction false} StaysClosed(c: Conn, times: seq<int>)
    requires ConnOk(c) && TxOk(c.tx) && c.state == Closed
    ensures Run(c, Checks(times)) == Some(c)
    decreases |times|
  {
    hide ConnOk, TxOk;
    if times != [] {
      StepOk(c, WsLifecycle.Op.Watchdog(times[0]));
      assert Checks(times)[1..] == Checks(times[1..]);
      StaysClosed(c, times[1..]);
    }
  }
}
