/** A WebSocket connection of websocket/WebSocket.cpp as a state machine: what every call does to it. */
module WsConnection {
  import opened Bytes
  import opened Common
  import opened SendQueue
  import opened WsFrames
  import opened WsParser

  datatype Protocol = HTTP | WebSocket

  datatype WSState = Connected | Closing | Closed

  datatype Message = Message(opcode: byte, fin: bool, payload: seq<byte>)

  /** `messages` are the calls of the message handler. `accepted`, `sent` and `lost` are history: the
      bytes of every buffer the ring took, the bytes the socket took, and whether the ring overflowed. */
  datatype Conn = Conn(
    protocol: Protocol, state: WSState, closingTimeStamp: int,
    parser: PState, tx: Tx<byte>, messages: seq<Message>,
    accepted: seq<byte>, sent: seq<byte>, lost: bool)

  const TX_LIST_SIZE := 1000
  const CLOSING_TIMEOUT := 5

  predicate IsData(opcode: byte) { opcode == WS_CONTINUE || opcode == WS_TEXT || opcode == WS_BINARY }

  predicate IsHandled(opcode: byte) { IsData(opcode) || opcode == WS_CLOSE || opcode == WS_PING }

  /** Between turns of the receive loop a whole frame is still in the parser only when its opcode is
      not handled. */
  predicate ConnOk(c: Conn) {
    && Sound(c.parser)
    && (Dead(c.parser) && Masked(c.parser.acc[1]) && |c.parser.acc| > HeaderSize(c.parser.acc[1])
        ==> !IsHandled(Opcode(c.parser.acc[0])))
  }

  /** sendData: an overflow of the ring aborts the connection. */
  function SendData(c: Conn, data: seq<byte>): Conn {
    var (tx, ok) := Enqueue(TX_LIST_SIZE, c.tx, data);
    if ok then c.(tx := tx, accepted := c.accepted + data)
    else c.(tx := tx, state := Closed, lost := true)
  }

  const CLOSE_FRAME: seq<byte> := [0x80 | WS_CLOSE, 0]

  function CloseWebSocket(c: Conn, now: int): Conn {
    SendData(c, CLOSE_FRAME).(state := Closing, closingTimeStamp := now)
  }

  /** sendText and sendBinary: messages over 65535 bytes are dropped. */
  function SendMessage(c: Conn, opcode: byte, data: seq<byte>): Conn
    requires opcode < 16
  {
    if |data| > 65535 then c else SendData(c, Encode(Frame(true, 0, opcode, None, data)))
  }

  /** The echo of a ping: the same frame, still masked, with the opcode changed. */
  function Pong(frame: seq<byte>): seq<byte>
    requires frame != []
  {
    [(frame[0] & 0xF0) | WS_PONG] + frame[1..]
  }

  /** processWholeWSPacket: c.parser.acc is a whole frame with a header of hs bytes. */
  function WholePacket(c: Conn, hs: nat, now: int): Conn
    requires HEADER + 4 <= hs <= |c.parser.acc|
  {
    var frame := c.parser.acc;
    var opcode := Opcode(frame[0]);
    if IsData(opcode) then
      c.(messages := c.messages + [Message(opcode, Fin(frame[0]), Mask(frame[hs..], frame[hs - 4..hs]))],
         parser := FRESH)
    else if opcode == WS_CLOSE then
      (if c.state == Connected then CloseWebSocket(c, now) else c).(state := Closed, parser := FRESH)
    else if opcode == WS_PING then SendData(c, Pong(frame)).(parser := FRESH)
    else CloseWebSocket(c, now)
  }

  /** One turn of the receive loop: the connection after it, how many bytes it took, and whether the
      loop is left. */
  datatype Turned = Turned(conn: Conn, took: nat, leave: bool)

  function ReceiveTurn(c: Conn, buf: seq<byte>, now: int): Turned
    requires ConnOk(c)
  {
    ParseKeepsSound(c.parser, buf);
    var (parser, status) := Parse(c.parser, buf);
    var c1 := c.(parser := parser);
    var took := ToRead(c.parser, |buf|);
    match status
    case Error => Turned(CloseWebSocket(c1, now), took, true)
    case MessageReady(hs, _) => Turned(WholePacket(c1, hs, now), took, false)
    case MessageIncomplete => Turned(c1, took, false)
  }

  lemma ReceiveTurnOk(c: Conn, buf: seq<byte>, now: int)
    requires ConnOk(c)
    ensures var t := ReceiveTurn(c, buf, now); ConnOk(t.conn) && t.took <= |buf|
  {
    ParseKeepsSound(c.parser, buf);
    DeadMeans(c.parser, buf);
  }

  /** The receive loop over one chunk. None: the loop never ends, because a turn took no bytes and did
      not leave the loop, so that every later turn does the same. */
  function ReceiveLoop(c: Conn, buf: seq<byte>, now: int): (r: Option<Conn>)
    requires ConnOk(c)
    ensures r.Some? ==> ConnOk(r.value)
    decreases |buf|
  {
    if buf == [] then Some(c)
    else
      var t := ReceiveTurn(c, buf, now);
      ReceiveTurnOk(c, buf, now);
      if t.leave then Some(t.conn)
      else if t.took == 0 then None
      else ReceiveLoop(t.conn, buf[t.took..], now)
  }

  /** n turns of the loop on a chunk of which nothing is taken. */
  function IdleTurns(c: Conn, buf: seq<byte>, now: int, n: nat): (r: Conn)
    requires ConnOk(c)
    ensures ConnOk(r)
    decreases n
  {
    if n == 0 then c
    else ReceiveTurnOk(c, buf, now); IdleTurns(ReceiveTurn(c, buf, now).conn, buf, now, n - 1)
  }

  lemma StuckTurn(c: Conn, buf: seq<byte>, now: int)
    requires ConnOk(c) && buf != []
    requires ReceiveTurn(c, buf, now).took == 0 && !ReceiveTurn(c, buf, now).leave
    ensures var c1 := ReceiveTurn(c, buf, now).conn;
            && ConnOk(c1) && c1.parser == c.parser
            && ReceiveTurn(c1, buf, now).took == 0 && !ReceiveTurn(c1, buf, now).leave
  {
    ParseProgress(c.parser, buf);
    ReceiveTurnOk(c, buf, now);
    ParseKeepsSound(c.parser, buf);
  }

  /** What None means: once a turn takes no bytes without leaving the loop, no number of further turns
      takes any byte or leaves it. */
  lemma {:induction false} StuckForever(c: Conn, buf: seq<byte>, now: int, n: nat)
    requires ConnOk(c) && buf != []
    requires ReceiveTurn(c, buf, now).took == 0 && !ReceiveTurn(c, buf, now).leave
    ensures var r := ReceiveTurn(IdleTurns(c, buf, now, n), buf, now); r.took == 0 && !r.leave
    decreases n
  {
    if n > 0 {
      StuckTurn(c, buf, now);
      StuckForever(ReceiveTurn(c, buf, now).conn, buf, now, n - 1);
    }
  }
}
