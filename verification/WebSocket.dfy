/** The connection object of websocket/WebSocket.cpp, updated in place. */
module WebSocket {
  import opened Bytes
  import opened Common
  import opened RingBuffer
  import opened SendQueue
  import opened WsFrames
  import opened WsParser
  import opened WsConnection
  import opened WsLifecycle

  class WebSocketConnection {
    var protocol: Protocol
    var connectionState: WSState
    var closingTimeStamp: int
    const wsParser: WSProtocolParser
    var currentSendBuffer: Option<SendBuffer<byte>>
    const txList: MPSCRingBuffer<SendBuffer<byte>>
    // The calls of the message handler.
    var received: seq<Message>
    // History.
    ghost var accepted: seq<byte>
    ghost var sent: seq<byte>
    ghost var lost: bool

    ghost predicate Shape()
      reads this, wsParser, wsParser.data, txList, txList.items
    {
      && wsParser.InBounds()
      && txList.Valid() && txList.size == TX_LIST_SIZE
      && TxOk(Tx(currentSendBuffer, txList.Contents()))
    }

    ghost predicate Valid()
      reads this, wsParser, wsParser.data, txList, txList.items
    {
      Shape() && ConnOk(State())
    }

    ghost function State(): Conn
      requires Shape()
      reads this, wsParser, wsParser.data, txList, txList.items
    {
      Conn(protocol, connectionState, closingTimeStamp, wsParser.State(),
           Tx(currentSendBuffer, txList.Contents()), received, accepted, sent, lost)
    }

    constructor ()
      ensures Valid() && fresh(wsParser) && fresh(wsParser.data) && fresh(txList) && fresh(txList.items)
      ensures State().protocol == HTTP && State().parser == FRESH && State().tx == Tx(None, [])
      ensures State().messages == [] && Balanced(State()) && NoEmptyBuffer(State().tx)
    {
      protocol, currentSendBuffer, received := HTTP, None, [];
      wsParser := new WSProtocolParser();
      txList := new MPSCRingBuffer<SendBuffer<byte>>(TX_LIST_SIZE, SendBuffer([], 0));
      accepted, sent, lost := [], [], false;
    }

    method SendData(data: seq<byte>)
      requires Shape()
      modifies this, txList, txList.items
      ensures Shape() && State() == WsConnection.SendData(old(State()), data)
    {
      EnqueueAppends(TX_LIST_SIZE, State().tx, data);
      var ok := txList.Put(SendBuffer(data, 0));
      if !ok {
        AbortWebSocket();
        lost := true;
      } else {
        accepted := accepted + data;
      }
    }

    method AbortWebSocket()
      modifies `connectionState
      ensures connectionState == Closed
    {
      connectionState := Closed;
    }

    /** generateCloseMessage, sendData and the change to Closing. */
    method CloseWebSocket(now: int)
      requires Shape()
      modifies this, txList, txList.items
      ensures Shape() && State() == WsConnection.CloseWebSocket(old(State()), now)
    {
      SendData(CLOSE_FRAME);
      connectionState := Closing;
      closingTimeStamp := now;
    }

    /** The payload is unmasked in place, in the parser's own buffer. */
    method Unmask(buffer: array<byte>, headerSize: nat, payloadSize: nat)
      requires 4 <= headerSize && headerSize + payloadSize <= buffer.Length
      modifies buffer
      ensures buffer[..headerSize] == old(buffer[..headerSize])
      ensures buffer[headerSize..headerSize + payloadSize]
              == Mask(old(buffer[headerSize..headerSize + payloadSize]), old(buffer[headerSize - 4..headerSize]))
    {
      ghost var key := buffer[headerSize - 4..headerSize];
      for i := 0 to payloadSize
        invariant buffer[..headerSize] == old(buffer[..headerSize])
        invariant forall j :: headerSize <= j < headerSize + i ==>
                    buffer[j] == old(buffer[j]) ^ key[(j - headerSize) % 4]
        invariant forall j :: headerSize + i <= j < headerSize + payloadSize ==> buffer[j] == old(buffer[j])
      {
        assert buffer[headerSize - 4 + i % 4] == buffer[..headerSize][headerSize - 4 + i % 4] == key[i % 4];
        buffer[headerSize + i] := buffer[headerSize + i] ^ buffer[headerSize - 4 + i % 4];
      }
    }

    method ProcessPing(buffer: array<byte>, size: nat)
      requires Shape() && buffer == wsParser.data && 0 < size <= buffer.Length
      modifies this, txList, txList.items, buffer
      ensures Shape() && wsParser.InBounds()
      ensures State() == WsConnection.SendData(old(State()), Pong(old(buffer[..size]))).(parser := State().parser)
    {
      ghost var frame := buffer[..size];
      buffer[0] := (buffer[0] & 0xF0) | WS_PONG;
      assert buffer[..size] == Pong(frame);
      SendData(buffer[..size]);
    }

    /** The parser holds a whole frame. */
    method ProcessWholeWSPacket(headerSize: nat, payloadSize: nat, now: int)
      requires Shape() && HEADER + 4 <= headerSize && 0 < payloadSize
      requires wsParser.dataIndex == headerSize + payloadSize
      modifies this, wsParser, wsParser.data, txList, txList.items
      ensures Shape() && (wsParser.data == old(wsParser.data) || fresh(wsParser.data))
      ensures State() == WholePacket(old(State()), headerSize, now)
    {
      hide Mask, Opcode, Fin, Pong, WsConnection.SendData, WsConnection.CloseWebSocket;
      var buffer := wsParser.data;
      ghost var frame := buffer[..headerSize + payloadSize];
      var opcode := Opcode(buffer[0]);
      assert buffer[0] == frame[0];
      if opcode == WS_CONTINUE || opcode == WS_TEXT || opcode == WS_BINARY {
        assert frame[headerSize..] == buffer[headerSize..headerSize + payloadSize];
        assert frame[headerSize - 4..headerSize] == buffer[headerSize - 4..headerSize];
        Unmask(buffer, headerSize, payloadSize);
        assert buffer[0] == buffer[..headerSize][0];
        received := received + [Message(opcode, Fin(buffer[0]), buffer[headerSize..headerSize + payloadSize])];
      } else if opcode == WS_CLOSE {
        if connectionState == Connected {
          CloseWebSocket(now);
        }
        AbortWebSocket();
      } else if opcode == WS_PING {
        ProcessPing(buffer, payloadSize + headerSize);
      } else {
        CloseWebSocket(now);
        return;
      }
      wsParser.ResetMessageBuffer();
    }

    /** The handshake decision is made by the HTTP parser and the request handler. */
    method CheckHTTPBuffer(handshake: Handshake)
      requires Valid() && protocol == HTTP
      modifies this, txList, txList.items
      ensures Valid() && WsLifecycle.ProcessData(old(State()), [], handshake, 0) == Some(State())
    {
      match handshake {
        case NoReply =>
        case Reject(reply) => SendData(reply);
        case Accept(reply) =>
          SendData(reply);
          protocol := WebSocket;
          connectionState := Connected;
      }
    }

    /** `endless` reports that the loop of the source never ends on this input; see StuckForever. */
    method ProcessData(data: seq<byte>, handshake: Handshake, now: int) returns (ok: bool, endless: bool)
      requires Valid()
      modifies this, wsParser, wsParser.data, txList, txList.items
      ensures endless <==> WsLifecycle.ProcessData(old(State()), data, handshake, now) == None
      ensures !endless ==> Valid() && WsLifecycle.ProcessData(old(State()), data, handshake, now) == Some(State())
      ensures !endless ==> (ok <==> old(protocol) == HTTP || connectionState != Closed)
      ensures wsParser.data == old(wsParser.data) || fresh(wsParser.data)
    {
      hide Parse, Sound, TxOk, Check, ConnOk, WholePacket;
      if protocol == HTTP {
        CheckHTTPBuffer(handshake);
        return true, false;
      }
      var buf := data;
      ghost var goal := ReceiveLoop(State(), data, now);
      while |buf| > 0
        invariant Valid() && ReceiveLoop(State(), buf, now) == goal
        invariant wsParser.data == old(wsParser.data) || fresh(wsParser.data)
        decreases |buf|
      {
        ghost var c := State();
        OkIsSound(c);
        ParseKeepsSound(c.parser, buf);
        ReceiveTurnOk(c, buf, now);
        var result := wsParser.ParseWSMessage(buf);
        if result.status.Error? {
          CloseWebSocket(now);
          break;
        }
        if result.status.MessageReady? {
          ProcessWholeWSPacket(result.status.headerSize, result.status.payloadSize, now);
        }
        assert State() == ReceiveTurn(c, buf, now).conn;
        if result.dataRead == 0 {
          return true, true;
        }
        buf := buf[result.dataRead..];
      }
      return connectionState != Closed, false;
    }

    method GetTxData() returns (buf: seq<byte>)
      requires Valid()
      modifies `currentSendBuffer, txList, txList.items
      ensures Valid()
      ensures if MaySend(old(State()))
              then buf == Offered(old(State()).tx) && State() == old(State()).(tx := Load(old(State()).tx))
              else buf == [] && State() == old(State())
    {
      if protocol == WebSocket && connectionState != Connected {
        return [];
      }
      LoadOk(State().tx);
      if currentSendBuffer.None? {
        var ok, sendBuffer := txList.Get();
        if ok {
          currentSendBuffer := Some(sendBuffer);
        }
      }
      if currentSendBuffer.None? {
        return [];
      }
      return currentSendBuffer.value.data[currentSendBuffer.value.currentIndex..];
    }

    /** A report of more bytes than were handed out leaves the buffer with its index behind the end. */
    method OnDataSent(size: nat)
      requires Valid()
      modifies `currentSendBuffer
      ensures Tx(currentSendBuffer, old(State()).tx.queue) == Sent(old(State()).tx, size)
      ensures Valid() ==> State() == old(State()).(tx := Sent(old(State()).tx, size))
      ensures Valid() <==> old(currentSendBuffer).Some? ==>
                size <= |old(currentSendBuffer).value.data| - old(currentSendBuffer).value.currentIndex
    {
      if currentSendBuffer.None? {
        return;
      }
      var b := currentSendBuffer.value;
      b := b.(currentIndex := b.currentIndex + size);
      if b.currentIndex == |b.data| {
        currentSendBuffer := None;
      } else {
        currentSendBuffer := Some(b);
      }
    }

    /** One turn of the server's send loop; a write takes at least one byte. */
    method SendTurn() returns (part: seq<byte>)
      requires Valid()
      modifies `currentSendBuffer, `sent, txList, txList.items
      ensures Valid() && sent == old(sent) + part && MaySend(State()) == MaySend(old(State()))
      ensures !MaySend(State()) ==> part == [] && State() == old(State())
      ensures part == [] && MaySend(State()) ==> Reachable(Parts(old(State()).tx)) == []
      ensures Pending(old(State()).tx) == part + Pending(State().tx)
      ensures Reachable(Parts(old(State()).tx)) == part + Reachable(Parts(State().tx))
    {
      hide Sound, Dead, Flatten, Load, Sent, Reachable, Parts;
      ghost var tx := State().tx;
      LoadKeepsParts(tx);
      var buffer := GetTxData();
      if |buffer| == 0 {
        if MaySend(State()) { StopsAtEmpty(tx); }
        return [];
      }
      var n: nat :| 1 <= n <= |buffer|;
      SentTakesFront(tx, n);
      OnDataSent(n);
      sent := sent + buffer[..n];
      return buffer[..n];
    }

    /** The send loop of the server for one connection. While the connection may send, the loop ends
        with everything sent that is in front of the first empty buffer, which is everything when no
        buffer is empty. */
    method ProcessSend() returns (wire: seq<byte>)
      requires Valid()
      modifies `currentSendBuffer, `sent, txList, txList.items
      ensures Valid() && sent == old(sent) + wire
      ensures MaySend(old(State())) ==> wire == Reachable(Parts(old(State()).tx))
      ensures MaySend(old(State())) && NoEmptyBuffer(old(State()).tx) ==>
                wire == Pending(old(State()).tx) && Pending(State().tx) == []
      ensures !MaySend(old(State())) ==> wire == [] && State() == old(State())
    {
      hide ConnOk, NoEmptyBuffer, Reachable, Pending, Parts;
      wire := [];
      ghost var tx0 := State().tx;
      if NoEmptyBuffer(tx0) { FullIsReachable(tx0); }
      while true
        invariant Valid() && sent == old(sent) + wire && MaySend(State()) == MaySend(old(State()))
        invariant Pending(tx0) == wire + Pending(State().tx)
        invariant Reachable(Parts(tx0)) == wire + Reachable(Parts(State().tx))
        invariant !MaySend(State()) ==> wire == [] && State() == old(State())
        decreases |Pending(State().tx)|
      {
        ghost var tx := State().tx;
        var part := SendTurn();
        Regroup(wire, part, Pending(State().tx));
        Regroup(wire, part, Reachable(Parts(State().tx)));
        wire := wire + part;
        if part == [] {
          break;
        }
      }
    }

    method Watchdog(now: int) returns (ok: bool)
      requires Valid()
      modifies `connectionState
      ensures Valid() && State() == WatchdogTurn(old(State()), now)
      ensures ok <==> State() == old(State())
    {
      if protocol != WebSocket {
        return true;
      }
      if connectionState == Closing {
        if now >= closingTimeStamp + CLOSING_TIMEOUT {
          AbortWebSocket();
          return false;
        }
      }
      return true;
    }

    method SendText(text: seq<byte>)
      requires Valid()
      modifies this, txList, txList.items
      ensures Valid() && State() == SendMessage(old(State()), WS_TEXT, text)
    {
      var packet := PackMessage(WS_TEXT, text);
      if packet.None? {
        return;
      }
      SendData(packet.value);
    }

    method SendBinary(buffer: seq<byte>)
      requires Valid()
      modifies this, txList, txList.items
      ensures Valid() && State() == SendMessage(old(State()), WS_BINARY, buffer)
    {
      var packet := PackMessage(WS_BINARY, buffer);
      if packet.None? {
        return;
      }
      SendData(packet.value);
    }
  }

  lemma OkIsSound(c: Conn)
    requires ConnOk(c)
    ensures Sound(c.parser)
  {
  }

  /** The two fixed bytes, and the length of a longer message. */
  function Head(opcode: byte, n: nat): seq<byte>
    requires n <= 65535
  {
    if n > 125 then [0x80 | opcode, 126, (n / 256) as byte, (n % 256) as byte] else [0x80 | opcode, n as byte]
  }

  /** WSProtocolParser::sendData: the frame is built in a new buffer, field by field. */
  method PackMessage(opcode: byte, buffer: seq<byte>) returns (packet: Option<seq<byte>>)
    requires opcode < 16
    ensures packet == if |buffer| > 65535 then None else Some(Encode(Frame(true, 0, opcode, None, buffer)))
  {
    hide Encode, WellFormed;
    var size := |buffer|;
    var data := new byte[size + HEADER + 8](_ => 0);
    var headerSize := HEADER;
    data[0] := 0x80 | opcode;
    if size > 125 {
      if size > 65535 {
        return None;
      }
      headerSize := headerSize + 2;
      data[1] := 126;
      data[2] := (size / 256) as byte;
      data[3] := (size % 256) as byte;
    } else {
      data[1] := size as byte;
    }
    assert data[..headerSize] == Head(opcode, size);
    CopyTo(data, headerSize, buffer);
    PackedIsEncoded(opcode, buffer, data[..headerSize + size]);
    return Some(data[..headerSize + size]);
  }

  /** memcpy */
  method CopyTo(data: array<byte>, start: nat, buffer: seq<byte>)
    requires start + |buffer| <= data.Length
    modifies data
    ensures data[..start + |buffer|] == old(data[..start]) + buffer
  {
    forall i | 0 <= i < |buffer| { data[start + i] := buffer[i]; }
  }

  lemma PackedIsEncoded(opcode: byte, buffer: seq<byte>, packet: seq<byte>)
    requires opcode < 16 && |buffer| <= 65535 && packet == Head(opcode, |buffer|) + buffer
    ensures packet == Encode(Frame(true, 0, opcode, None, buffer))
  {
    hide Head, Prefix;
    PackedPrefix(Frame(true, 0, opcode, None, buffer));
  }

  lemma PackedPrefix(f: Frame)
    requires f.fin && f.rsv == 0 && f.opcode < 16 && f.mask.None? && |f.payload| <= 65535
    ensures Prefix(f) == Head(f.opcode, |f.payload|)
  {
    hide BigEndian, LengthField;
    LengthFieldIs(|f.payload|);
    assert FirstByte(f) == 0x80 | f.opcode;
    if |f.payload| > 125 { TwoBytes(|f.payload|); }
  }

  lemma LengthFieldIs(n: nat)
    requires n <= 65535
    ensures LengthField(n) == if n > 125 then 126 else n
    ensures SecondByte(false, n) == LengthField(n) as byte
    ensures n <= 125 ==> BigEndian(n, 0) == []
  {
  }

  lemma TwoBytes(n: nat)
    requires n <= 65535
    ensures BigEndian(n, 2) == [(n / 256) as byte, (n % 256) as byte]
  {
    assert n / 256 < 256;
    assert n / 256 % 256 == n / 256;
    assert BigEndian(n / 256, 1) == BigEndian(n / 256 / 256, 0) + [(n / 256) as byte];
    assert BigEndian(n, 2) == BigEndian(n / 256, 1) + [(n % 256) as byte];
  }
}
