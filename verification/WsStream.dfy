/** What the receive loop of websocket/WebSocket.cpp makes of a whole stream of frames, however the
    network cuts it. */
module WsStream {
  import opened Bytes
  import opened Common
  import opened WsFrames
  import opened WsParser
  import opened WsConnection

  /** A masked frame, as a client sends it. */
  predicate MaskedFrame(f: Frame) { WellFormed(f) && f.mask.Some? }

  /** The engine takes the frame as a whole and goes on behind it. */
  predicate Consumed(f: Frame) { f.payload != [] && IsHandled(f.opcode) }

  function MessageOf(f: Frame): Message { Message(f.opcode, f.fin, f.payload) }

  /** What a whole frame means for the connection: a data frame is delivered, a close frame is answered
      while the connection is open, a ping is answered by the same frame as a pong, and any other opcode
      starts the closing handshake. */
  function Handle(c: Conn, f: Frame, now: int): Conn
    requires MaskedFrame(f)
  {
    (if IsData(f.opcode) then c.(messages := c.messages + [MessageOf(f)])
     else if f.opcode == WS_CLOSE then
       (if c.state == Connected then CloseWebSocket(c, now) else c).(state := Closed)
     else if f.opcode == WS_PING then SendData(c, Encode(f.(opcode := WS_PONG)))
     else CloseWebSocket(c, now)).(parser := FRESH)
  }

  /** The stream arrives in chunks; None when the loop never ends on one of them. */
  function Feed(c: Conn, chunks: seq<seq<byte>>, now: int): Option<Conn>
    requires ConnOk(c)
    decreases |chunks|
  {
    if chunks == [] then Some(c)
    else match ReceiveLoop(c, chunks[0], now)
      case None => None
      case Some(c1) => Feed(c1, chunks[1..], now)
  }

  // ----- one frame

  function HeadSize(f: Frame): nat { HEADER + 4 + Extra(LengthField(|f.payload|)) }

  lemma EncodedFrame(f: Frame)
    requires MaskedFrame(f)
    ensures var e := Encode(f);
            && |e| == HeadSize(f) + |f.payload|
            && Opcode(e[0]) == f.opcode && Fin(e[0]) == f.fin
            && Masked(e[1]) && HeaderSize(e[1]) == HeadSize(f)
            && PayloadLength(e[..HeadSize(f)]) == |f.payload|
            && Mask(e[HeadSize(f)..], e[HeadSize(f) - 4..HeadSize(f)]) == f.payload
  {
    hide Encode, Opcode, Fin, Masked, Len7, Mask, BigEndian, FromBigEndian, FirstByte, SecondByte;
    var e, extra := Encode(f), Extra(LengthField(|f.payload|));
    EncodedParts(f, []);
    assert e + [] == e;
    FirstByteFields(f);
    SecondByteFields(true, |f.payload|);
    LengthReads(|f.payload|);
    assert e[..HeadSize(f)][2..2 + extra] == e[2..2 + extra];
    MaskTwice(f.payload, f.mask.value);
    assert e[HeadSize(f)..] == e[HeadSize(f)..HeadSize(f) + |f.payload|];
  }

  /** How many bytes the parser waits for once it has the first n bytes of the frame. */
  function Expected(f: Frame, n: nat): nat {
    if n < HEADER then HEADER else if n < HeadSize(f) then HeadSize(f) else HeadSize(f) + |f.payload|
  }

  lemma ExpectedIs(f: Frame, n: nat, st: PState)
    requires MaskedFrame(f) && n <= |Encode(f)| && Sound(st) && st.acc == Encode(f)[..n]
    ensures st.expected == Expected(f, n)
  {
    hide Encode, Masked, PayloadLength;
    EncodedFrame(f);
    if n >= HEADER { assert st.acc[1] == Encode(f)[1]; }
    if n >= HeadSize(f) { assert st.acc[..HeadSize(f)] == Encode(f)[..HeadSize(f)]; }
  }

  /** A call of the parser on the next bytes of the frame. */
  lemma ParseOnFrame(f: Frame, n: nat, st: PState, buf: seq<byte>)
    requires MaskedFrame(f) && n < |Encode(f)| && buf != []
    requires Sound(st) && !Dead(st) && st.acc == Encode(f)[..n]
    requires buf[..if |buf| < |Encode(f)| - n then |buf| else |Encode(f)| - n] <= Encode(f)[n..]
    ensures var r := ToRead(st, |buf|);
            && 0 < r <= |buf| && n + r <= |Encode(f)|
            && Parse(st, buf) == (PState(Encode(f)[..n + r], Expected(f, n + r)),
                                  if n + r == |Encode(f)| && f.payload != []
                                  then MessageReady(HeadSize(f), |f.payload|) else MessageIncomplete)
  {
    hide Encode, Opcode, Fin, Masked, Mask, PayloadLength, Check;
    var e := Encode(f);
    EncodedFrame(f);
    ExpectedIs(f, n, st);
    ParseProgress(st, buf);
    ParseKeepsSound(st, buf);
    DeadMeans(st, buf);
    var r := ToRead(st, |buf|);
    assert buf[..r] == e[n..][..r];
    assert st.acc + buf[..r] == e[..n + r];
    ExpectedIs(f, n + r, Parse(st, buf).0);
    if n + r >= HEADER { assert e[..n + r][1] == e[1]; }
  }

  /** The parser has the first n bytes of the frame. */
  predicate Holding(f: Frame, n: nat, c: Conn)
    requires WellFormed(f)
  {
    ConnOk(c) && n < |Encode(f)| && c.parser.acc == Encode(f)[..n]
  }

  /** What the frame leaves behind when its last byte is taken. */
  function AfterFrame(c: Conn, f: Frame, now: int): Conn
    requires MaskedFrame(f)
  {
    if Consumed(f) then Handle(c, f, now)
    else (if f.payload == [] then c else Handle(c, f, now)).(parser := PState(Encode(f), |Encode(f)|))
  }

  lemma PongByte(b: byte)
    ensures Fin((b & 0xF0) | WS_PONG) == Fin(b) && Reserved((b & 0xF0) | WS_PONG) == Reserved(b)
    ensures Opcode((b & 0xF0) | WS_PONG) == WS_PONG
  {
  }

  lemma SameFields(a: byte, b: byte)
    requires Fin(a) == Fin(b) && Reserved(a) == Reserved(b) && Opcode(a) == Opcode(b)
    ensures a == b
  {
  }

  /** The echo of a ping is the encoding of the pong with the same mask and payload. */
  lemma EchoIsPong(f: Frame)
    requires MaskedFrame(f)
    ensures Encode(f) != [] && Pong(Encode(f)) == Encode(f.(opcode := WS_PONG))
  {
    hide FirstByte, SecondByte, BigEndian, Mask, Fin, Reserved, Opcode;
    var g := f.(opcode := WS_PONG);
    EncodedParts(f, []);
    FirstByteFields(f);
    FirstByteFields(g);
    PongByte(FirstByte(f));
    SameFields((FirstByte(f) & 0xF0) | WS_PONG, FirstByte(g));
    assert Prefix(g)[1..] == Prefix(f)[1..];
    SameTail(Prefix(f), MaskBytes(f), Body(f));
    SameTail(Prefix(g), MaskBytes(g), Body(g));
  }

  lemma SameTail<T>(p: seq<T>, m: seq<T>, b: seq<T>)
    requires p != []
    ensures (p + m + b)[1..] == p[1..] + m + b && p + m + b == [p[0]] + (p + m + b)[1..]
  {
  }

  /** processWholeWSPacket on a received frame does what the frame means. */
  lemma WholeFrame(c: Conn, f: Frame, now: int)
    requires MaskedFrame(f) && f.payload != []
    ensures |Encode(f)| >= HeadSize(f)
    ensures WholePacket(c.(parser := PState(Encode(f), |Encode(f)|)), HeadSize(f), now) == AfterFrame(c, f, now)
  {
    hide Encode, Opcode, Fin, Mask, Masked, PayloadLength;
    EncodedFrame(f);
    EchoIsPong(f);
  }

  /** A turn of the receive loop on the next bytes of the frame. */
  lemma TurnOnFrame(f: Frame, n: nat, c: Conn, buf: seq<byte>, now: int)
    requires MaskedFrame(f) && Holding(f, n, c) && buf != []
    requires buf[..if |buf| < |Encode(f)| - n then |buf| else |Encode(f)| - n] <= Encode(f)[n..]
    ensures var t := ReceiveTurn(c, buf, now);
            && 0 < t.took <= |buf| && n + t.took <= |Encode(f)| && !t.leave && ConnOk(t.conn)
            && t.conn == if n + t.took == |Encode(f)|
                         then AfterFrame(c, f, now)
                         else c.(parser := PState(Encode(f)[..n + t.took], Expected(f, n + t.took)))
  {
    hide Encode, Opcode, Fin, Masked, Mask, PayloadLength, Parse, Sound, WholePacket, Handle;
    var e := Encode(f);
    EncodedFrame(f);
    NotDead(f, n, c.parser);
    ParseOnFrame(f, n, c.parser, buf);
    ReceiveTurnOk(c, buf, now);
    assert e[..|e|] == e;
    if f.payload != [] { WholeFrame(c, f, now); }
  }

  lemma NotDead(f: Frame, n: nat, st: PState)
    requires MaskedFrame(f) && n < |Encode(f)| && Sound(st) && st.acc == Encode(f)[..n]
    ensures !Dead(st)
  {
    hide Encode;
    EncodedFrame(f);
    ExpectedIs(f, n, st);
  }

  /** Part of a frame is kept. */
  lemma {:induction false} LoopOnPart(f: Frame, n: nat, c: Conn, buf: seq<byte>, now: int)
    requires MaskedFrame(f) && Holding(f, n, c)
    requires n + |buf| < |Encode(f)| && buf == Encode(f)[n..n + |buf|]
    ensures var r := ReceiveLoop(c, buf, now);
            && r.Some? && Holding(f, n + |buf|, r.value)
            && r.value == c.(parser := r.value.parser)
    decreases |buf|
  {
    hide Encode, ReceiveTurn, ConnOk;
    if buf != [] {
      assert buf <= Encode(f)[n..];
      TurnOnFrame(f, n, c, buf, now);
      var t := ReceiveTurn(c, buf, now);
      LoopOnPart(f, n + t.took, t.conn, buf[t.took..], now);
    }
  }

  /** The rest of a frame, with anything behind it. Behind a frame that is consumed the loop goes on; any
      byte behind another one is never taken. */
  lemma {:induction false} LoopOnRest(f: Frame, n: nat, c: Conn, later: seq<byte>, now: int)
    requires MaskedFrame(f) && Holding(f, n, c)
    ensures var r := ReceiveLoop(c, Encode(f)[n..] + later, now);
            var c1 := AfterFrame(c, f, now);
            && ConnOk(c1)
            && r == if Consumed(f) then ReceiveLoop(c1, later, now) else if later != [] then None else Some(c1)
    decreases |Encode(f)| - n
  {
    hide Encode, ReceiveTurn, ReceiveLoop, ConnOk, Handle, AfterFrame, WellFormed;
    var e := Encode(f);
    var buf := e[n..] + later;
    CutRest(e, n, later);
    TurnOnFrame(f, n, c, buf, now);
    LoopTurn(c, buf, now);
    var t := ReceiveTurn(c, buf, now);
    if n + t.took < |e| {
      DropMore(e, n, t.took, later);
      LoopOnRest(f, n + t.took, t.conn, later, now);
      AfterFrameIgnoresParser(c, t.conn.parser, f, now);
    } else {
      if !Consumed(f) {
        NotConsumed(c, f, now);
        DeadConn(f, AfterFrame(c, f, now), later, now);
      }
    }
  }

  lemma LoopTurn(c: Conn, buf: seq<byte>, now: int)
    requires ConnOk(c) && buf != []
    ensures var t := ReceiveTurn(c, buf, now);
            t.took <= |buf| && (!t.leave && 0 < t.took ==>
                ConnOk(t.conn) && ReceiveLoop(c, buf, now) == ReceiveLoop(t.conn, buf[t.took..], now))
  {
    hide ReceiveTurn, ConnOk;
    ReceiveTurnOk(c, buf, now);
  }

  lemma NotConsumed(c: Conn, f: Frame, now: int)
    requires MaskedFrame(f) && !Consumed(f)
    ensures AfterFrame(c, f, now).parser == PState(Encode(f), |Encode(f)|)
  {
    hide Encode;
  }

  lemma CutRest(e: seq<byte>, n: nat, later: seq<byte>)
    requires n <= |e|
    ensures (e[n..] + later)[..|e| - n] == e[n..] && (e[n..] + later)[|e| - n..] == later && e[..|e|] == e
  {
  }

  lemma DropMore(e: seq<byte>, n: nat, k: nat, later: seq<byte>)
    requires n + k <= |e|
    ensures (e[n..] + later)[k..] == e[n + k..] + later
  {
  }

  lemma AfterFrameIgnoresParser(c: Conn, parser: PState, f: Frame, now: int)
    requires MaskedFrame(f)
    ensures Handle(c.(parser := parser), f, now) == Handle(c, f, now)
    ensures AfterFrame(c.(parser := parser), f, now) == AfterFrame(c, f, now)
  {
    hide Encode;
  }

  /** A frame that is whole and not consumed leaves the parser dead. */
  lemma DeadConn(f: Frame, c: Conn, later: seq<byte>, now: int)
    requires MaskedFrame(f) && !Consumed(f) && ConnOk(c)
    requires c.parser == PState(Encode(f), |Encode(f)|)
    ensures later != [] ==> ReceiveLoop(c, later, now) == None
    ensures ReceiveLoop(c, [], now) == Some(c)
  {
    hide Encode;
    if later != [] {
      EncodedFrame(f);
      assert Encode(f)[..|Encode(f)|] == Encode(f);
      ParseProgress(c.parser, later);
      ParseKeepsSound(c.parser, later);
    }
  }

  // ----- streams of frames

  predicate MaskedFrames(fs: seq<Frame>) { forall i :: 0 <= i < |fs| ==> MaskedFrame(fs[i]) }

  predicate AllConsumed(fs: seq<Frame>) { forall i :: 0 <= i < |fs| ==> Consumed(fs[i]) }

  /** Every frame was handled, in order, and the parser waits for the next one. */
  function AfterAll(c: Conn, fs: seq<Frame>, now: int): (r: Conn)
    requires MaskedFrames(fs)
    ensures r.parser == FRESH
    decreases |fs|
  {
    if fs == [] then c.(parser := FRESH) else AfterAll(Handle(c, fs[0], now), fs[1..], now)
  }

  lemma AfterAllIgnoresParser(c: Conn, parser: PState, fs: seq<Frame>, now: int)
    requires MaskedFrames(fs)
    ensures AfterAll(c.(parser := parser), fs, now) == AfterAll(c, fs, now)
  {
    if fs != [] { AfterFrameIgnoresParser(c, parser, fs[0], now); }
  }

  /** n bytes of the next frame have been received. */
  predicate Within(fs: seq<Frame>, n: nat, c: Conn)
    requires Frames(fs)
  {
    if fs == [] then n == 0 && ConnOk(c) && c.parser == FRESH else Holding(fs[0], n, c)
  }

  predicate Frames(fs: seq<Frame>) { forall i :: 0 <= i < |fs| ==> WellFormed(fs[i]) }

  lemma FreshIsWithin(fs: seq<Frame>, c: Conn)
    requires Frames(fs) && ConnOk(c) && c.parser == FRESH
    ensures Within(fs, 0, c)
  {
    hide Encode;
    if fs != [] { EncodedParts(fs[0], []); }
  }

  lemma LoopOnNothing(c: Conn, now: int)
    requires ConnOk(c)
    ensures ReceiveLoop(c, [], now) == Some(c)
  {
  }

  /** The receive loop on the next chunk of a stream: it handles the frames that are now whole and keeps
      the received part of the next one. */
  lemma {:induction false} LoopOnFrames(fs: seq<Frame>, n: nat, c: Conn, buf: seq<byte>, tail: seq<byte>, now: int)
    returns (k: nat, m: nat)
    requires MaskedFrames(fs) && AllConsumed(fs) && Within(fs, n, c)
    requires EncodeAll(fs)[n..] == buf + tail
    ensures k <= |fs| && MaskedFrames(fs[k..]) && AllConsumed(fs[k..])
    ensures var r := ReceiveLoop(c, buf, now);
            && r.Some? && Within(fs[k..], m, r.value)
            && AfterAll(r.value, fs[k..], now) == AfterAll(c, fs, now)
            && m <= |EncodeAll(fs[k..])| && EncodeAll(fs[k..])[m..] == tail
    decreases |fs|
  {
    hide Encode, Holding, ConnOk, ReceiveLoop, Handle, Consumed;
    k, m := 0, n;
    assert fs[0..] == fs;
    if fs == [] {
      assert buf == [] && tail == [];
      LoopOnNothing(c, now);
    } else {
      var e, later := Encode(fs[0]), EncodeAll(fs[1..]);
      HoldingFits(fs[0], n, c);
      CutInside(e, later, n, buf, tail);
      if n + |buf| < |e| {
        LoopOnPart(fs[0], n, c, buf, now);
        AfterAllIgnoresParser(c, ReceiveLoop(c, buf, now).value.parser, fs, now);
        m := n + |buf|;
      } else {
        var rest := buf[|e| - n..];
        LoopOnRest(fs[0], n, c, rest, now);
        var c1 := AfterFrame(c, fs[0], now);
        FreshAfter(c, fs[0], now);
        FreshIsWithin(fs[1..], c1);
        assert later[0..] == later;
        k, m := LoopOnFrames(fs[1..], 0, c1, rest, tail, now);
        k := k + 1;
        assert fs[1..][k - 1..] == fs[k..];
      }
    }
  }

  lemma FreshAfter(c: Conn, f: Frame, now: int)
    requires MaskedFrame(f) && Consumed(f)
    ensures AfterFrame(c, f, now) == Handle(c, f, now) && Handle(c, f, now).parser == FRESH
  {
  }

  /** A chunk of e + later that starts n bytes into e ends inside e or behind it. */
  lemma CutInside<T>(e: seq<T>, later: seq<T>, n: nat, buf: seq<T>, tail: seq<T>)
    requires n <= |e| && (e + later)[n..] == buf + tail
    ensures n + |buf| < |e| ==> buf == e[n..n + |buf|] && (e + later)[n + |buf|..] == tail
    ensures n + |buf| >= |e| ==> buf == e[n..] + buf[|e| - n..] && later == buf[|e| - n..] + tail
  {
    assert (e + later)[n..] == e[n..] + later;
    if n + |buf| < |e| {
      assert buf == (e[n..] + later)[..|buf|];
      assert tail == (buf + tail)[|buf|..] == (e + later)[n..][|buf|..];
    } else {
      SplitAt(e[n..], later, buf, tail);
    }
  }

  lemma HoldingFits(f: Frame, n: nat, c: Conn)
    requires WellFormed(f) && Holding(f, n, c)
    ensures n < |Encode(f)| && ConnOk(c)
  {
  }

  lemma WithinOk(fs: seq<Frame>, n: nat, c: Conn)
    requires Frames(fs) && Within(fs, n, c)
    ensures ConnOk(c)
  {
  }

  lemma SplitAt<T>(a: seq<T>, b: seq<T>, x: seq<T>, y: seq<T>)
    requires a + b == x + y && |a| <= |x|
    ensures x == a + x[|a|..] && b == x[|a|..] + y
  {
    assert x == (a + b)[..|x|];
    assert b == (x + y)[|a|..];
  }

  lemma {:induction false} FeedFrames(fs: seq<Frame>, n: nat, c: Conn, chunks: seq<seq<byte>>, now: int)
    requires MaskedFrames(fs) && AllConsumed(fs) && Within(fs, n, c) && ConnOk(c)
    requires n <= |EncodeAll(fs)| && EncodeAll(fs)[n..] == Flatten(chunks)
    ensures Feed(c, chunks, now) == Some(AfterAll(c, fs, now))
    decreases |chunks|
  {
    hide Encode, ReceiveLoop, Handle, Consumed;
    if chunks != [] {
      var k, m := LoopOnFrames(fs, n, c, chunks[0], Flatten(chunks[1..]), now);
      var c1 := ReceiveLoop(c, chunks[0], now).value;
      FeedFrames(fs[k..], m, c1, chunks[1..], now);
    }
  }

  /** However the stream is cut, the loop always ends and has handled every frame. */
  ghost predicate AllCuttingsDeliver(fs: seq<Frame>, c: Conn, now: int)
    requires MaskedFrames(fs) && ConnOk(c)
  {
    forall chunks {:trigger Flatten(chunks)} | Flatten(chunks) == EncodeAll(fs) ::
      Feed(c, chunks, now) == Some(AfterAll(c, fs, now))
  }

  lemma FeedWhole(c: Conn, whole: seq<byte>, now: int)
    requires ConnOk(c)
    ensures Flatten([whole]) == whole && Feed(c, [whole], now) == ReceiveLoop(c, whole, now)
  {
    hide ReceiveLoop;
    assert [whole][1..] == [];
  }

  /** In one piece, a stream with a frame that is not consumed is not handled. */
  lemma {:induction false} UncutFails(fs: seq<Frame>, c: Conn, now: int)
    requires MaskedFrames(fs) && !AllConsumed(fs) && ConnOk(c) && c.parser == FRESH
    ensures ReceiveLoop(c, EncodeAll(fs), now) != Some(AfterAll(c, fs, now))
    decreases |fs|
  {
    hide Encode, ReceiveLoop, Handle, Consumed;
    var e, later := Encode(fs[0]), EncodeAll(fs[1..]);
    FreshIsWithin(fs, c);
    assert e[0..] == e;
    LoopOnRest(fs[0], 0, c, later, now);
    if Consumed(fs[0]) {
      FreshAfter(c, fs[0], now);
      assert exists i :: 0 <= i < |fs| && !Consumed(fs[i]);
      assert forall i :: 0 < i < |fs| ==> fs[i] == fs[1..][i - 1];
      UncutFails(fs[1..], AfterFrame(c, fs[0], now), now);
    } else {
      EncodedFrame(fs[0]);
    }
  }

  /** Chunk independence, with its exact condition: every cutting of a stream of masked frames into
      chunks handles exactly its frames in order - data delivered with type, fin flag and unmasked
      payload, pings answered, close frames answered - and leaves the parser ready for the next frame, if
      and only if every frame has a payload and an opcode that is handled. */
  lemma ChunkIndependence(fs: seq<Frame>, c: Conn, now: int)
    requires MaskedFrames(fs) && ConnOk(c) && c.parser == FRESH
    ensures AllCuttingsDeliver(fs, c, now) <==> AllConsumed(fs)
  {
    hide Encode, ReceiveLoop, Handle, Consumed;
    if AllConsumed(fs) {
      FreshIsWithin(fs, c);
      forall chunks | Flatten(chunks) == EncodeAll(fs)
        ensures Feed(c, chunks, now) == Some(AfterAll(c, fs, now))
      {
        assert EncodeAll(fs)[0..] == EncodeAll(fs);
        FeedFrames(fs, 0, c, chunks, now);
      }
    } else {
      UncutFails(fs, c, now);
      FeedWhole(c, EncodeAll(fs), now);
    }
  }

  /** Handling data frames delivers their messages and changes nothing else. */
  lemma {:induction false} DataIsDelivered(fs: seq<Frame>, c: Conn, now: int)
    requires MaskedFrames(fs) && forall i :: 0 <= i < |fs| ==> IsData(fs[i].opcode)
    ensures AfterAll(c, fs, now) == c.(parser := FRESH, messages := c.messages + MessagesOf(fs))
    decreases |fs|
  {
    if fs == [] {
      assert c.messages + MessagesOf([]) == c.messages;
    } else {
      DataIsDelivered(fs[1..], Handle(c, fs[0], now), now);
      assert MessagesOf(fs) == [MessageOf(fs[0])] + MessagesOf(fs[1..]);
      Regroup(c.messages, [MessageOf(fs[0])], MessagesOf(fs[1..]));
    }
  }

  function MessagesOf(fs: seq<Frame>): (ms: seq<Message>)
    ensures |ms| == |fs|
  {
    seq(|fs|, i requires 0 <= i < |fs| => MessageOf(fs[i]))
  }

  /** A frame with an opcode that is not handled, received in any state of the stream before it, makes
      the connection send a close frame and stay with that frame: no byte behind it is ever taken. */
  lemma UnhandledOpcodeSticks(f: Frame, n: nat, c: Conn, later: seq<byte>, now: int)
    requires MaskedFrame(f) && f.payload != [] && !IsHandled(f.opcode) && Holding(f, n, c)
    ensures var c1 := CloseWebSocket(c, now).(parser := PState(Encode(f), |Encode(f)|));
            && ConnOk(c1) && ReceiveLoop(c, Encode(f)[n..], now) == Some(c1)
            && (later != [] ==> ReceiveLoop(c1, later, now) == None
                                && ReceiveTurn(c1, later, now).conn == CloseWebSocket(c1, now))
            && (later != [] ==> ReceiveLoop(c, Encode(f)[n..] + later, now) == None)
  {
    hide Encode, ReceiveLoop;
    var c1 := CloseWebSocket(c, now).(parser := PState(Encode(f), |Encode(f)|));
    LoopOnRest(f, n, c, later, now);
    LoopOnRest(f, n, c, [], now);
    assert Encode(f)[n..] + [] == Encode(f)[n..];
    assert AfterFrame(c, f, now) == c1;
    if later != [] {
      DeadConn(f, c1, later, now);
      EncodedFrame(f);
      assert Encode(f)[..|Encode(f)|] == Encode(f);
      ParseProgress(c1.parser, later);
      ParseKeepsSound(c1.parser, later);
    }
  }

  // ----- when the receive loop always ends

  /** The receive loop ends on every chunk, however the stream is cut. */
  ghost predicate AlwaysEnds(fs: seq<Frame>, c: Conn, now: int)
    requires Frames(fs) && ConnOk(c)
  {
    forall chunks {:trigger Flatten(chunks)} | Flatten(chunks) == EncodeAll(fs) :: Feed(c, chunks, now).Some?
  }

  /** Every frame with another one behind it is consumed, or an unmasked frame has come before. */
  predicate NothingBehindUnconsumed(fs: seq<Frame>) {
    forall i :: 0 <= i < |fs| - 1 ==> Consumed(fs[i]) || UnmaskedUpTo(fs, i)
  }

  predicate UnmaskedUpTo(fs: seq<Frame>, i: nat)
    requires i < |fs|
  {
    exists j :: 0 <= j <= i && fs[j].mask.None?
  }

  lemma NothingBehindCons(fs: seq<Frame>)
    requires fs != []
    ensures NothingBehindUnconsumed(fs)
            <==> |fs| == 1 || fs[0].mask.None? || (Consumed(fs[0]) && NothingBehindUnconsumed(fs[1..]))
  {
    hide Consumed;
    var rest := fs[1..];
    assert forall i :: 0 <= i < |rest| ==> rest[i] == fs[i + 1];
    if fs[0].mask.Some? {
      forall i | 0 <= i < |rest| ensures UnmaskedUpTo(rest, i) <==> UnmaskedUpTo(fs, i + 1) {
        if UnmaskedUpTo(fs, i + 1) {
          var j :| 0 <= j <= i + 1 && fs[j].mask.None?;
          assert rest[j - 1].mask.None?;
        }
        if UnmaskedUpTo(rest, i) {
          var j :| 0 <= j <= i && rest[j].mask.None?;
          assert fs[j + 1].mask.None?;
        }
      }
      if NothingBehindUnconsumed(fs) && |fs| > 1 {
        assert !UnmaskedUpTo(fs, 0);
        assert Consumed(fs[0]);
        forall i | 0 <= i < |rest| - 1 ensures Consumed(rest[i]) || UnmaskedUpTo(rest, i) {
          assert Consumed(fs[i + 1]) || UnmaskedUpTo(fs, i + 1);
        }
      }
      if Consumed(fs[0]) && NothingBehindUnconsumed(rest) {
        forall i | 0 <= i < |fs| - 1 ensures Consumed(fs[i]) || UnmaskedUpTo(fs, i) {
          if i > 0 { assert Consumed(rest[i - 1]) || UnmaskedUpTo(rest, i - 1); }
        }
      }
    } else {
      forall i | 0 <= i < |fs| - 1 ensures UnmaskedUpTo(fs, i) { assert fs[0].mask.None?; }
    }
  }

  /** The parser has refused an unmasked header. */
  predicate Refused(c: Conn) { ConnOk(c) && Dead(c.parser) && !Masked(c.parser.acc[1]) }

  /** A connection that has refused a header closes again on every chunk, and the loop always ends. */
  lemma RefusedTurn(c: Conn, buf: seq<byte>, now: int)
    requires Refused(c) && buf != []
    ensures ReceiveLoop(c, buf, now) == Some(CloseWebSocket(c, now)) && Refused(CloseWebSocket(c, now))
  {
    ParseProgress(c.parser, buf);
    ParseKeepsSound(c.parser, buf);
  }

  lemma UnmaskedParse(f: Frame, n: nat, st: PState, buf: seq<byte>)
    requires WellFormed(f) && f.mask.None? && n < |Encode(f)| && Sound(st) && st.acc == Encode(f)[..n]
    requires buf[..if |buf| < |Encode(f)| - n then |buf| else |Encode(f)| - n] <= Encode(f)[n..]
    ensures n <= HEADER && st.expected == HEADER
    ensures var (st', status) := Parse(st, buf);
            if n + |buf| < HEADER then st' == PState(Encode(f)[..n + |buf|], HEADER) && status == MessageIncomplete
            else st' == PState(Encode(f)[..HEADER], HEADER) && status == Error && !Masked(st'.acc[1])
  {
    hide Encode, Masked, PayloadLength, SecondByte, FirstByte, Len7, BigEndian;
    var e := Encode(f);
    EncodedParts(f, []);
    assert e + [] == e;
    SecondByteFields(false, |f.payload|);
    if n >= HEADER { assert st.acc[1] == e[1]; }
    var r := ToRead(st, |buf|);
    assert buf[..r] == e[n..][..r];
    Continues(e, n, r);
  }

  lemma Continues(e: seq<byte>, n: nat, k: nat)
    requires n + k <= |e|
    ensures e[..n] + e[n..][..k] == e[..n + k]
  {
  }

  /** An unmasked frame is refused as soon as its two fixed bytes are there. */
  lemma LoopOnUnmasked(f: Frame, n: nat, c: Conn, buf: seq<byte>, now: int)
    requires WellFormed(f) && f.mask.None? && Holding(f, n, c) && buf != []
    requires buf[..if |buf| < |Encode(f)| - n then |buf| else |Encode(f)| - n] <= Encode(f)[n..]
    ensures var r := ReceiveLoop(c, buf, now);
            && r.Some?
            && if n + |buf| < HEADER then Holding(f, n + |buf|, r.value) else Refused(r.value)
  {
    hide Encode, Masked, PayloadLength, Parse, WholePacket;
    UnmaskedParse(f, n, c.parser, buf);
    ReceiveTurnOk(c, buf, now);
    EncodedParts(f, []);
    assert Encode(f) + [] == Encode(f);
    if n + |buf| < HEADER { assert buf[|buf|..] == []; }
  }

  /** The receive loop on the next chunk of a stream on which it always ends: afterwards the stream goes
      on, or the connection has refused a frame, or nothing is left. */
  lemma {:induction false} LoopEnds(fs: seq<Frame>, n: nat, c: Conn, buf: seq<byte>, tail: seq<byte>, now: int)
    returns (k: nat, m: nat)
    requires Frames(fs) && NothingBehindUnconsumed(fs) && Within(fs, n, c)
    requires EncodeAll(fs)[n..] == buf + tail
    ensures k <= |fs| && Frames(fs[k..])
    ensures var r := ReceiveLoop(c, buf, now);
            && r.Some? && ConnOk(r.value)
            && (Refused(r.value) || tail == []
                || (Within(fs[k..], m, r.value) && NothingBehindUnconsumed(fs[k..])
                    && m <= |EncodeAll(fs[k..])| && EncodeAll(fs[k..])[m..] == tail))
    decreases |fs|
  {
    hide Encode, Holding, ConnOk, ReceiveLoop, Handle, Consumed, Refused, NothingBehindUnconsumed;
    k, m := 0, n;
    assert fs[0..] == fs;
    if buf == [] {
      WithinOk(fs, n, c);
      LoopOnNothing(c, now);
      if fs != [] { HoldingFits(fs[0], n, c); }
    } else if fs == [] {
      assert false;
    } else {
      var e, later := Encode(fs[0]), EncodeAll(fs[1..]);
      HoldingFits(fs[0], n, c);
      NothingBehindCons(fs);
      CutInside(e, later, n, buf, tail);
      if fs[0].mask.None? {
        assert (e + later)[n..] == e[n..] + later;
        LoopOnUnmasked(fs[0], n, c, buf, now);
        EncodedParts(fs[0], []);
        m := n + |buf|;
      } else if n + |buf| < |e| {
        LoopOnPart(fs[0], n, c, buf, now);
        m := n + |buf|;
      } else {
        var rest := buf[|e| - n..];
        LoopOnRest(fs[0], n, c, rest, now);
        if Consumed(fs[0]) {
          var c1 := AfterFrame(c, fs[0], now);
          FreshAfter(c, fs[0], now);
          FreshIsWithin(fs[1..], c1);
          if |fs| == 1 { NothingBehindNone(); }
          assert later[0..] == later;
          k, m := LoopEnds(fs[1..], 0, c1, rest, tail, now);
          k := k + 1;
          assert fs[1..][k - 1..] == fs[k..];
        } else {
          assert |fs| == 1 && later == [];
        }
      }
    }
  }

  lemma NothingBehindNone()
    ensures NothingBehindUnconsumed([])
  {
  }

  lemma {:induction false} FeedRefused(c: Conn, chunks: seq<seq<byte>>, now: int)
    requires Refused(c)
    ensures Feed(c, chunks, now).Some?
    decreases |chunks|
  {
    hide ReceiveLoop;
    if chunks != [] {
      if chunks[0] == [] {
        LoopOnNothing(c, now);
        FeedRefused(c, chunks[1..], now);
      } else {
        RefusedTurn(c, chunks[0], now);
        FeedRefused(CloseWebSocket(c, now), chunks[1..], now);
      }
    }
  }

  lemma {:induction false} FeedNothing(c: Conn, chunks: seq<seq<byte>>, now: int)
    requires ConnOk(c) && Flatten(chunks) == []
    ensures Feed(c, chunks, now) == Some(c)
    decreases |chunks|
  {
    hide ReceiveLoop;
    if chunks != [] {
      LoopOnNothing(c, now);
      FeedNothing(c, chunks[1..], now);
    }
  }

  lemma {:induction false} FeedEnds(fs: seq<Frame>, n: nat, c: Conn, chunks: seq<seq<byte>>, now: int)
    requires Frames(fs) && NothingBehindUnconsumed(fs) && Within(fs, n, c) && ConnOk(c)
    requires n <= |EncodeAll(fs)| && EncodeAll(fs)[n..] == Flatten(chunks)
    ensures Feed(c, chunks, now).Some?
    decreases |chunks|
  {
    hide Encode, ReceiveLoop, ConnOk, Refused, NothingBehindUnconsumed, Within;
    if chunks != [] {
      var tail := Flatten(chunks[1..]);
      var k, m := LoopEnds(fs, n, c, chunks[0], tail, now);
      var c1 := ReceiveLoop(c, chunks[0], now).value;
      if Refused(c1) {
        FeedRefused(c1, chunks[1..], now);
      } else if tail == [] {
        FeedNothing(c1, chunks[1..], now);
      } else {
        FeedEnds(fs[k..], m, c1, chunks[1..], now);
      }
    }
  }

  /** In one piece, a stream that goes on behind a masked frame that is not consumed never ends. */
  lemma {:induction false} UncutNeverEnds(fs: seq<Frame>, c: Conn, now: int)
    requires Frames(fs) && !NothingBehindUnconsumed(fs) && ConnOk(c) && c.parser == FRESH
    ensures ReceiveLoop(c, EncodeAll(fs), now) == None
    decreases |fs|
  {
    hide Encode, ReceiveLoop, Handle, Consumed, ConnOk;
    var e, later := Encode(fs[0]), EncodeAll(fs[1..]);
    NothingBehindCons(fs);
    FreshIsWithin(fs, c);
    assert e[0..] == e;
    LoopOnRest(fs[0], 0, c, later, now);
    if Consumed(fs[0]) {
      FreshAfter(c, fs[0], now);
      UncutNeverEnds(fs[1..], AfterFrame(c, fs[0], now), now);
    } else {
      EncodedParts(fs[1], []);
    }
  }

  /** Exact condition of termination, for every stream of frames, masked or not: the receive loop ends on
      every chunk of every cutting if and only if nothing follows a masked frame that is empty or not
      handled, or an unmasked frame has come before it. */
  lemma LoopAlwaysEnds(fs: seq<Frame>, c: Conn, now: int)
    requires Frames(fs) && ConnOk(c) && c.parser == FRESH
    ensures AlwaysEnds(fs, c, now) <==> NothingBehindUnconsumed(fs)
  {
    hide Encode, ReceiveLoop, NothingBehindUnconsumed, ConnOk;
    if NothingBehindUnconsumed(fs) {
      FreshIsWithin(fs, c);
      forall chunks | Flatten(chunks) == EncodeAll(fs) ensures Feed(c, chunks, now).Some? {
        assert EncodeAll(fs)[0..] == EncodeAll(fs);
        FeedEnds(fs, 0, c, chunks, now);
      }
    } else {
      UncutNeverEnds(fs, c, now);
      FeedWhole(c, EncodeAll(fs), now);
    }
  }
}
