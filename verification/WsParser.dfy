/** The incremental frame parser of websocket/WSProtocolParser.cpp: as a function of what it has
    accumulated, and as an object with a buffer that grows in place. */
module WsParser {
  import opened Bytes
  import opened WsFrames

  const HEADER := 2                 // sizeof(WSHeader)
  const DEFAULT_DATA_SIZE := 1024

  // ----- the parser as a function

  /** data[..dataIndex] and expectedLength. */
  datatype PState = PState(acc: seq<byte>, expected: nat)

  const FRESH := PState([], HEADER)

  datatype Status = Error | MessageReady(headerSize: nat, payloadSize: nat) | MessageIncomplete

  function HeaderSize(b1: byte): nat { HEADER + 4 + Extra(Len7(b1)) }

  /** The payload length a complete header announces. */
  function PayloadLength(acc: seq<byte>): nat
    requires |acc| >= HEADER && |acc| >= HEADER + Extra(Len7(acc[1]))
  {
    var extra := Extra(Len7(acc[1]));
    if extra == 0 then Len7(acc[1]) else FromBigEndian(acc[2..2 + extra])
  }

  /** What happens when the expected number of bytes is there. */
  function Check(st: PState): (PState, Status)
    requires HEADER <= st.expected == |st.acc|
  {
    var hs := HeaderSize(st.acc[1]);
    if !Masked(st.acc[1]) then (st, Error)
    else
      var expected := if st.expected == HEADER then hs else st.expected;
      if |st.acc| == hs then (st.(expected := hs + PayloadLength(st.acc)), MessageIncomplete)
      else (st.(expected := expected), if expected > hs then MessageReady(hs, expected - hs) else MessageIncomplete)
  }

  function ToRead(st: PState, n: nat): nat
    requires |st.acc| <= st.expected
  {
    if |st.acc| + n > st.expected then st.expected - |st.acc| else n
  }

  function Parse(st: PState, buf: seq<byte>): (PState, Status)
    requires HEADER <= st.expected && |st.acc| <= st.expected
  {
    var st1 := st.(acc := st.acc + buf[..ToRead(st, |buf|)]);
    if |st1.acc| == st1.expected then Check(st1) else (st1, MessageIncomplete)
  }

  /** The states the parser can reach: waiting for the two fixed bytes, for the rest of a masked
      header, or for the payload that header announces. */
  predicate Sound(st: PState) {
    && |st.acc| <= st.expected
    && (if st.expected == HEADER then |st.acc| == HEADER ==> !Masked(st.acc[1])
        else HEADER <= |st.acc| && Masked(st.acc[1])
             && var hs := HeaderSize(st.acc[1]);
             if |st.acc| < hs then st.expected == hs else st.expected == hs + PayloadLength(st.acc[..hs]))
  }

  lemma ParseKeepsSound(st: PState, buf: seq<byte>)
    requires Sound(st)
    ensures var (st', status) := Parse(st, buf);
            && Sound(st')
            && st'.acc == st.acc + buf[..ToRead(st, |buf|)]
            && (status.Error? ==> st'.expected == HEADER)
            && (status.MessageReady? ==>
                  && st'.expected == |st'.acc| == status.headerSize + status.payloadSize
                  && status.headerSize == HeaderSize(st'.acc[1]) && 0 < status.payloadSize
                  && status.payloadSize == PayloadLength(st'.acc[..status.headerSize]))
  {
    hide Check, Sound;
    SoundFits(st);
    var more := buf[..ToRead(st, |buf|)];
    if |st.acc + more| == st.expected { CheckKeepsSound(st, more); } else { AppendKeepsSound(st, more); }
  }

  lemma SoundFits(st: PState)
    requires Sound(st)
    ensures |st.acc| <= st.expected && HEADER <= st.expected
  {
  }

  lemma AppendKeepsSound(st: PState, more: seq<byte>)
    requires Sound(st) && |st.acc + more| < st.expected
    ensures Sound(PState(st.acc + more, st.expected))
  {
    hide Masked, PayloadLength;
    var acc := st.acc + more;
    if |st.acc| >= HEADER {
      assert acc[1] == st.acc[1];
      var hs := HeaderSize(acc[1]);
      if |st.acc| >= hs { assert acc[..hs] == st.acc[..hs]; }
    }
  }

  lemma CheckKeepsSound(st: PState, more: seq<byte>)
    requires Sound(st) && HEADER <= st.expected == |st.acc + more|
    ensures var (st', status) := Check(PState(st.acc + more, st.expected));
            && Sound(st') && st'.acc == st.acc + more
            && (status.Error? ==> st'.expected == HEADER)
            && (status.MessageReady? ==>
                  && st'.expected == |st'.acc| == status.headerSize + status.payloadSize
                  && status.headerSize == HeaderSize(st'.acc[1]) && 0 < status.payloadSize
                  && status.payloadSize == PayloadLength(st'.acc[..status.headerSize]))
  {
    hide Masked, PayloadLength;
    var acc := st.acc + more;
    var hs := HeaderSize(acc[1]);
    if |st.acc| >= HEADER { assert acc[1] == st.acc[1]; }
    if |acc| == hs { assert acc[..hs] == acc; }
    if |st.acc| >= HEADER && |st.acc| >= hs { assert acc[..hs] == st.acc[..hs]; }
  }

  /** The parser has a whole header or a whole frame and was not reset: it takes no more bytes. */
  predicate Dead(st: PState) {
    Sound(st) && st.expected == |st.acc|
  }

  /** Progress: a call on new bytes takes at least one of them unless the parser is dead, and a dead
      parser takes none and stays as it is. */
  lemma ParseProgress(st: PState, buf: seq<byte>)
    requires Sound(st) && buf != []
    ensures ToRead(st, |buf|) == 0 <==> Dead(st)
    ensures Dead(st) ==> Parse(st, buf).0 == st
  {
    if Dead(st) {
      var st1 := st.(acc := st.acc + buf[..0]);
      assert st1 == st;
      if Masked(st.acc[1]) { assert st.acc[..|st.acc|] == st.acc; }
    }
  }

  /** After a call only three things leave a dead parser: an unmasked frame, a whole frame that the
      caller has not reset yet, and a header that announces an empty payload. */
  lemma DeadMeans(st: PState, buf: seq<byte>)
    requires Sound(st)
    ensures var (st', status) := Parse(st, buf);
            Dead(st') <==> status.Error? || status.MessageReady?
                           || (HEADER < |st'.acc| == HeaderSize(st'.acc[1]) == st'.expected)
  {
    ParseKeepsSound(st, buf);
    var (st', status) := Parse(st, buf);
    if |st'.acc| == st'.expected && HEADER < |st'.acc| {
      assert st'.acc[..|st'.acc|] == st'.acc;
    }
  }

  // ----- the parser as an object

  datatype Result = Result(status: Status, dataRead: nat)

  class WSProtocolParser {
    var data: array<byte>
    var dataIndex: nat
    var currentBufferSize: nat
    var expectedLength: nat

    ghost predicate InBounds()
      reads this, data
    {
      && data.Length == currentBufferSize && DEFAULT_DATA_SIZE <= currentBufferSize
      && HEADER <= expectedLength && dataIndex <= expectedLength <= currentBufferSize
    }

    ghost predicate Valid()
      reads this, data
    {
      InBounds() && Sound(State())
    }

    ghost function State(): PState
      requires InBounds()
      reads this, data
    {
      PState(data[..dataIndex], expectedLength)
    }

    constructor ()
      ensures Valid() && fresh(data) && State() == FRESH
    {
      currentBufferSize := DEFAULT_DATA_SIZE;
      data := new byte[DEFAULT_DATA_SIZE](_ => 0);
      dataIndex := 0;
      expectedLength := HEADER;
    }

    method ResetMessageBuffer()
      modifies this
      requires data.Length == currentBufferSize && DEFAULT_DATA_SIZE <= currentBufferSize
      ensures Valid() && State() == FRESH && (data == old(data) || fresh(data))
      ensures currentBufferSize == DEFAULT_DATA_SIZE
    {
      dataIndex := 0;
      expectedLength := HEADER;
      if currentBufferSize > DEFAULT_DATA_SIZE {
        currentBufferSize := DEFAULT_DATA_SIZE;
        data := new byte[DEFAULT_DATA_SIZE](_ => 0);
      }
    }

    /** The second half of parseWSMessage: the expected number of bytes is there. Bytes are read as
        unsigned, and the buffer is reallocated when an announced payload does not fit. */
    method Inspect() returns (status: Status)
      requires InBounds() && dataIndex == expectedLength
      modifies this
      ensures InBounds() && (data == old(data) || fresh(data))
      ensures (State(), status) == Check(old(State()))
    {
      hide FromBigEndian, Masked, Len7;
      ghost var st := State();
      var b1 := data[1];
      assert b1 == st.acc[1];
      var headerSize := HEADER;
      if Masked(b1) {
        headerSize := headerSize + 4;
      } else {
        return Error;
      }
      if Len7(b1) == 126 {
        headerSize := headerSize + 2;
      } else if Len7(b1) == 127 {
        headerSize := headerSize + 8;
      }
      if expectedLength == HEADER {
        expectedLength := headerSize;
      }
      if dataIndex == headerSize {
        var payloadSize := Len7(b1);
        if payloadSize == 126 {
          payloadSize := FromBigEndian(data[2..4]);
          assert data[2..4] == st.acc[2..4];
        } else if payloadSize == 127 {
          payloadSize := FromBigEndian(data[2..10]);
          assert data[2..10] == st.acc[2..10];
        }
        expectedLength := headerSize + payloadSize;
        if expectedLength > currentBufferSize {
          var newBuffer := new byte[expectedLength](_ => 0);
          forall i | 0 <= i < dataIndex { newBuffer[i] := data[i]; }
          data := newBuffer;
          currentBufferSize := expectedLength;
        }
        assert data[..dataIndex] == st.acc;
      } else if expectedLength > headerSize {
        return MessageReady(headerSize, expectedLength - headerSize);
      }
      return MessageIncomplete;
    }

    method Append(bytes: seq<byte>)
      requires InBounds() && dataIndex + |bytes| <= expectedLength
      modifies `dataIndex, data
      ensures InBounds() && State() == PState(old(State()).acc + bytes, expectedLength)
    {
      ghost var acc := State().acc;
      forall i | dataIndex <= i < dataIndex + |bytes| { data[i] := bytes[i - dataIndex]; }
      dataIndex := dataIndex + |bytes|;
      assert forall i :: 0 <= i < dataIndex ==> data[i] == (acc + bytes)[i];
    }

    /** The message, when ready, lies in data[..dataIndex]. */
    method ParseWSMessage(buf: seq<byte>) returns (result: Result)
      requires Valid()
      modifies this, data
      ensures Valid() && (data == old(data) || fresh(data))
      ensures (State(), result.status) == Parse(old(State()), buf)
      ensures result.dataRead == ToRead(old(State()), |buf|)
    {
      hide Sound, Check;
      ghost var st := State();
      ParseKeepsSound(st, buf);
      var toRead := |buf|;
      if dataIndex + |buf| > expectedLength {
        toRead := expectedLength - dataIndex;
      }
      Append(buf[..toRead]);
      var status := MessageIncomplete;
      if dataIndex == expectedLength {
        status := Inspect();
      }
      return Result(status, toRead);
    }
  }
}
