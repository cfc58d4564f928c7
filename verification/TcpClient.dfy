/** The connection object of webserver/TcpClient.cpp with the framing strategy of
    webserver/HTTPFramingStrategy.cpp plugged in, updated in place. */
module TcpClient {
  import opened Common
  import opened HttpFraming
  import opened HttpStream
  import opened RingBuffer
  import opened SendQueue

  class FullMessageInfo {
    var complete: bool
    var size: nat
    var buffer: array?<char>

    ghost predicate Valid()
      reads this, buffer
    {
      && !complete
      && (if buffer == null then size == 0 else size <= buffer.Length)
      && Partial(Accumulated())
    }

    ghost function Accumulated(): string
      requires if buffer == null then size == 0 else size <= buffer.Length
      reads this, buffer
    {
      if buffer == null then "" else buffer[..size]
    }

    constructor ()
      ensures Valid() && Accumulated() == ""
    {
      complete, size, buffer := false, 0, null;
    }
  }

  /** HTTPFramingStrategy::processData. A negative result is an error code, any other result is the
      number of bytes of `data` that belong to the message. */
  method ProcessData(data: string, info: FullMessageInfo) returns (r: int)
    requires info.Valid() && |data| < 0x8000_0000
    modifies info
    ensures match Frame(old(info.Accumulated()), data)
            case Fail(code) => r == code < 0
            case More => r == |data| && info.Valid() && info.Accumulated() == old(info.Accumulated()) + data
            case Complete(n) =>
              && r == n && 0 < n <= |data| && info.complete
              && info.buffer != null && info.size <= info.buffer.Length
              && info.Accumulated() == (old(info.Accumulated()) + data)[..|old(info.Accumulated())| + n]
  {
    hide Text, HasChunked, ContentLength, EndOfHeader, Partial;
    ghost var acc := info.Accumulated();
    CompleteTakesSome(acc, data);
    var size := |data|;
    var tmp := new char[size + info.size];
    if info.buffer != null {
      forall i | 0 <= i < info.size { tmp[i] := info.buffer[i]; }
    }
    forall i | 0 <= i < size { tmp[info.size + i] := data[i]; }
    info.buffer := tmp;
    assert tmp[..] == acc + data;
    var message := Text(tmp[..]);
    var eoh := EndOfHeader(message);
    if eoh.None? {
      info.size := info.size + size;
      assert tmp[..info.size] == tmp[..];
      if info.size > MAX_PENDING {
        return ERROR_HEADER_SIZE;
      }
      return size;
    }
    if HasChunked(message) {
      return ERROR_CHUNKED;
    }
    var contentLength := ContentLength(message);
    if info.size + size < eoh.value + 4 + contentLength {
      info.size := info.size + size;
      assert tmp[..info.size] == tmp[..];
      return size;
    }
    info.complete := true;
    var delta := (eoh.value + 4 + contentLength) - info.size;
    if delta < size {
      info.size := info.size + delta;
    } else {
      info.size := info.size + size;
    }
    return delta;
  }

  const MAX_INTERNAL_TX_COUNT := 4000

  class TcpClient {
    var mFailed: bool
    const currentMessage: FullMessageInfo
    var currentSendBuffer: Option<SendBuffer<char>>
    const txList: MPSCRingBuffer<SendBuffer<char>>
    // What the observer was told: onClientMessage and onFramingError.
    var messages: seq<string>
    var framingError: Option<int>

    ghost predicate Valid()
      reads this, currentMessage, currentMessage.buffer, txList, txList.items
    {
      && (!mFailed ==> currentMessage.Valid())
      && (mFailed <==> framingError.Some?)
      && txList.Valid() && txList.size == MAX_INTERNAL_TX_COUNT
      && TxOk(Tx(currentSendBuffer, txList.Contents()))
    }

    /** The receive side. */
    ghost function Receiving(): Rx
      requires Valid()
      reads this, currentMessage, currentMessage.buffer, txList, txList.items
    {
      Rx(if mFailed then "" else currentMessage.Accumulated(), messages, framingError)
    }

    /** The transmit side. */
    ghost function Sending(): (tx: Tx<char>)
      requires Valid()
      reads this, currentMessage, currentMessage.buffer, txList, txList.items
      ensures TxOk(tx)
    {
      Tx(currentSendBuffer, txList.Contents())
    }

    constructor ()
      ensures Valid() && Receiving() == START && Sending() == Tx(None, [])
      ensures fresh(currentMessage) && fresh(txList) && fresh(txList.items)
    {
      mFailed, messages, framingError, currentSendBuffer := false, [], None, None;
      currentMessage := new FullMessageInfo();
      txList := new MPSCRingBuffer<SendBuffer<char>>(MAX_INTERNAL_TX_COUNT, SendBuffer([], 0));
    }

    method OnReceive(data: string) returns (ok: bool)
      requires Valid() && |data| < 0x8000_0000
      modifies this, currentMessage
      ensures Valid() && ok == !mFailed
      ensures Partial(old(Receiving()).acc) && Receiving() == Receive(old(Receiving()), data)
      ensures Sending() == old(Sending())
    {
      hide Frame, Partial;
      NothingIsPartial();
      if mFailed {
        return false;
      }
      var rest := data;
      while |rest| > 0
        invariant Valid() && !mFailed && Sending() == old(Sending())
        invariant Partial(Receiving().acc)
        invariant |rest| <= |data|
        invariant Receive(Receiving(), rest) == Receive(old(Receiving()), data)
        decreases |rest|
      {
        ghost var rx := Receiving();
        CompleteTakesSome(rx.acc, rest);
        var ret := ProcessData(rest, currentMessage);
        if ret < 0 {
          framingError := Some(ret);
          mFailed := true;
          return false;
        }
        rest := rest[ret..];
        if currentMessage.complete {
          messages := messages + [currentMessage.buffer[..currentMessage.size]];
          currentMessage.complete := false;
          currentMessage.buffer := null;
          currentMessage.size := 0;
        }
      }
      return true;
    }

    method SendData(data: string)
      requires Valid()
      modifies txList, txList.items
      ensures Valid()
      ensures Sending() == Enqueue(MAX_INTERNAL_TX_COUNT, old(Sending()), data).0
      ensures Receiving() == old(Receiving())
    {
      EnqueueAppends(MAX_INTERNAL_TX_COUNT, Sending(), data);
      var ok := txList.Put(SendBuffer(data, 0));
    }

    method GetTxData() returns (buf: string)
      requires Valid()
      modifies `currentSendBuffer, txList, txList.items
      ensures Valid()
      ensures buf == Offered(old(Sending())) && Sending() == Load(old(Sending()))
      ensures Receiving() == old(Receiving())
    {
      LoadOk(Sending());
      if currentSendBuffer.None? {
        var ok, sendBuffer := txList.Get();
        if ok {
          currentSendBuffer := Some(sendBuffer);
        }
      }
      if currentSendBuffer.None? {
        return "";
      }
      return currentSendBuffer.value.data[currentSendBuffer.value.currentIndex..];
    }

    /** A report of more bytes than were handed out leaves the buffer with its index behind the end. */
    method OnDataSent(size: nat)
      requires Valid()
      modifies `currentSendBuffer
      ensures Tx(currentSendBuffer, old(Sending()).queue) == Sent(old(Sending()), size)
      ensures Valid() <==> old(currentSendBuffer).Some? ==>
                size <= |old(currentSendBuffer).value.data| - old(currentSendBuffer).value.currentIndex
      ensures Valid() ==> Sending() == Sent(old(Sending()), size) && Receiving() == old(Receiving())
    {
      if currentSendBuffer.None? {
        return;
      }
      var b := currentSendBuffer.value;
      b := b.(currentIndex := b.currentIndex + size);
      if b.currentIndex == |b.data| {
        currentSendBuffer := None;
      } else {
        currentSendBuffer := Some(b);
      }
    }

    /** The send loop of the server for one client (webserver/TcpServer.cpp). Every write of the socket
        takes at least one byte, otherwise any number. The loop ends, and has then sent exactly the
        pending bytes in front of the first empty buffer. */
    method ProcessSend() returns (wire: string)
      requires Valid()
      modifies `currentSendBuffer, txList, txList.items
      ensures Valid() && Offered(Sending()) == ""
      ensures wire == Reachable(Parts(old(Sending())))
      ensures old(Pending(Sending())) == wire + Pending(Sending())
      ensures wire == old(Pending(Sending())) <==> NoDataBehindEmpty(old(Parts(Sending())))
      ensures Receiving() == old(Receiving())
    {
      wire := "";
      ReachableIsAll(Parts(Sending()));
      while true
        invariant Valid() && Receiving() == old(Receiving())
        invariant old(Pending(Sending())) == wire + Pending(Sending())
        invariant Reachable(old(Parts(Sending()))) == wire + Reachable(Parts(Sending()))
        decreases |Pending(Sending())|
      {
        ghost var before := Sending();
        LoadKeepsParts(before);
        var buffer := GetTxData();
        if |buffer| == 0 {
          StopsAtEmpty(before);
          break;
        }
        var sent: nat :| 1 <= sent <= |buffer|;
        SentTakesFront(before, sent);
        OnDataSent(sent);
        Regroup(wire, buffer[..sent], Pending(Sending()));
        Regroup(wire, buffer[..sent], Reachable(Parts(Sending())));
        wire := wire + buffer[..sent];
      }
    }
  }
}
