/** Getting a response out: webserver/HTTPResponse.cpp, webserver/HTTPBufferedResponse.cpp and
    WebServer::sendResponse. */
module HttpResponse {
  import opened Common
  import opened HttpFraming
  import opened SendQueue
  import opened TcpClient

  /** The header lines chosen by the handler. `code` is the text of the response code table. */
  datatype Fields = Fields(code: string, auth: string, authHack: bool, contentType: string, cookie: string)

  const CRLF := "\r\n"

  function StatusLine(f: Fields): string { "HTTP/1.1 " + f.code + CRLF }

  function AuthLine(f: Fields): string {
    if f.auth == "" then ""
    else (if f.authHack then "X-WWW-Authenticate: " else "WWW-Authenticate: ") + f.auth + CRLF
  }

  function TypeLine(f: Fields): string {
    if f.contentType == "" then "" else "Content-Type: " + f.contentType + "; charset=UTF-8" + CRLF
  }

  function CookieLine(f: Fields): string {
    if f.cookie == "" then "" else "Set-Cookie: " + f.cookie + CRLF
  }

  /** Everything after the announced length. */
  function Rest(f: Fields): string {
    CRLF + AuthLine(f) + TypeLine(f) + CookieLine(f)
    + ("Connection: Close" + CRLF) + ("Access-Control-Allow-Origin: *" + CRLF) + CRLF
  }

  function Header(f: Fields, contentSize: nat): string {
    StatusLine(f) + "Content-Length: " + Decimal(contentSize) + Rest(f)
  }

  const BUFSIZE := 1024

  /** The response cut into buffers of BUFSIZE bytes, and the empty buffer that ends the send loop. */
  function Buffers(content: string): (bs: seq<string>)
    ensures bs != []
    decreases |content|
  {
    if |content| == 0 then [""]
    else if |content| <= BUFSIZE then [content, ""]
    else [content[..BUFSIZE]] + Buffers(content[BUFSIZE..])
  }

  ghost function EnqueueAll(tx: Tx<char>, bs: seq<string>): (r: Tx<char>)
    requires TxOk(tx)
    ensures TxOk(r)
    decreases |bs|
  {
    if bs == [] then tx
    else
      EnqueueAppends(MAX_INTERNAL_TX_COUNT, tx, bs[0]);
      EnqueueAll(Enqueue(MAX_INTERNAL_TX_COUNT, tx, bs[0]).0, bs[1..])
  }

  class HTTPBufferedResponse {
    const fields: Fields
    var mHeaderBuilt: bool
    var mHeader: string
    var mContent: string

    constructor (fields: Fields, body: string)
      ensures !mHeaderBuilt && mContent == body && this.fields == fields
    {
      this.fields := fields;
      mHeaderBuilt, mHeader, mContent := false, "", body;
    }

    /** What the whole response is going to be, whether or not the header is already in front. */
    function Whole(): string
      reads this
    {
      if mHeaderBuilt then mContent else Header(fields, |mContent|) + mContent
    }

    method BuildHeader(contentSize: nat) returns (built: bool)
      modifies `mHeader, `mHeaderBuilt
      ensures mHeaderBuilt && built == !old(mHeaderBuilt)
      ensures mHeader == if built then Header(fields, contentSize) else old(mHeader)
    {
      if mHeaderBuilt {
        return false;
      }
      var start := StatusLine(fields) + "Content-Length: " + Decimal(contentSize);
      var ss := CRLF;
      if fields.auth != "" { ss := ss + AuthLine(fields); }
      assert ss == CRLF + AuthLine(fields);
      if fields.contentType != "" { ss := ss + TypeLine(fields); }
      assert ss == CRLF + AuthLine(fields) + TypeLine(fields);
      if fields.cookie != "" { ss := ss + CookieLine(fields); }
      assert ss == CRLF + AuthLine(fields) + TypeLine(fields) + CookieLine(fields);
      ss := ss + ("Connection: Close" + CRLF) + ("Access-Control-Allow-Origin: *" + CRLF) + CRLF;
      assert ss == Rest(fields);
      mHeader := start + ss;
      mHeaderBuilt := true;
      return true;
    }

    /** The header is put in front of the content by the first call only. */
    method GetResponseChunk(startIndex: nat, max: nat) returns (buf: string)
      modifies this
      ensures mHeaderBuilt && Whole() == old(Whole())
      ensures startIndex >= |Whole()| ==> buf == ""
      ensures startIndex < |Whole()| ==>
                buf == Whole()[startIndex..if startIndex + max < |Whole()| then startIndex + max else |Whole()|]
    {
      var built := BuildHeader(|mContent|);
      if built {
        mContent := mHeader + mContent;
      }
      if startIndex >= |mContent| {
        return "";
      }
      var end := if startIndex + max < |mContent| then startIndex + max else |mContent|;
      return mContent[startIndex..end];
    }
  }

  /** WebServer::sendResponse. */
  method SendResponse(response: HTTPBufferedResponse, client: TcpClient)
    requires client.Valid()
    modifies response, client.txList, client.txList.items
    ensures client.Valid() && client.Receiving() == old(client.Receiving())
    ensures client.Sending() == EnqueueAll(old(client.Sending()), Buffers(old(response.Whole())))
  {
    hide Buffers, EnqueueAll, Enqueue, TxOk, HTTPBufferedResponse.Whole, TcpClient.Valid, TcpClient.Sending,
         TcpClient.Receiving;
    var index := 0;
    var r := 1;
    ghost var whole, before := response.Whole(), client.Sending();
    assert whole[0..] == whole;
    while r > 0
      invariant client.Valid() && client.Receiving() == old(client.Receiving())
      invariant response.Whole() == whole && index <= |whole|
      invariant r >= 0
      invariant r > 0 ==> EnqueueAll(before, Buffers(whole)) == EnqueueAll(client.Sending(), Buffers(whole[index..]))
      invariant r == 0 ==> EnqueueAll(before, Buffers(whole)) == client.Sending()
      decreases |whole| - index, r
    {
      var buf := response.GetResponseChunk(index, BUFSIZE);
      BuffersUnfold(whole, index, buf);
      ghost var tx := client.Sending();
      client.SendData(buf);
      r := |buf|;
      index := index + r;
      EnqueueAllUnfold(tx, buf, if r == 0 then [] else Buffers(whole[index..]));
    }
  }

  lemma EnqueueAllUnfold(tx: Tx<char>, b: string, rest: seq<string>)
    requires TxOk(tx)
    ensures var tx1 := Enqueue(MAX_INTERNAL_TX_COUNT, tx, b).0;
            && TxOk(tx1) && EnqueueAll(tx, [b] + rest) == EnqueueAll(tx1, rest)
            && (rest == [] ==> EnqueueAll(tx1, rest) == tx1)
  {
    EnqueueAppends(MAX_INTERNAL_TX_COUNT, tx, b);
    assert ([b] + rest)[1..] == rest;
  }

  lemma BuffersUnfold(whole: string, index: nat, buf: string)
    requires index <= |whole|
    requires index == |whole| ==> buf == ""
    requires index < |whole| ==> buf == whole[index..if index + BUFSIZE < |whole| then index + BUFSIZE else |whole|]
    ensures index + |buf| <= |whole|
    ensures Buffers(whole[index..]) == [buf] + (if buf == "" then [] else Buffers(whole[index + |buf|..]))
  {
    var w := whole[index..];
    if |w| > BUFSIZE {
      assert w[BUFSIZE..] == whole[index + BUFSIZE..] && w[..BUFSIZE] == buf;
    } else if |w| > 0 {
      assert w == buf && whole[index + |buf|..] == "";
    }
  }

  // ----- what the client is given

  /** The buffers are the response in order, none longer than 1024 bytes, and exactly the last is empty. */
  lemma {:induction false} BuffersAreContent(content: string)
    ensures var bs := Buffers(content);
            && Flatten(bs) == content
            && (forall i :: 0 <= i < |bs| ==> |bs[i]| <= 1024 && (bs[i] == "" <==> i == |bs| - 1))
    decreases |content|
  {
    var bs := Buffers(content);
    if |content| > BUFSIZE {
      BuffersAreContent(content[BUFSIZE..]);
      assert bs[1..] == Buffers(content[BUFSIZE..]);
      ShiftedItems(bs);
    } else if |content| > 0 {
      assert bs[1..] == [""] && Flatten([""]) == "";
    } else {
      assert Flatten(bs) == "";
    }
  }

  // ----- the header announces the body

  lemma {:induction false} NumberReads(t: string, i: nat, n: nat)
    requires i + |Decimal(n)| <= |t| && t[i..i + |Decimal(n)|] == Decimal(n)
    ensures Number(t, i, 0) == Number(t, i + |Decimal(n)|, n)
    decreases n
  {
    hide Digit;
    var s := Decimal(n);
    var m := |s| - 1;
    SliceSplits(t, i, s, m);
    if n < 10 {
      NumberTakesDigit(t, i, 0);
    } else {
      assert s[..m] == Decimal(n / 10) && s[m] == Digit(n % 10);
      NumberReads(t, i, n / 10);
      NumberTakesDigit(t, i + m, n / 10);
    }
  }

  lemma SliceSplits(t: string, i: nat, s: string, m: nat)
    requires i + |s| <= |t| && t[i..i + |s|] == s && m < |s|
    ensures t[i..i + m] == s[..m] && t[i + m] == s[m]
  {
    assert t[i..i + |s|][m] == t[i + m];
    assert t[i..i + |s|][..m] == t[i..i + m];
  }

  lemma NumberTakesDigit(t: string, i: nat, v: nat)
    requires i < |t| && '0' <= t[i] <= '9'
    ensures Number(t, i, v) == Number(t, i + 1, 10 * v + ((t[i] - '0') as int))
  {
  }

  /** Without a colon in front of it, the announcement is the first one of the text. */
  lemma FirstAnnouncement(p: string, q: string)
    requires ':' !in p
    ensures FindFrom(p + "Content-Length: " + q, CONTENT_LENGTH, 0) == Some(|p|)
  {
    var line := "Content-Length: ";
    var t := p + line + q;
    forall k | 0 <= k < 15 ensures t[|p| + k] == line[k] {
    }
    forall j: nat | j < |p| ensures !OccursAt(t, CONTENT_LENGTH, j) {
      if j + 14 < |p| { assert t[j + 14] == p[j + 14]; } else { assert t[j + 14] == line[j + 14 - |p|]; }
      assert Lower(t[j + 14]) != CONTENT_LENGTH[14];
    }
    assert OccursAt(t, CONTENT_LENGTH, |p|);
  }

  lemma SkipNothing(t: string, blanks: string, i: nat)
    requires i < |t| && '0' <= t[i] <= '9' && forall c :: c in blanks ==> !('0' <= c <= '9')
    ensures Skip(t, blanks, i) == i
  {
  }

  lemma AnnouncedNumber(t: string, i: nat, n: nat, d: nat)
    requires d == i + 1 && d + |Decimal(n)| < |t|
    requires t[i] == ' ' && t[d..d + |Decimal(n)|] == Decimal(n) && t[d + |Decimal(n)|] == CRLF[0]
    ensures Number(t, Skip(t, " \t\U{000B}\U{000C}", Skip(t, " ", i)), 0) == n
  {
    hide Decimal;
    assert Decimal(n)[0] in Decimal(n);
    assert t[d] == t[d..d + |Decimal(n)|][0];
    SkipNothing(t, " ", d);
    SkipNothing(t, " \t\U{000B}\U{000C}", d);
    assert t[i] in " ";
    NumberReads(t, d, n);
  }

  /** A reader that takes the first Content-Length of the text finds the length of the body, whatever
      the other header lines and the body say. */
  lemma HeaderAnnouncesBody(f: Fields, n: nat, u: string)
    requires ':' !in f.code
    ensures ContentLength(Header(f, n) + u) == n
  {
    hide Rest, Decimal, ContentLength, StatusLine;
    var p, q := StatusLine(f), Rest(f) + u;
    assert Header(f, n) + u == p + "Content-Length: " + (Decimal(n) + q);
    StatusLineHasNoColon(f);
    RestStarts(f, u);
    AnnouncementReads(p, n, q);
  }

  lemma AnnouncementReads(p: string, n: nat, q: string)
    requires ':' !in p && q != "" && q[0] == CRLF[0]
    ensures ContentLength(p + "Content-Length: " + (Decimal(n) + q)) == n
  {
    hide Decimal, OccursAt, Skip, Number, FindFrom;
    var line := "Content-Length: ";
    var t := p + line + (Decimal(n) + q);
    FirstAnnouncement(p, Decimal(n) + q);
    var d := |p + line|;
    assert t[d..] == Decimal(n) + q;
    assert t[d..d + |Decimal(n)|] == Decimal(n);
    assert t[d + |Decimal(n)|] == q[0];
    assert t[d - 1] == line[15];
    AnnouncedNumber(t, d - 1, n, d);
  }

  lemma StatusLineHasNoColon(f: Fields)
    requires ':' !in f.code
    ensures ':' !in StatusLine(f)
  {
  }

  lemma RestStarts(f: Fields, u: string)
    ensures Rest(f) + u != "" && (Rest(f) + u)[0] == CRLF[0]
  {
  }

  // ----- room in the ring, and what follows the empty buffer

  ghost predicate AllAccepted(tx: Tx<char>, bs: seq<string>)
    requires TxOk(tx)
    decreases |bs|
  {
    bs == [] || (Enqueue(MAX_INTERNAL_TX_COUNT, tx, bs[0]).1
                 && (EnqueueAppends(MAX_INTERNAL_TX_COUNT, tx, bs[0]);
                     AllAccepted(Enqueue(MAX_INTERNAL_TX_COUNT, tx, bs[0]).0, bs[1..])))
  }

  /** Every buffer is accepted exactly when they all fit into the ring, and then they are pending in
      order behind what was pending before. */
  lemma {:induction false} AcceptedExactlyWhenRoom(tx: Tx<char>, bs: seq<string>)
    requires TxOk(tx) && |tx.queue| < 4000
    ensures AllAccepted(tx, bs) <==> |tx.queue| + |bs| < 4000
    ensures AllAccepted(tx, bs) ==> Parts(EnqueueAll(tx, bs)) == Parts(tx) + bs
    decreases |bs|
  {
    if bs != [] {
      EnqueueAppends(MAX_INTERNAL_TX_COUNT, tx, bs[0]);
      var (tx1, ok) := Enqueue(MAX_INTERNAL_TX_COUNT, tx, bs[0]);
      if ok {
        AcceptedExactlyWhenRoom(tx1, bs[1..]);
        assert Parts(tx1) == Parts(tx) + [bs[0]];
        assert [bs[0]] + bs[1..] == bs;
        Regroup(Parts(tx), [bs[0]], bs[1..]);
      }
    }
  }

  /** A response queued on an idle connection reaches the socket in full, and nothing queued behind it
      ever does, because the response ends with an empty buffer. */
  lemma OnlyFirstResponseIsSent(content: string, later: seq<string>)
    requires |Buffers(content)| + |later| < MAX_INTERNAL_TX_COUNT
    ensures var tx := EnqueueAll(Tx(None, []), Buffers(content) + later);
            Reachable(Parts(tx)) == content && Pending(tx) == content + Flatten(later)
  {
    var bs := Buffers(content);
    AcceptedExactlyWhenRoom(Tx(None, []), bs + later);
    assert Parts(EnqueueAll(Tx(None, []), bs + later)) == bs + later;
    BuffersAreContent(content);
    FlattenConcat(bs, later);
    assert bs[|bs| - 1] == "";
    ReachableStops(bs, later);
    assert NoDataBehindEmpty(bs);
    ReachableIsAll(bs);
  }

  /** The same over every run: once a response is queued on an idle connection, whatever is queued and
      written afterwards, the bytes sent and those still in reach make up that response and no more, as
      long as the ring does not overflow. */
  lemma NothingPassesResponse(content: string, ops: seq<SendQueue.Op<char>>)
    requires |Buffers(content)| < MAX_INTERNAL_TX_COUNT
    ensures var tx := EnqueueAll(Tx(None, []), Buffers(content));
            var r := Turns(MAX_INTERNAL_TX_COUNT, Log(tx, content, "", false), ops);
            !r.overflowed ==> r.sent + Reachable(Parts(r.tx)) == content && r.sent <= content
  {
    var l := Log(EnqueueAll(Tx(None, []), Buffers(content)), content, "", false);
    AcceptedExactlyWhenRoom(Tx(None, []), Buffers(content));
    assert Parts(l.tx) == Buffers(content);
    OnlyFirstResponseIsSent(content, []);
    assert Buffers(content) + [] == Buffers(content);
    BuffersAreContent(content);
    assert Buffers(content)[|Buffers(content)| - 1] == "";
    if !Turns(MAX_INTERNAL_TX_COUNT, l, ops).overflowed { BlockedRun(MAX_INTERNAL_TX_COUNT, l, ops); }
  }
}
