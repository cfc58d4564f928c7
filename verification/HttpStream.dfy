/** The receive loop of webserver/TcpClient.cpp over the strategy of HttpFraming, as functions of the
    bytes received, and what it does to a whole stream however the network cuts it. */
module HttpStream {
  import opened Common
  import opened HttpFraming

  /** What the client has accumulated, the messages handed to the observer so far, and the framing
      error that made the client fail, if any. */
  datatype Rx = Rx(acc: string, delivered: seq<string>, error: Option<int>)

  const START := Rx("", [], None)

  function Receive(rx: Rx, data: string): (r: Rx)
    requires Partial(rx.acc)
    ensures Partial(r.acc)
    ensures rx.delivered <= r.delivered
    ensures rx.error.Some? ==> r == rx
    decreases |data|
  {
    if rx.error.Some? || data == "" then rx
    else
      CompleteTakesSome(rx.acc, data);
      match Frame(rx.acc, data)
      case Fail(code) => rx.(acc := "", error := Some(code))
      case More => rx.(acc := rx.acc + data)
      case Complete(n) =>
        Receive(rx.(acc := "", delivered := rx.delivered + [(rx.acc + data)[..|rx.acc| + n]]), data[n..])
  }

  /** The stream arrives in chunks. */
  function Feed(rx: Rx, chunks: seq<string>): (r: Rx)
    requires Partial(rx.acc)
    ensures Partial(r.acc)
    ensures rx.delivered <= r.delivered
    ensures rx.error.Some? ==> r == rx
    decreases |chunks|
  {
    if chunks == [] then rx else Feed(Receive(rx, chunks[0]), chunks[1..])
  }

  // ----- streams of requests

  /** A request is a header, up to and including the first blank line, and a body. */
  predicate Framed(r: string) { EndOfHeader(Text(r)).Some? }

  function HeaderSize(r: string): (n: nat)
    requires Framed(r)
    ensures 0 < n <= |r|
  {
    EndOfHeader(Text(r)).value + |CRLF_CRLF|
  }

  /** r is the next request and `stream` everything from its first byte on: the header is not too
      long, it announces exactly the body, and the rest of the stream does not read as another
      announcement or as a chunked transfer-encoding. */
  predicate HeadClean(r: string, stream: string)
    requires Framed(r)
  {
    && HeaderSize(r) <= MAX_PENDING + 1
    && ContentLength(r[..HeaderSize(r)]) == |r| - HeaderSize(r)
    && ContentLength(Text(stream)) == |r| - HeaderSize(r)
    && !HasChunked(Text(stream))
  }

  predicate CleanStream(rs: seq<string>)
    requires forall r :: r in rs ==> Framed(r)
  {
    rs == [] || (HeadClean(rs[0], Flatten(rs)) && CleanStream(rs[1..]))
  }

  lemma HeaderIsText(r: string, whole: string)
    requires Framed(r) && r[..HeaderSize(r)] <= whole
    ensures r[..HeaderSize(r)] <= Text(whole)
    ensures Text(r[..HeaderSize(r)]) == r[..HeaderSize(r)]
    ensures EndOfHeader(Text(whole)) == EndOfHeader(Text(r)) == EndOfHeader(r[..HeaderSize(r)])
  {
    var h := r[..HeaderSize(r)];
    TextGrows(h, r);
    TextGrows(h, whole);
    FindGrows(h, Text(r), CRLF_CRLF, 0);
    FindGrows(h, Text(whole), CRLF_CRLF, 0);
  }

  /** One call of the strategy on part of a clean stream: it waits until the next request is whole
      and then completes exactly that request. */
  lemma CallOnClean(r: string, stream: string, acc: string, data: string)
    requires Framed(r) && r <= stream && HeadClean(r, stream)
    requires |acc| < |r| && acc + data <= stream
    ensures Frame(acc, data) == if |acc + data| < |r| then More else Complete(|r| - |acc|)
  {
    hide Text, FindFrom, ContentLength, HasChunked;
    var whole, h := acc + data, r[..HeaderSize(r)];
    var e := EndOfHeader(Text(r)).value;
    HeaderIsText(r, stream);
    TextGrows(whole, stream);
    if |whole| < HeaderSize(r) {
      FindGrows(Text(whole), Text(stream), CRLF_CRLF, 0);
    } else {
      assert h <= whole;
      HeaderIsText(r, whole);
      ContentLengthGrows(h, Text(whole));
      ContentLengthGrows(Text(whole), Text(stream));
      ChunkedGrows(Text(whole), Text(stream));
    }
  }

  lemma FlattenHead(rs: seq<string>)
    requires rs != []
    ensures Flatten(rs) == rs[0] + Flatten(rs[1..]) && rs[0] <= Flatten(rs)
  {
  }

  lemma NothingIsPartial()
    ensures Partial("")
  {
  }

  /** acc is a received part, but not all, of the next request. */
  predicate Waiting(rs: seq<string>, acc: string) {
    acc == "" || (rs != [] && |acc| < |rs[0]|)
  }

  /** One turn of the receive loop on part of a clean stream. */
  lemma TurnOnClean(r: string, later: string, rx: Rx, data: string)
    requires Framed(r) && HeadClean(r, r + later) && data != ""
    requires Partial(rx.acc) && rx.error.None? && |rx.acc| < |r|
    requires rx.acc + data <= r + later
    ensures Partial("")
    ensures var n := |r| - |rx.acc|;
            if |data| < n then Receive(rx, data) == rx.(acc := rx.acc + data)
            else && rx.acc + data == r + data[n..] && data[n..] <= later
                 && Receive(rx, data) == Receive(Rx("", rx.delivered + [r], None), data[n..])
  {
    hide Frame, HeadClean, Text, HasChunked, Partial, Framed;
    NothingIsPartial();
    CallOnClean(r, r + later, rx.acc, data);
    var n := |r| - |rx.acc|;
    if |data| >= n {
      assert (rx.acc + data)[..|r|] == r;
      assert (rx.acc + data)[|r|..] == data[n..];
      assert (r + later)[|r|..] == later;
    }
  }

  /** The receive loop on the next piece of a clean stream: it delivers the first k requests, those
      that are now whole, and keeps the received part of the next one. */
  lemma {:induction false} ReceiveOnClean(rs: seq<string>, rx: Rx, data: string) returns (k: nat)
    requires (forall r :: r in rs ==> Framed(r)) && CleanStream(rs)
    requires Partial(rx.acc) && rx.error.None?
    requires Waiting(rs, rx.acc)
    requires rx.acc + data <= Flatten(rs)
    ensures k <= |rs|
    ensures var rx' := Receive(rx, data);
            && rx'.delivered == rx.delivered + rs[..k] && rx'.error.None?
            && rx.acc + data == Flatten(rs[..k]) + rx'.acc
            && Waiting(rs[k..], rx'.acc) && CleanStream(rs[k..])
    decreases |data|
  {
    hide Frame, HeadClean, Framed, HeaderSize, Partial, Receive;
    k := 0;
    assert rs[0..] == rs;
    if data == "" {
      ReceiveNothing(rx);
    } else {
      assert 0 < HeaderSize(rs[0]) <= |rs[0]|;
      FlattenHead(rs);
      TurnOnClean(rs[0], Flatten(rs[1..]), rx, data);
      var n := |rs[0]| - |rx.acc|;
      if |data| >= n {
        var rest := rs[1..];
        var k1 := ReceiveOnClean(rest, Rx("", rx.delivered + [rs[0]], None), data[n..]);
        k := k1 + 1;
        FirstAndRest(rs, k1);
        Regroup(rx.delivered, [rs[0]], rest[..k1]);
        Regroup(rs[0], Flatten(rest[..k1]), Receive(rx, data).acc);
      }
    }
  }

  lemma HeaderInside(r: string)
    requires Framed(r)
    ensures |r| > 0
  {
    assert HeaderSize(r) <= |r|;
  }

  lemma ReceiveNothing(rx: Rx)
    requires Partial(rx.acc)
    ensures Receive(rx, "") == rx
  {
  }

  lemma FirstAndRest(rs: seq<string>, k: nat)
    requires k < |rs|
    ensures rs[..k + 1] == [rs[0]] + rs[1..][..k] && rs[k + 1..] == rs[1..][k..]
    ensures Flatten(rs[..k + 1]) == rs[0] + Flatten(rs[1..][..k])
  {
    assert rs[..k + 1][1..] == rs[1..][..k];
  }

  lemma {:induction false} FeedClean(rs: seq<string>, rx: Rx, chunks: seq<string>)
    requires (forall r :: r in rs ==> Framed(r)) && CleanStream(rs)
    requires Partial(rx.acc) && rx.error.None?
    requires Waiting(rs, rx.acc)
    requires rx.acc + Flatten(chunks) == Flatten(rs)
    ensures Feed(rx, chunks) == Rx("", rx.delivered + rs, None)
    decreases |chunks|
  {
    hide HasChunked, Text, OccursAt, Frame, Receive, HeadClean, EndOfHeader;
    if chunks == [] {
      if rs != [] {
        HeaderInside(rs[0]);
        FlattenHead(rs);
      }
    } else {
      var data, rest := chunks[0], chunks[1..];
      Regroup(rx.acc, data, Flatten(rest));
      var k := ReceiveOnClean(rs, rx, data);
      var rx1 := Receive(rx, data);
      FlattenSplit(rs, k);
      Regroup(Flatten(rs[..k]), rx1.acc, Flatten(rest));
      CancelPrefix(Flatten(rs[..k]), rx1.acc + Flatten(rest), Flatten(rs[k..]));
      FeedClean(rs[k..], rx1, rest);
      Regroup(rx.delivered, rs[..k], rs[k..]);
      assert rs[..k] + rs[k..] == rs;
    }
  }

  // ----- the condition is necessary

  lemma {:induction false} SkipStops(t: string, u: string, blanks: string, i: nat, stop: nat)
    requires t <= u && i <= stop < |t| && t[stop] !in blanks
    ensures Skip(t, blanks, i) == Skip(u, blanks, i) <= stop
    decreases |t| - i
  {
    if t[i] in blanks { SkipStops(t, u, blanks, i + 1, stop); }
  }

  lemma {:induction false} NumberStops(t: string, u: string, i: nat, v: nat, stop: nat)
    requires t <= u && i <= stop < |t| && t[stop] == '\r'
    ensures Number(t, i, v) == Number(u, i, v)
    decreases |t| - i
  {
    if '0' <= t[i] <= '9' { NumberStops(t, u, i + 1, 10 * v + ((t[i] - '0') as int), stop); }
  }

  /** An announcement inside the header is read the same whatever follows the header. */
  lemma HeaderDecides(r: string, text: string)
    requires Framed(r) && r[..HeaderSize(r)] <= text
    ensures var h := r[..HeaderSize(r)];
            && (FindFrom(h, CONTENT_LENGTH, 0).Some? ==> ContentLength(text) == ContentLength(h))
            && (ContentLength(h) > 0 ==> FindFrom(h, CONTENT_LENGTH, 0).Some?)
  {
    hide HasChunked, Text, OccursAt;
    var h, e := r[..HeaderSize(r)], EndOfHeader(Text(r)).value;
    HeaderIsText(r, r);
    LineEnd(h, e);
    FindGrows(h, text, CONTENT_LENGTH, 0);
    match FindFrom(h, CONTENT_LENGTH, 0)
    case None =>
    case Some(i) =>
      BeforeLineEnd(h, i, e);
      var a := i + |CONTENT_LENGTH|;
      SkipStops(h, text, " ", a, e);
      SkipStops(h, text, " \t\U{000B}\U{000C}", Skip(h, " ", a), e);
      NumberStops(h, text, Skip(h, " \t\U{000B}\U{000C}", Skip(h, " ", a)), 0, e);
  }

  lemma LineEnd(t: string, e: nat)
    requires OccursAt(t, CRLF_CRLF, e)
    ensures t[e] == '\r'
  {
    assert Lower(t[e + 0]) == CRLF_CRLF[0];
  }

  lemma NoLineEnd(t: string, i: nat, k: nat)
    requires OccursAt(t, CONTENT_LENGTH, i) && k < |CONTENT_LENGTH|
    ensures t[i + k] != '\r'
  {
    assert Lower(t[i + k]) == CONTENT_LENGTH[k];
  }

  lemma BeforeLineEnd(t: string, i: nat, e: nat)
    requires OccursAt(t, CONTENT_LENGTH, i) && e + 4 == |t| && t[e] == '\r'
    ensures i + |CONTENT_LENGTH| <= e
  {
    if e < i + |CONTENT_LENGTH| { NoLineEnd(t, i, e - i); }
  }

  /** Every cutting of the stream into chunks delivers the requests rs and nothing else. */
  ghost predicate AllCuttingsDeliver(rs: seq<string>, delivered: seq<string>) {
    forall chunks {:trigger Flatten(chunks)} | Flatten(chunks) == Flatten(rs) ::
      Feed(Rx("", delivered, None), chunks) == Rx("", delivered + rs, None)
  }

  lemma FeedOne(rx: Rx, a: string)
    requires Partial(rx.acc)
    ensures Flatten([a]) == a && Feed(rx, [a]) == Receive(rx, a)
  {
    assert [a][1..] == [];
    assert Feed(Receive(rx, a), []) == Receive(rx, a);
  }

  lemma FeedTwo(rx: Rx, a: string, b: string)
    requires Partial(rx.acc)
    ensures Flatten([a, b]) == a + b && Feed(rx, [a, b]) == Receive(Receive(rx, a), b)
  {
    assert [a, b][1..] == [b];
    FeedOne(Receive(rx, a), b);
  }

  /** Delivering the whole stream uncut takes away all but two of the conditions. */
  lemma UncutTells(rs: seq<string>, delivered: seq<string>)
    requires rs != [] && (forall r :: r in rs ==> Framed(r)) && AllCuttingsDeliver(rs, delivered)
    ensures !HasChunked(Text(Flatten(rs)))
    ensures ContentLength(Text(Flatten(rs))) == |rs[0]| - HeaderSize(rs[0])
  {
    hide HasChunked, Text, OccursAt;
    var s, rx, goal := Flatten(rs), Rx("", delivered, None), Rx("", delivered + rs, None);
    FlattenHead(rs);
    HeaderIsText(rs[0], s);
    assert "" + s == s;
    FeedOne(rx, s);
    assert Receive(rx, s) == goal;
    var total := HeaderSize(rs[0]) + ContentLength(Text(s));
    assert Frame("", s) == Complete(total);
    FirstIs(rs, delivered, s, total);
  }

  /** A message completed first on the way to delivering rs is the first request. */
  lemma FirstIs(rs: seq<string>, delivered: seq<string>, data: string, n: nat)
    requires rs != [] && n <= |data|
    requires Frame("", data) == Complete(n)
    requires Receive(Rx("", delivered, None), data).delivered <= delivered + rs
    ensures data[..n] == rs[0]
  {
    hide Frame, Partial;
    var rx1 := Rx("", delivered + [data[..n]], None);
    NothingIsPartial();
    CompleteTakesSome("", data);
    assert "" + data == data;
    assert Receive(Rx("", delivered, None), data) == Receive(rx1, data[n..]);
    assert rx1.delivered <= delivered + rs;
    assert rx1.delivered[|delivered|] == (delivered + rs)[|delivered|];
  }

  lemma HeaderFits(rs: seq<string>, delivered: seq<string>)
    requires rs != [] && (forall r :: r in rs ==> Framed(r)) && AllCuttingsDeliver(rs, delivered)
    ensures HeaderSize(rs[0]) <= MAX_PENDING + 1
  {
    hide HasChunked, Text, OccursAt;
    var s, rx, n := Flatten(rs), Rx("", delivered, None), HeaderSize(rs[0]);
    FlattenHead(rs);
    HeaderIsText(rs[0], s);
    var a, b := s[..n - 1], s[n - 1..];
    assert a + b == s && "" + a == a;
    FeedTwo(rx, a, b);
    HeaderCutShort(rs[0], s);
  }

  lemma HeaderCutShort(r: string, s: string)
    requires Framed(r) && r <= s
    ensures EndOfHeader(Text(s[..HeaderSize(r) - 1])).None?
  {
    hide HasChunked;
    var a := s[..HeaderSize(r) - 1];
    HeaderIsText(r, s);
    TextGrows(a, s);
    FindGrows(Text(a), Text(s), CRLF_CRLF, 0);
  }

  lemma HeaderAnnounces(rs: seq<string>, delivered: seq<string>)
    requires rs != [] && (forall r :: r in rs ==> Framed(r)) && AllCuttingsDeliver(rs, delivered)
    ensures ContentLength(rs[0][..HeaderSize(rs[0])]) == |rs[0]| - HeaderSize(rs[0])
  {
    hide HasChunked, Text, OccursAt, ContentLength, EndOfHeader, Receive, Feed, Partial, Frame, Framed, HeaderSize;
    NothingIsPartial();
    var r, s, rx, n := rs[0], Flatten(rs), Rx("", delivered, None), HeaderSize(rs[0]);
    var h := r[..n];
    FlattenHead(rs);
    UncutTells(rs, delivered);
    HeaderIsText(r, s);
    HeaderDecides(r, Text(s));
    if ContentLength(h) == 0 {
      var b := s[n..];
      assert h + b == s && "" + h == h;
      FeedTwo(rx, h, b);
      HeaderIsText(r, h);
      ChunkedGrows(h, Text(s));
      HeaderAlone(r);
      FirstIs(rs, delivered, h, n);
    }
  }

  /** A header that announces nothing is a message. */
  lemma HeaderAlone(r: string)
    requires Framed(r)
    requires var h := r[..HeaderSize(r)]; ContentLength(h) == 0 && !HasChunked(h)
    ensures Frame("", r[..HeaderSize(r)]) == Complete(HeaderSize(r))
  {
    hide HasChunked, Text, ContentLength, FindFrom;
    var h := r[..HeaderSize(r)];
    HeaderIsText(r, h);
    assert "" + h == h;
  }

  /** If every cutting delivers, the next request is clean: uncut, cut inside the last line end of
      the header, and cut right after the header are the three cuttings that tell. */
  lemma HeadIsClean(rs: seq<string>, delivered: seq<string>)
    requires rs != [] && (forall r :: r in rs ==> Framed(r)) && AllCuttingsDeliver(rs, delivered)
    ensures HeadClean(rs[0], Flatten(rs))
  {
    UncutTells(rs, delivered);
    HeaderFits(rs, delivered);
    HeaderAnnounces(rs, delivered);
  }

  lemma {:induction false} CleanIsNecessary(rs: seq<string>, delivered: seq<string>)
    requires (forall r :: r in rs ==> Framed(r)) && AllCuttingsDeliver(rs, delivered)
    ensures CleanStream(rs)
    decreases |rs|
  {
    hide Receive, Frame, HeadClean, Framed, Feed, Partial;
    NothingIsPartial();
    if rs != [] {
      var r, s, rx := rs[0], Flatten(rs), Rx("", delivered, None);
      HeadIsClean(rs, delivered);
      FlattenHead(rs);
      forall chunks | Flatten(chunks) == Flatten(rs[1..])
        ensures Feed(Rx("", delivered + [r], None), chunks) == Rx("", delivered + [r] + rs[1..], None)
      {
        ReceiveFirst(r, s, delivered);
        FeedFirst(rx, r, chunks);
        assert Flatten([r] + chunks) == Flatten(rs);
        assert delivered + rs == delivered + [r] + rs[1..];
      }
      CleanIsNecessary(rs[1..], delivered + [r]);
    }
  }

  lemma ReceiveFirst(r: string, stream: string, delivered: seq<string>)
    requires Framed(r) && r <= stream && HeadClean(r, stream)
    ensures Partial("") && Receive(Rx("", delivered, None), r) == Rx("", delivered + [r], None)
  {
    hide Frame, HeadClean, Partial, Receive, Framed;
    NothingIsPartial();
    HeaderInside(r);
    var later := stream[|r|..];
    assert stream == r + later && "" + r == r && r[|r|..] == "";
    TurnOnClean(r, later, Rx("", delivered, None), r);
    ReceiveNothing(Rx("", delivered + [r], None));
  }

  lemma FeedFirst(rx: Rx, data: string, chunks: seq<string>)
    requires Partial(rx.acc)
    ensures Feed(rx, [data] + chunks) == Feed(Receive(rx, data), chunks)
    ensures Flatten([data] + chunks) == data + Flatten(chunks)
  {
    hide Receive, Partial;
    assert ([data] + chunks)[1..] == chunks;
  }

  /** Chunk independence, with its exact condition: every cutting of the stream delivers exactly the
      requests, in order and each ending at header end plus Content-Length, if and only if the stream
      is clean. */
  lemma ChunkIndependence(rs: seq<string>)
    requires forall r :: r in rs ==> Framed(r)
    ensures AllCuttingsDeliver(rs, []) <==> CleanStream(rs)
  {
    if CleanStream(rs) {
      forall chunks | Flatten(chunks) == Flatten(rs)
        ensures Feed(START, chunks) == Rx("", [] + rs, None)
      {
        FeedClean(rs, START, chunks);
      }
    }
    if AllCuttingsDeliver(rs, []) { CleanIsNecessary(rs, []); }
  }

  // ----- a condition a client can check

  /** The header is not too long and has a Content-Length line that announces the body. */
  predicate Announced(r: string)
    requires Framed(r)
  {
    var h := r[..HeaderSize(r)];
    && HeaderSize(r) <= MAX_PENDING + 1
    && FindFrom(h, CONTENT_LENGTH, 0).Some? && ContentLength(h) == |r| - HeaderSize(r)
  }

  /** Requests that announce their bodies are clean when chunked coding is named nowhere in the stream. */
  lemma {:induction false} AnnouncedIsClean(rs: seq<string>)
    requires (forall r :: r in rs ==> Framed(r)) && (forall r :: r in rs ==> Announced(r))
    requires !HasChunked(Flatten(rs))
    ensures CleanStream(rs)
  {
    hide HasChunked, Text, FindFrom, OccursAt, ContentLength, Framed, HeaderSize, Announced, HeadClean;
    if rs != [] {
      var r, s := rs[0], Flatten(rs);
      FlattenHead(rs);
      ChunkedInside([], Text(s), s[|Text(s)|..]);
      assert [] + Text(s) + s[|Text(s)|..] == s;
      AnnouncedHead(r, s);
      ChunkedInside(r, Flatten(rs[1..]), []);
      assert r + Flatten(rs[1..]) + [] == s;
      AnnouncedIsClean(rs[1..]);
    }
  }

  lemma AnnouncedHead(r: string, stream: string)
    requires Framed(r) && Announced(r) && r <= stream && !HasChunked(Text(stream))
    ensures HeadClean(r, stream)
  {
    hide HasChunked, Text, FindFrom, OccursAt, ContentLength;
    HeaderIsText(r, stream);
    HeaderDecides(r, Text(stream));
  }

  /** A text that names chunked coding is found inside any longer one. */
  lemma ChunkedInside(before: string, t: string, behind: string)
    ensures HasChunked(t) ==> HasChunked(before + t + behind)
  {
    hide ChunkedAt;
    if HasChunked(t) {
      var u := t + behind;
      ChunkedGrows(t, u);
      var k :| 0 <= k < |u| && ChunkedAt(u, k);
      assert before + u == before + t + behind;
      ChunkedAtBehind(before, u, k);
      assert 0 <= |before| + k < |before + u|;
    }
  }

  lemma ChunkedAtBehind(before: string, t: string, k: nat)
    requires k < |t| && ChunkedAt(t, k)
    ensures ChunkedAt(before + t, |before| + k)
  {
    hide OccursAt, Skip;
    AtMost(t, TRANSFER_ENCODING, k);
    OccursBehind(before, t, TRANSFER_ENCODING, k);
    var j := k + |TRANSFER_ENCODING|;
    SkipBehind(before, t, " ", j);
    OccursBehind(before, t, "chunked", Skip(t, " ", j));
  }

  lemma AtMost(t: string, pat: string, i: nat)
    requires OccursAt(t, pat, i)
    ensures i + |pat| <= |t|
  {
  }

  lemma OccursBehind(before: string, t: string, pat: string, i: nat)
    requires OccursAt(t, pat, i)
    ensures OccursAt(before + t, pat, |before| + i)
  {
  }

  lemma {:induction false} SkipBehind(before: string, t: string, blanks: string, i: nat)
    requires i <= |t|
    ensures Skip(before + t, blanks, |before| + i) == |before| + Skip(t, blanks, i)
    decreases |t| - i
  {
    if i < |t| && t[i] in blanks { SkipBehind(before, t, blanks, i + 1); }
  }
}
