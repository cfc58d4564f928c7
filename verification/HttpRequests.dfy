/** Which texts the framing of webserver/HTTPFramingStrategy.cpp refuses, and which requests it takes, in
    the words of a sender. */
module HttpRequests {
  import opened Common
  import opened HttpFraming
  import opened HttpStream
  import opened HttpResponse
  import opened HttpHeader

  /** s is the lower-case text pat with any of its letters written as capitals. */
  predicate AnyCase(s: string, pat: string) {
    && |s| == |pat|
    && forall k :: 0 <= k < |pat| ==> s[k] == pat[k] || ('a' <= pat[k] <= 'z' && s[k] == pat[k] - 'a' + 'A')
  }

  predicate Uncapital(pat: string) { forall c :: c in pat ==> !('A' <= c <= 'Z') }

  lemma OccursExactly(t: string, pat: string, i: nat)
    requires i + |pat| <= |t| && Uncapital(pat)
    ensures OccursAt(t, pat, i) <==> AnyCase(t[i..i + |pat|], pat)
  {
    var s := t[i..i + |pat|];
    forall k | 0 <= k < |pat|
      ensures Lower(t[i + k]) == pat[k]
              <==> s[k] == pat[k] || ('a' <= pat[k] <= 'z' && s[k] == pat[k] - 'a' + 'A')
    {
      assert s[k] == t[i + k] && pat[k] in pat;
    }
  }

  predicate AllBlank(s: string) { forall c :: c in s ==> c == ' ' }

  /** The name of the header line, blanks, and the coding. */
  predicate ChunkedText(t: string, i: nat, j: nat) {
    && i + 18 <= j <= |t| - 7
    && AnyCase(t[i..i + 18], "transfer-encoding:") && AllBlank(t[i + 18..j]) && AnyCase(t[j..j + 7], "chunked")
  }

  lemma NamesAreUncapital()
    ensures |TRANSFER_ENCODING| == 18 && TRANSFER_ENCODING == "transfer-encoding:"
    ensures Uncapital("transfer-encoding:") && Uncapital("chunked") && |"chunked"| == 7
  {
  }

  lemma {:induction false} SkipsBlanks(t: string, i: nat)
    requires i <= |t|
    ensures AllBlank(t[i..Skip(t, " ", i)])
    decreases |t| - i
  {
    if i < |t| && t[i] in " " {
      SkipsBlanks(t, i + 1);
      assert t[i..Skip(t, " ", i)] == [t[i]] + t[i + 1..Skip(t, " ", i)];
    }
  }

  lemma {:induction false} SkipEnds(t: string, i: nat, j: nat)
    requires i <= j < |t| && AllBlank(t[i..j]) && t[j] != ' '
    ensures Skip(t, " ", i) == j
    decreases j - i
  {
    if i < j {
      assert t[i] == t[i..j][0] && t[i + 1..j] == t[i..j][1..];
      assert t[i..j][0] in t[i..j];
      assert forall c :: c in t[i..j][1..] ==> c in t[i..j];
      SkipEnds(t, i + 1, j);
    }
  }

  lemma ChunkedExactly(t: string)
    ensures HasChunked(t) <==> exists i: nat, j: nat :: ChunkedText(t, i, j)
  {
    hide OccursAt, Skip, AnyCase, AllBlank;
    NamesAreUncapital();
    if HasChunked(t) {
      var i :| 0 <= i < |t| && ChunkedAt(t, i);
      AtMost(t, TRANSFER_ENCODING, i);
      var j := Skip(t, " ", i + 18);
      AtMost(t, "chunked", j);
      OccursExactly(t, "transfer-encoding:", i);
      OccursExactly(t, "chunked", j);
      SkipsBlanks(t, i + 18);
      assert ChunkedText(t, i, j);
    }
    if i: nat, j: nat :| ChunkedText(t, i, j) {
      OccursExactly(t, "transfer-encoding:", i);
      OccursExactly(t, "chunked", j);
      CodingIsNoBlank(t, j);
      SkipEnds(t, i + 18, j);
      assert ChunkedAt(t, i);
    }
  }

  lemma CodingIsNoBlank(t: string, j: nat)
    requires j + 7 <= |t| && AnyCase(t[j..j + 7], "chunked")
    ensures t[j] != ' '
  {
    assert t[j] == t[j..j + 7][0];
  }

  predicate BlankLine(t: string, i: nat) { i + 4 <= |t| && t[i..i + 4] == "\r\n\r\n" }

  lemma BlankLineExactly(t: string, i: nat)
    ensures OccursAt(t, CRLF_CRLF, i) <==> BlankLine(t, i)
  {
    if OccursAt(t, CRLF_CRLF, i) {
      forall k | 0 <= k < 4 ensures t[i + k] == CRLF_CRLF[k] { assert Lower(t[i + k]) == CRLF_CRLF[k]; }
      assert t[i..i + 4] == CRLF_CRLF;
    }
    if BlankLine(t, i) {
      forall k | 0 <= k < 4 ensures t[i + k] == CRLF_CRLF[k] { assert t[i..i + 4][k] == CRLF_CRLF[k]; }
    }
  }

  lemma EndOfHeaderExactly(t: string)
    ensures EndOfHeader(t).None? <==> forall i: nat :: !BlankLine(t, i)
  {
    hide OccursAt, BlankLine;
    match EndOfHeader(t)
    case None =>
      forall i: nat ensures !BlankLine(t, i) {
        BlankLineExactly(t, i);
        assert !OccursAt(t, CRLF_CRLF, i);
      }
    case Some(e) => BlankLineExactly(t, e);
  }

  /** Data is refused exactly when 2048 bytes are exceeded without a blank line among them, or when there is
      one and a Transfer-Encoding anywhere in the text names chunked. */
  lemma RefusedExactly(acc: string, data: string)
    ensures var text := Text(acc + data);
            && (Frame(acc, data) == Fail(-2) <==>
                |acc + data| > 2048 && forall i: nat :: !BlankLine(text, i))
            && (Frame(acc, data) == Fail(-3) <==>
                (exists i: nat :: BlankLine(text, i)) && exists i: nat, j: nat :: ChunkedText(text, i, j))
            && (Frame(acc, data).Fail? ==> Frame(acc, data).code in {-2, -3})
  {
    hide ChunkedText, BlankLine, Frame;
    ChunkedExactly(Text(acc + data));
    EndOfHeaderExactly(Text(acc + data));
    RefusedWhen(acc, data);
  }

  lemma RefusedWhen(acc: string, data: string)
    ensures var text := Text(acc + data);
            && (Frame(acc, data) == Fail(-2) <==> |acc + data| > 2048 && EndOfHeader(text).None?)
            && (Frame(acc, data) == Fail(-3) <==> EndOfHeader(text).Some? && HasChunked(text))
            && (Frame(acc, data).Fail? ==> Frame(acc, data).code in {-2, -3})
  {
    hide HasChunked, ContentLength, EndOfHeader, Text;
  }

  // ----- an ordinary request

  /** A request line, a line that announces the body, any other lines, and the body. */
  function Request(line: string, others: seq<string>, body: string): string {
    Joined([line, "Content-Length: " + Decimal(|body|)] + others) + CRLF + body
  }

  lemma RequestParts(line: string, others: seq<string>, body: string)
    ensures Request(line, others, body) == line + CRLF + "Content-Length: "
                                          + (Decimal(|body|) + (CRLF + (Joined(others) + (CRLF + body))))
    ensures Request(line, others, body) == Joined([line, "Content-Length: " + Decimal(|body|)] + others) + (CRLF + body)
    ensures Joined([line, "Content-Length: " + Decimal(|body|)] + others) + CRLF
            == line + CRLF + "Content-Length: " + (Decimal(|body|) + (CRLF + (Joined(others) + CRLF)))
  {
    hide Joined, Decimal;
    var second := "Content-Length: " + Decimal(|body|);
    JoinedConcat([line, second], others);
    JoinedTwo(line, second);
    RequestShape(line + CRLF, "Content-Length: ", Decimal(|body|), Joined(others), body);
  }

  lemma RequestShape(a: string, b: string, c: string, d: string, e: string)
    ensures a + ((b + c) + CRLF) + d + CRLF + e == a + b + (c + (CRLF + (d + (CRLF + e))))
    ensures a + ((b + c) + CRLF) + d + CRLF == a + b + (c + (CRLF + (d + CRLF)))
  {
  }

  /** A request whose lines are plain and whose first line has no colon is announced, unless its header is
      longer than 2049 bytes. */
  lemma RequestIsAnnounced(line: string, others: seq<string>, body: string)
    requires PlainLine(line) && ':' !in line && PlainLines(others)
    ensures var r := Request(line, others, body);
            && Framed(r) && HeaderSize(r) == |r| - |body|
            && (Announced(r) <==> |r| - |body| <= 2049)
  {
    hide Joined, Decimal, FindFrom, ContentLength, PlainLine, Text, OccursAt;
    var r, lines := Request(line, others, body), [line, "Content-Length: " + Decimal(|body|)] + others;
    RequestParts(line, others, body);
    LengthLineIsPlain(|body|);
    PlainTwo(line, "Content-Length: " + Decimal(|body|));
    PlainConcat([line, "Content-Length: " + Decimal(|body|)], others);
    JoinedHasNoNul(lines);
    var h := Joined(lines) + CRLF;
    assert r == h + body;
    TextBehind(h, body);
    assert h + Text(body) == Joined(lines) + (CRLF + Text(body));
    BlankLineFound(lines, Text(body));
    assert Framed(r) && HeaderSize(r) == |h| && r[..|h|] == h;
    AnnouncedIn(line + CRLF, |body|, Joined(others) + CRLF);
  }

  /** An ordinary request with a header of at most 2049 bytes. */
  predicate Ordinary(line: string, others: seq<string>, body: string) {
    && PlainLine(line) && ':' !in line && PlainLines(others)
    && |Request(line, others, body)| - |body| <= 2049
  }

  /** A stream of ordinary requests that names chunked coding nowhere is delivered however it is cut. */
  lemma OrdinaryAreDelivered(rs: seq<string>)
    requires forall r :: r in rs ==> exists line, others, body :: Ordinary(line, others, body)
                                                                  && r == Request(line, others, body)
    requires !exists i: nat, j: nat :: ChunkedText(Flatten(rs), i, j)
    ensures AllCuttingsDeliver(rs, [])
  {
    hide ChunkedText, HasChunked, Request, Framed, Announced, CleanStream, PlainLine, PlainLines;
    forall r | r in rs ensures Framed(r) && Announced(r) {
      var line, others, body :| Ordinary(line, others, body) && r == Request(line, others, body);
      RequestIsAnnounced(line, others, body);
    }
    ChunkedExactly(Flatten(rs));
    AnnouncedIsClean(rs);
    ChunkIndependence(rs);
  }

  lemma PlainTwo(a: string, b: string)
    requires PlainLine(a) && PlainLine(b)
    ensures PlainLines([a, b])
  {
    hide PlainLine;
  }

  lemma LengthLineIsPlain(n: nat)
    ensures PlainLine("Content-Length: " + Decimal(n))
  {
    hide Decimal;
    DecimalIsPlain(n);
    assert PlainText("Content-Length: ");
    PlainPair("Content-Length: ", Decimal(n));
  }

  lemma AnnouncedIn(p: string, n: nat, q: string)
    requires ':' !in p
    ensures var h := p + "Content-Length: " + (Decimal(n) + (CRLF + q));
            FindFrom(h, CONTENT_LENGTH, 0).Some? && ContentLength(h) == n
  {
    hide Decimal, ContentLength, FindFrom;
    FirstAnnouncement(p, Decimal(n) + (CRLF + q));
    AnnouncementReads(p, n, CRLF + q);
  }
}
