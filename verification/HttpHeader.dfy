/** What a client reads in the header that webserver/HTTPResponse.cpp builds. */
module HttpHeader {
  import opened Common
  import opened HttpFraming
  import opened HttpResponse

  // ----- lines

  /** The lines in front of the first blank one. */
  function HeaderLines(t: string): seq<string>
    decreases |t|
  {
    match FindFrom(t, "\r\n", 0)
    case None => []
    case Some(i) => if i == 0 then [] else [t[..i]] + HeaderLines(t[i + 2..])
  }

  function Joined(lines: seq<string>): string {
    if lines == [] then "" else lines[0] + CRLF + Joined(lines[1..])
  }

  predicate PlainLine(line: string) { line != "" && '\r' !in line && '\0' !in line }

  predicate PlainLines(lines: seq<string>) { forall i :: 0 <= i < |lines| ==> PlainLine(lines[i]) }

  /** Where the pattern does not start in the front part, it is searched behind it. */
  lemma FindBehind(front: string, t: string, pat: string)
    requires pat != "" && forall j: nat :: j < |front| ==> !OccursAt(front + t, pat, j)
    ensures FindFrom(front + t, pat, 0)
            == match FindFrom(t, pat, 0) case None => None case Some(i) => Some(|front| + i)
  {
    hide OccursAt;
    var u := front + t;
    forall j: nat ensures OccursAt(u, pat, |front| + j) <==> OccursAt(t, pat, j) {
      OccursBehindExactly(front, t, pat, j);
    }
    match FindFrom(t, pat, 0)
    case None =>
      forall j: nat ensures !OccursAt(u, pat, j) {
        if j >= |front| { assert !OccursAt(t, pat, j - |front|) && j == |front| + (j - |front|); }
      }
    case Some(i) =>
      assert OccursAt(u, pat, |front| + i);
      forall j: nat | j < |front| + i ensures !OccursAt(u, pat, j) {
        if j >= |front| { assert !OccursAt(t, pat, j - |front|) && j == |front| + (j - |front|); }
      }
  }

  lemma OccursBehindExactly(front: string, t: string, pat: string, j: nat)
    ensures OccursAt(front + t, pat, |front| + j) <==> OccursAt(t, pat, j)
  {
    var u, i := front + t, |front| + j;
    if OccursAt(t, pat, j) {
      forall k | 0 <= k < |pat| ensures Lower(u[i + k]) == pat[k] { assert u[i + k] == t[j + k]; }
    }
    if OccursAt(u, pat, i) {
      forall k | 0 <= k < |pat| ensures Lower(t[j + k]) == pat[k] { assert u[i + k] == t[j + k]; }
    }
  }

  lemma StartsWithReturn(t: string, pat: string, j: nat)
    requires OccursAt(t, pat, j) && pat != "" && pat[0] == '\r'
    ensures t[j] == '\r'
  {
    assert Lower(t[j + 0]) == pat[0];
  }

  lemma NoneInLine(line: string, t: string, pat: string)
    requires '\r' !in line && pat != "" && pat[0] == '\r'
    ensures forall j: nat :: j < |line| ==> !OccursAt(line + t, pat, j)
  {
    forall j: nat | j < |line| ensures !OccursAt(line + t, pat, j) {
      if OccursAt(line + t, pat, j) { StartsWithReturn(line + t, pat, j); }
    }
  }

  /** A line ends at its line break. */
  lemma LineEnds(line: string, rest: string)
    requires '\r' !in line
    ensures FindFrom(line + (CRLF + rest), "\r\n", 0) == Some(|line|)
  {
    NoneInLine(line, CRLF + rest, "\r\n");
    FindBehind(line, CRLF + rest, "\r\n");
    assert OccursAt(CRLF + rest, "\r\n", 0);
  }

  lemma FirstLine(line: string, tail: string)
    requires line != "" && '\r' !in line
    ensures HeaderLines(line + (CRLF + tail)) == [line] + HeaderLines(tail)
  {
    hide FindFrom, OccursAt;
    var t := line + (CRLF + tail);
    LineEnds(line, tail);
    assert t[|line| + 2..] == tail && t[..|line|] == line;
  }

  /** Lines that are joined are read back, whatever follows the blank line. */
  lemma {:induction false} LinesRead(lines: seq<string>, rest: string)
    requires PlainLines(lines)
    ensures HeaderLines(Joined(lines) + (CRLF + rest)) == lines
    decreases |lines|
  {
    if lines == [] {
      assert "" + (CRLF + rest) == CRLF + rest;
      LineEnds("", rest);
    } else {
      hide Joined, HeaderLines;
      assert PlainLine(lines[0]);
      JoinedCons(lines, rest);
      FirstLine(lines[0], Joined(lines[1..]) + (CRLF + rest));
      LinesRead(lines[1..], rest);
    }
  }

  /** The blank line is found right behind them. */
  lemma {:induction false} BlankLineFound(lines: seq<string>, rest: string)
    requires PlainLines(lines) && lines != []
    ensures |Joined(lines)| >= 2 && EndOfHeader(Joined(lines) + (CRLF + rest)) == Some(|Joined(lines)| - 2)
    decreases |lines|
  {
    hide Joined, EndOfHeader, PlainLine;
    var line, more := lines[0], lines[1..];
    JoinedCons(lines, rest);
    if more == [] {
      LastLine(line, rest);
    } else {
      FirstChar(more, rest);
      BlankLineFound(more, rest);
      NextLine(line, Joined(more) + (CRLF + rest));
    }
  }

  lemma JoinedCons(lines: seq<string>, rest: string)
    requires PlainLines(lines) && lines != []
    ensures '\r' !in lines[0] && |Joined(lines)| == |lines[0]| + 2 + |Joined(lines[1..])|
    ensures Joined(lines) + (CRLF + rest) == lines[0] + (CRLF + (Joined(lines[1..]) + (CRLF + rest)))
    ensures |lines| == 1 ==> Joined(lines[1..]) == "" && Joined(lines[1..]) + (CRLF + rest) == CRLF + rest
  {
    assert PlainLine(lines[0]);
    Shift(lines[0], CRLF, Joined(lines[1..]), CRLF + rest);
    assert "" + (CRLF + rest) == CRLF + rest;
  }

  lemma Shift(a: string, b: string, c: string, d: string)
    ensures a + b + c + d == a + (b + (c + d))
  {
  }

  lemma FirstChar(lines: seq<string>, rest: string)
    requires PlainLines(lines) && lines != []
    ensures Joined(lines) + (CRLF + rest) != "" && (Joined(lines) + (CRLF + rest))[0] != '\r'
  {
    assert PlainLine(lines[0]) && lines[0][0] in lines[0];
  }

  lemma LastLine(line: string, rest: string)
    requires '\r' !in line
    ensures EndOfHeader(line + (CRLF + (CRLF + rest))) == Some(|line|)
  {
    hide FindFrom;
    var tail := CRLF + (CRLF + rest);
    NoneInLine(line, tail, CRLF_CRLF);
    FindBehind(line, tail, CRLF_CRLF);
    assert tail[..4] == CRLF_CRLF;
    FoundAtOnce(tail);
  }

  lemma FoundAtOnce(t: string)
    requires CRLF_CRLF <= t
    ensures FindFrom(t, CRLF_CRLF, 0) == Some(0)
  {
    assert OccursAt(t, CRLF_CRLF, 0);
  }

  lemma NextLine(line: string, tail: string)
    requires '\r' !in line && tail != "" && tail[0] != '\r' && EndOfHeader(tail).Some?
    ensures EndOfHeader(line + (CRLF + tail)) == Some(|line| + 2 + EndOfHeader(tail).value)
  {
    hide FindFrom, OccursAt;
    NoneInLine(line, CRLF + tail, CRLF_CRLF);
    FindBehind(line, CRLF + tail, CRLF_CRLF);
    NotAtOnce(tail);
    FindBehind(CRLF, tail, CRLF_CRLF);
  }

  lemma TwoReturns(t: string)
    requires OccursAt(t, CRLF_CRLF, 0)
    ensures t[2] == '\r'
  {
    assert Lower(t[0 + 2]) == CRLF_CRLF[2];
  }

  /** A line break with anything but a line break behind it is not the end of the header. */
  lemma NotAtOnce(tail: string)
    requires tail != ""
    ensures tail[0] != '\r' ==> forall j: nat :: j < |CRLF| ==> !OccursAt(CRLF + tail, CRLF_CRLF, j)
  {
    forall j: nat | j < |CRLF| && tail[0] != '\r' ensures !OccursAt(CRLF + tail, CRLF_CRLF, j) {
      var t := CRLF + tail;
      if OccursAt(t, CRLF_CRLF, j) {
        if j == 0 { TwoReturns(t); } else { StartsWithReturn(t, CRLF_CRLF, j); }
      }
    }
  }

  // ----- the header of a response

  /** The lines a client is meant to see. */
  function LinesOf(f: Fields, n: nat): seq<string> {
    ["HTTP/1.1 " + f.code, "Content-Length: " + Decimal(n)]
    + (if f.auth == "" then [] else [(if f.authHack then "X-" else "") + ("WWW-Authenticate: " + f.auth)])
    + (if f.contentType == "" then [] else ["Content-Type: " + f.contentType + "; charset=UTF-8"])
    + (if f.cookie == "" then [] else ["Set-Cookie: " + f.cookie])
    + ["Connection: Close", "Access-Control-Allow-Origin: *"]
  }

  predicate PlainText(s: string) { '\r' !in s && '\0' !in s }

  predicate PlainFields(f: Fields) {
    PlainText(f.code) && PlainText(f.auth) && PlainText(f.contentType) && PlainText(f.cookie)
  }

  lemma JoinedOne(line: string)
    ensures Joined([line]) == line + CRLF
  {
    assert [line][1..] == [];
  }

  lemma {:induction false} JoinedConcat(a: seq<string>, b: seq<string>)
    ensures Joined(a + b) == Joined(a) + Joined(b)
    decreases |a|
  {
    if a == [] {
      assert a + b == b;
    } else {
      assert (a + b)[1..] == a[1..] + b;
      JoinedConcat(a[1..], b);
      Regroup(a[0] + CRLF, Joined(a[1..]), Joined(b));
    }
  }

  function Opt(line: string, given: bool): seq<string> { if given then [line] else [] }

  lemma JoinedOpt(line: string, given: bool)
    ensures Joined(Opt(line, given)) == if given then line + CRLF else ""
  {
    JoinedOne(line);
  }

  lemma JoinedSix(a: seq<string>, b: seq<string>, c: seq<string>, d: seq<string>, e: seq<string>)
    ensures Joined(a + b + c + d + e) == Joined(a) + Joined(b) + Joined(c) + Joined(d) + Joined(e)
  {
    JoinedConcat(a + b + c + d, e);
    JoinedConcat(a + b + c, d);
    JoinedConcat(a + b, c);
    JoinedConcat(a, b);
  }

  lemma JoinedTwo(x: string, y: string)
    ensures Joined([x, y]) == x + CRLF + (y + CRLF)
  {
    assert [x, y] == [x] + [y];
    JoinedConcat([x], [y]);
    JoinedOne(x);
    JoinedOne(y);
  }

  function AuthText(f: Fields): string { (if f.authHack then "X-" else "") + ("WWW-Authenticate: " + f.auth) }
  function TypeText(f: Fields): string { "Content-Type: " + f.contentType + "; charset=UTF-8" }
  function CookieText(f: Fields): string { "Set-Cookie: " + f.cookie }

  lemma LinesAreOpts(f: Fields, n: nat)
    ensures LinesOf(f, n) == ["HTTP/1.1 " + f.code, "Content-Length: " + Decimal(n)]
                             + Opt(AuthText(f), f.auth != "") + Opt(TypeText(f), f.contentType != "")
                             + Opt(CookieText(f), f.cookie != "")
                             + ["Connection: Close", "Access-Control-Allow-Origin: *"]
  {
    hide Decimal;
  }

  lemma OptionalLines(f: Fields)
    ensures AuthLine(f) == Joined(Opt(AuthText(f), f.auth != ""))
    ensures TypeLine(f) == Joined(Opt(TypeText(f), f.contentType != ""))
    ensures CookieLine(f) == Joined(Opt(CookieText(f), f.cookie != ""))
  {
    hide Joined;
    JoinedOpt(AuthText(f), f.auth != "");
    JoinedOpt(TypeText(f), f.contentType != "");
    JoinedOpt(CookieText(f), f.cookie != "");
    AuthNames(f.auth);
  }

  lemma AuthNames(auth: string)
    ensures "X-" + ("WWW-Authenticate: " + auth) == "X-WWW-Authenticate: " + auth
    ensures "" + ("WWW-Authenticate: " + auth) == "WWW-Authenticate: " + auth
  {
  }

  lemma HeaderIsLines(f: Fields, n: nat)
    ensures Header(f, n) == Joined(LinesOf(f, n)) + CRLF
  {
    hide Joined, Decimal, LinesOf, Opt, AuthText, TypeText, CookieText, AuthLine, TypeLine, CookieLine;
    LinesAreOpts(f, n);
    OptionalLines(f);
    var status, length := "HTTP/1.1 " + f.code, "Content-Length: " + Decimal(n);
    var last := ["Connection: Close", "Access-Control-Allow-Origin: *"];
    JoinedSix([status, length], Opt(AuthText(f), f.auth != ""), Opt(TypeText(f), f.contentType != ""),
              Opt(CookieText(f), f.cookie != ""), last);
    JoinedTwo(status, length);
    JoinedTwo("Connection: Close", "Access-Control-Allow-Origin: *");
    Assemble(status + CRLF, "Content-Length: ", Decimal(n), AuthLine(f), TypeLine(f), CookieLine(f),
             "Connection: Close" + CRLF, "Access-Control-Allow-Origin: *" + CRLF);
  }

  lemma Assemble(s: string, l: string, d: string, a: string, t: string, c: string, x: string, y: string)
    ensures s + l + d + (CRLF + a + t + c + x + y + CRLF) == s + (l + d + CRLF) + a + t + c + (x + y) + CRLF
  {
  }

  lemma {:induction false} DecimalIsPlain(n: nat)
    ensures PlainLine(Decimal(n))
  {
  }

  lemma LinesArePlain(f: Fields, n: nat)
    requires PlainFields(f)
    ensures PlainLines(LinesOf(f, n)) && LinesOf(f, n) != []
  {
    hide Decimal, LinesOf, PlainLine, PlainLines, Opt, AuthText, TypeText, CookieText;
    FirstPlain(f, n);
    OptionalPlain(f);
    LastPlain();
    LinesAreOpts(f, n);
    var first := ["HTTP/1.1 " + f.code, "Content-Length: " + Decimal(n)];
    var auth, kind, cookie := Opt(AuthText(f), f.auth != ""), Opt(TypeText(f), f.contentType != ""),
                              Opt(CookieText(f), f.cookie != "");
    OptPlain(AuthText(f), f.auth != "");
    OptPlain(TypeText(f), f.contentType != "");
    OptPlain(CookieText(f), f.cookie != "");
    PlainConcat(first, auth);
    PlainConcat(first + auth, kind);
    PlainConcat(first + auth + kind, cookie);
    PlainConcat(first + auth + kind + cookie, ["Connection: Close", "Access-Control-Allow-Origin: *"]);
  }

  lemma PlainConcat(a: seq<string>, b: seq<string>)
    requires PlainLines(a) && PlainLines(b)
    ensures PlainLines(a + b)
  {
    hide PlainLine;
  }

  lemma OptPlain(line: string, given: bool)
    requires PlainLine(line)
    ensures PlainLines(Opt(line, given))
  {
    hide PlainLine;
  }

  lemma FirstPlain(f: Fields, n: nat)
    requires PlainFields(f)
    ensures PlainLines(["HTTP/1.1 " + f.code, "Content-Length: " + Decimal(n)])
  {
    hide Decimal;
    DecimalIsPlain(n);
    assert PlainText("HTTP/1.1 ") && PlainText("Content-Length: ") && PlainText(Decimal(n)) && PlainText("");
    hide PlainText, PlainLine;
    StillPlain("HTTP/1.1 ", f.code, "");
    StillPlain("Content-Length: ", Decimal(n), "");
  }

  lemma LastPlain()
    ensures PlainLines(["Connection: Close", "Access-Control-Allow-Origin: *"])
  {
    assert PlainLine("Connection: Close");
    assert PlainLine("Access-Control-Allow-Origin: *");
  }

  lemma OptionalPlain(f: Fields)
    requires PlainFields(f)
    ensures PlainLine(AuthText(f)) && PlainLine(TypeText(f)) && PlainLine(CookieText(f))
  {
    LiteralsPlain();
    hide PlainText, PlainLine;
    StillPlain("X-", "WWW-Authenticate: ", "");
    StillPlain("WWW-Authenticate: ", f.auth, "");
    PlainPair("X-", "WWW-Authenticate: " + f.auth);
    assert "" + ("WWW-Authenticate: " + f.auth) == "WWW-Authenticate: " + f.auth;
    StillPlain("Content-Type: ", f.contentType, "; charset=UTF-8");
    StillPlain("Set-Cookie: ", f.cookie, "");
  }

  lemma PlainPair(a: string, b: string)
    requires PlainText(a) && PlainLine(b)
    ensures PlainLine(a + b)
  {
  }

  lemma LiteralsPlain()
    ensures PlainText("X-") && PlainText("WWW-Authenticate: ") && PlainText("Content-Type: ") && PlainText("")
    ensures PlainText("; charset=UTF-8") && PlainText("Set-Cookie: ")
  {
    MoreLiteralsPlain();
  }

  lemma MoreLiteralsPlain()
    ensures PlainText("Content-Type: ") && PlainText("; charset=UTF-8")
  {
  }

  lemma StillPlain(a: string, s: string, b: string)
    requires a != "" && PlainText(a) && PlainText(s) && PlainText(b)
    ensures PlainLine(a + s + b) && PlainLine(a + s)
  {
  }

  lemma {:induction false} JoinedHasNoNul(lines: seq<string>)
    requires PlainLines(lines)
    ensures '\0' !in Joined(lines)
  {
    if lines != [] {
      assert PlainLine(lines[0]);
      JoinedHasNoNul(lines[1..]);
    }
  }

  lemma {:induction false} TextBehind(a: string, b: string)
    requires '\0' !in a
    ensures Text(a + b) == a + Text(b)
  {
    hide Text;
    if a == "" {
      assert a + b == b && a + Text(b) == Text(b);
    } else {
      var rest := a[1..];
      TextBehind(rest, b);
      assert a == [a[0]] + rest && a[0] in a;
      Regroup([a[0]], rest, b);
      TextCons(a[0], rest + b);
      Regroup([a[0]], rest, Text(b));
    }
  }

  lemma TextCons(c: char, s: string)
    requires c != '\0'
    ensures Text([c] + s) == [c] + Text(s)
  {
    assert ([c] + s)[1..] == s;
  }

  /** Every response is a header that ends with a blank line, then the body: a client reads exactly the lines
      of the response, and the framing of requests would cut it in the same place. */
  lemma HeaderEnds(f: Fields, n: nat, body: string)
    requires PlainFields(f)
    ensures HeaderLines(Header(f, n) + body) == LinesOf(f, n)
    ensures |Header(f, n)| >= 4 && EndOfHeader(Text(Header(f, n) + body)) == Some(|Header(f, n)| - 4)
  {
    hide HeaderLines, LinesOf, Header, PlainLine, Joined;
    var lines := LinesOf(f, n);
    LinesArePlain(f, n);
    HeaderIsLines(f, n);
    JoinedHasNoNul(lines);
    assert Header(f, n) + body == Joined(lines) + (CRLF + body);
    LinesRead(lines, body);
    TextBehind(Header(f, n), body);
    assert Header(f, n) + Text(body) == Joined(lines) + (CRLF + Text(body));
    BlankLineFound(lines, Text(body));
  }

  /** So a whole response is one message for that framing, unless its text names chunked coding. */
  lemma ResponseIsOneMessage(f: Fields, body: string)
    requires PlainFields(f) && ':' !in f.code
    requires !HasChunked(Text(Header(f, |body|) + body))
    ensures Frame("", Header(f, |body|) + body) == Complete(|Header(f, |body|)| + |body|)
  {
    hide HasChunked, Header, LinesOf, HeaderLines, ContentLength, FindFrom, Text;
    var r := Header(f, |body|) + body;
    HeaderEnds(f, |body|, body);
    HeaderHasNoNul(f, |body|);
    TextBehind(Header(f, |body|), body);
    HeaderAnnouncesBody(f, |body|, Text(body));
    assert "" + r == r;
  }

  lemma HeaderHasNoNul(f: Fields, n: nat)
    requires PlainFields(f)
    ensures '\0' !in Header(f, n)
  {
    hide Header, Joined, LinesOf, PlainLine;
    LinesArePlain(f, n);
    HeaderIsLines(f, n);
    JoinedHasNoNul(LinesOf(f, n));
  }
}
