/** Request reassembly: webserver/HTTPFramingStrategy.cpp. */
module HttpFraming {
  import opened Common

  // ----- what the strategy searches for

  /** The text a C string made of these bytes has: everything before the first NUL. */
  function Text(bytes: string): (t: string)
    ensures |t| <= |bytes| && t == bytes[..|t|]
    ensures |t| < |bytes| ==> bytes[|t|] == '\0'
    ensures forall i :: 0 <= i < |t| ==> t[i] != '\0'
  {
    if bytes == "" || bytes[0] == '\0' then "" else [bytes[0]] + Text(bytes[1..])
  }

  function Lower(c: char): char {
    if 'A' <= c <= 'Z' then c - 'A' + 'a' else c
  }

  /** pat, given in lower case, occurs at position i of t in either case. */
  predicate OccursAt(t: string, pat: string, i: nat) {
    i + |pat| <= |t| && forall k :: 0 <= k < |pat| ==> Lower(t[i + k]) == pat[k]
  }

  /** The leftmost occurrence at position i or later. */
  function FindFrom(t: string, pat: string, i: nat): (r: Option<nat>)
    ensures r.Some? ==> i <= r.value && OccursAt(t, pat, r.value)
    ensures r.Some? ==> forall j: nat :: i <= j < r.value ==> !OccursAt(t, pat, j)
    ensures r.None? ==> forall j: nat :: i <= j ==> !OccursAt(t, pat, j)
    decreases |t| - i
  {
    if OccursAt(t, pat, i) then Some(i)
    else if i + |pat| >= |t| then None
    else FindFrom(t, pat, i + 1)
  }

  function Skip(t: string, blanks: string, i: nat): (j: nat)
    requires i <= |t|
    ensures i <= j <= |t|
    decreases |t| - i
  {
    if i < |t| && t[i] in blanks then Skip(t, blanks, i + 1) else i
  }

  /** The decimal number that continues the value v at position i. */
  function Number(t: string, i: nat, v: nat): (n: nat)
    requires i <= |t|
    ensures v <= n
    decreases |t| - i
  {
    if i < |t| && '0' <= t[i] <= '9' then Number(t, i + 1, 10 * v + ((t[i] - '0') as int)) else v
  }

  const CRLF_CRLF := "\r\n\r\n"
  const CONTENT_LENGTH := "content-length:"
  const TRANSFER_ENCODING := "transfer-encoding:"

  function EndOfHeader(t: string): Option<nat> { FindFrom(t, CRLF_CRLF, 0) }

  /** The value of the first Content-Length text anywhere in t, 0 when there is none. */
  function ContentLength(t: string): nat {
    match FindFrom(t, CONTENT_LENGTH, 0)
    case None => 0
    case Some(i) => Number(t, Skip(t, " \t\U{000B}\U{000C}", Skip(t, " ", i + |CONTENT_LENGTH|)), 0)
  }

  predicate ChunkedAt(t: string, i: nat) {
    OccursAt(t, TRANSFER_ENCODING, i) && OccursAt(t, "chunked", Skip(t, " ", i + |TRANSFER_ENCODING|))
  }

  /** Some transfer-encoding text in t names chunked. */
  predicate HasChunked(t: string) {
    exists i :: 0 <= i < |t| && ChunkedAt(t, i)
  }

  // ----- one call of the strategy

  const MAX_PENDING := 2048
  const ERROR_HEADER_SIZE := -2
  const ERROR_CHUNKED := -3

  /** What one call does with `acc` already accumulated: fail, keep everything and wait, or complete a
      message after taking `taken` bytes of the new data. */
  datatype Outcome = Fail(code: int) | More | Complete(taken: int)

  function Frame(acc: string, data: string): Outcome {
    var whole := acc + data;
    var text := Text(whole);
    match EndOfHeader(text)
    case None => if |whole| > MAX_PENDING then Fail(ERROR_HEADER_SIZE) else More
    case Some(e) =>
      if HasChunked(text) then Fail(ERROR_CHUNKED)
      else
        var total := e + |CRLF_CRLF| + ContentLength(text);
        if |whole| < total then More else Complete(total - |acc|)
  }

  /** acc is what earlier calls can leave behind: no complete message. */
  predicate Partial(acc: string) {
    match EndOfHeader(Text(acc))
    case None => true
    case Some(e) => |acc| < e + |CRLF_CRLF| + ContentLength(Text(acc))
  }

  // ----- searching a longer text

  lemma {:induction false} TextGrows(a: string, b: string)
    requires a <= b
    ensures Text(a) <= Text(b)
    ensures |Text(a)| < |a| ==> Text(b) == Text(a)
    ensures |Text(b)| >= |a| ==> Text(a) == a
  {
    if a != "" && a[0] != '\0' {
      TextGrows(a[1..], b[1..]);
    }
  }

  lemma {:induction false} FindGrows(t: string, u: string, pat: string, i: nat)
    requires t <= u
    ensures FindFrom(t, pat, i).Some? ==> FindFrom(u, pat, i) == FindFrom(t, pat, i)
    ensures FindFrom(u, pat, i).Some? && FindFrom(u, pat, i).value + |pat| <= |t|
            ==> FindFrom(t, pat, i) == FindFrom(u, pat, i)
  {
    forall j: nat | j + |pat| <= |t| ensures OccursAt(t, pat, j) <==> OccursAt(u, pat, j) {
    }
    if FindFrom(t, pat, i).Some? {
      var x := FindFrom(t, pat, i).value;
      assert OccursAt(u, pat, x);
      assert forall j: nat :: i <= j < x ==> !OccursAt(u, pat, j);
    }
    if FindFrom(u, pat, i).Some? && FindFrom(u, pat, i).value + |pat| <= |t| {
      assert OccursAt(t, pat, FindFrom(u, pat, i).value);
    }
  }

  lemma {:induction false} SkipGrows(t: string, u: string, blanks: string, i: nat)
    requires t <= u && i <= |t|
    ensures Skip(t, blanks, i) == Skip(u, blanks, i) || Skip(t, blanks, i) == |t| <= Skip(u, blanks, i)
    decreases |t| - i
  {
    if i < |t| && t[i] in blanks { SkipGrows(t, u, blanks, i + 1); }
  }

  lemma {:induction false} NumberGrows(t: string, u: string, i: nat, v: nat)
    requires t <= u && i <= |t|
    ensures Number(t, i, v) <= Number(u, i, v)
    decreases |t| - i
  {
    if i < |t| && '0' <= t[i] <= '9' { NumberGrows(t, u, i + 1, 10 * v + ((t[i] - '0') as int)); }
  }

  /** More text never makes the announced length smaller. */
  lemma ContentLengthGrows(t: string, u: string)
    requires t <= u
    ensures ContentLength(t) <= ContentLength(u)
  {
    FindGrows(t, u, CONTENT_LENGTH, 0);
    match FindFrom(t, CONTENT_LENGTH, 0)
    case None =>
    case Some(i) =>
      var a := i + |CONTENT_LENGTH|;
      var b, b' := Skip(t, " ", a), Skip(u, " ", a);
      SkipGrows(t, u, " ", a);
      if b == b' {
        var c, c' := Skip(t, " \t\U{000B}\U{000C}", b), Skip(u, " \t\U{000B}\U{000C}", b);
        SkipGrows(t, u, " \t\U{000B}\U{000C}", b);
        if c == c' { NumberGrows(t, u, c, 0); }
      }
  }

  lemma {:induction false} ChunkedGrows(t: string, u: string)
    requires t <= u
    ensures HasChunked(t) ==> HasChunked(u)
  {
    if HasChunked(t) {
      var i :| 0 <= i < |t| && ChunkedAt(t, i);
      SkipGrows(t, u, " ", i + |TRANSFER_ENCODING|);
      assert ChunkedAt(u, i);
    }
  }

  /** A call that completes a message takes at least one and at most all of the new bytes, so the
      receive loop makes progress and never runs past its input. */
  lemma CompleteTakesSome(acc: string, data: string)
    requires Partial(acc)
    ensures Frame(acc, data).Complete? ==> 0 < Frame(acc, data).taken <= |data|
    ensures Frame(acc, data).More? ==> Partial(acc + data)
  {
    hide Text, FindFrom, OccursAt, ContentLength, HasChunked;
    var whole := acc + data;
    TextGrows(acc, whole);
    FindGrows(Text(acc), Text(whole), CRLF_CRLF, 0);
    ContentLengthGrows(Text(acc), Text(whole));
  }
}
