/** The bracket finders and the whitespace pass of json/Parser.cpp. */
module JsonScan {
  import opened Common
  import opened JsonText

  datatype Brackets = Brackets(open: char, close: char)

  const CURLY := Brackets('{', '}')
  const SQUARE := Brackets('[', ']')

  predicate Proper(b: Brackets) { b == CURLY || b == SQUARE }

  /** How many characters it takes from inside `level` open brackets to behind the closing bracket of
      the outermost one. String literals are skipped whole. */
  function Scan(b: Brackets, s: string, level: nat): Option<nat>
    requires 0 < level
    decreases |s|
  {
    if s == "" || s[0] == '\0' then None
    else if s[0] == '"' then
      var n := FindClosingQuote(s).value;
      Plus(n, Scan(b, Drop(s, n), level))
    else
      var level' := if s[0] == b.open then level + 1 else if s[0] == b.close then level - 1 else level;
      if level' == 0 then Some(1) else Plus(1, Scan(b, s[1..], level'))
  }

  function Plus(n: nat, r: Option<nat>): Option<nat> {
    match r
    case None => None
    case Some(m) => Some(n + m)
  }

  /** findClosingCurly and findClosingBracket. */
  function FindClosing(b: Brackets, s: string): Option<nat> {
    if s == "" || s[0] != b.open then None else Plus(1, Scan(b, s[1..], 1))
  }

  lemma {:induction false} ScanInside(b: Brackets, s: string, level: nat)
    requires 0 < level
    ensures Scan(b, s, level).Some? ==> 0 < Scan(b, s, level).value <= |s|
    decreases |s|
  {
    if s != "" && s[0] != '\0' {
      if s[0] == '"' {
        ScanInside(b, Drop(s, FindClosingQuote(s).value), level);
      } else {
        var level' := if s[0] == b.open then level + 1 else if s[0] == b.close then level - 1 else level;
        if level' > 0 { ScanInside(b, s[1..], level'); }
      }
    }
  }

  method FindClosingLoop(b: Brackets, str: string) returns (r: Option<nat>)
    requires Proper(b)
    ensures r == FindClosing(b, str)
  {
    if |str| < 1 {
      return None;
    }
    if str[0] != b.open {
      return None;
    }
    var level := 1;
    var buf := 1;
    hide FindClosingQuote, FindClosing, At, Proper, Found, Scan, Plus, Drop;
    ScanStart(b, str);
    while At(str, buf) != '\0'
      invariant 1 <= buf && 0 < level
      invariant Found(b, str, buf, level) == FindClosing(b, str)
      decreases |str| - buf
    {
      if At(str, buf) == '"' {
        QuoteStep(b, str, buf, level);
        var i := FindClosingQuoteLoop(str[buf..]);
        if i.None? {
          return None;
        }
        buf := buf + i.value;
        continue;
      }
      CharStep(b, str, buf, level);
      if str[buf] == b.open {
        level := level + 1;
      } else if str[buf] == b.close {
        level := level - 1;
      }
      buf := buf + 1;
      if level == 0 {
        return Some(buf);
      }
    }
    ScanEnd(b, str, buf, level);
    return None;
  }

  /** What the finder returns from character i on. */
  function Found(b: Brackets, s: string, i: nat, level: nat): Option<nat>
    requires 0 < level
  {
    Plus(i, Scan(b, Drop(s, i), level))
  }

  lemma ScanStart(b: Brackets, s: string)
    requires s != "" && s[0] == b.open
    ensures Found(b, s, 1, 1) == FindClosing(b, s)
  {
  }

  /** A string is passed over, whatever brackets it contains. */
  lemma QuoteStep(b: Brackets, s: string, i: nat, level: nat)
    requires 0 < level && At(s, i) == '"'
    ensures i < |s| && FindClosingQuote(s[i..]).Some? && FindClosingQuote(s[i..]).value >= 2
    ensures Found(b, s, i + FindClosingQuote(s[i..]).value, level) == Found(b, s, i, level)
  {
    hide CloseLength;
    var n := FindClosingQuote(s[i..]).value;
    ScanQuote(b, s[i..], level);
    DropDrop(s, i, n);
  }

  lemma ScanQuote(b: Brackets, s: string, level: nat)
    requires 0 < level && s != "" && s[0] == '"'
    ensures var n := FindClosingQuote(s).value;
            Scan(b, s, level) == Plus(n, Scan(b, Drop(s, n), level))
  {
    hide CloseLength, Drop;
  }

  lemma CharStep(b: Brackets, s: string, i: nat, level: nat)
    requires Proper(b) && 0 < level && At(s, i) != '\0' && At(s, i) != '"'
    ensures i < |s|
    ensures var depth := if s[i] == b.open then level + 1 else if s[i] == b.close then level - 1 else level;
            Found(b, s, i, level) == if depth == 0 then Some(i + 1) else Found(b, s, i + 1, depth)
  {
    assert s[i..][1..] == s[i + 1..];
  }

  lemma ScanEnd(b: Brackets, s: string, i: nat, level: nat)
    requires 0 < level && At(s, i) == '\0'
    ensures Found(b, s, i, level) == None
  {
  }

  lemma DropDrop(s: string, i: nat, j: nat)
    ensures Drop(Drop(s, i), j) == Drop(s, i + j)
  {
    if i + j <= |s| { assert s[i..][j..] == s[i + j..]; }
  }

  // ----- pieces of text that the bracket finders pass over

  /** Inside any number of open brackets, p is passed over whatever follows it. */
  ghost predicate Balanced(b: Brackets, p: string) {
    forall rest: string, level: nat {:trigger Scan(b, p + rest, level)} | 0 < level ::
      Scan(b, p + rest, level) == Plus(|p|, Scan(b, rest, level))
  }

  lemma BalancedEmpty(b: Brackets)
    ensures Balanced(b, "")
  {
    forall rest: string, level: nat | 0 < level
      ensures Scan(b, "" + rest, level) == Plus(0, Scan(b, rest, level))
    {
      assert "" + rest == rest;
    }
  }

  lemma BalancedConcat(b: Brackets, p: string, q: string)
    requires Balanced(b, p) && Balanced(b, q)
    ensures Balanced(b, p + q)
  {
    forall rest: string, level: nat | 0 < level
      ensures Scan(b, (p + q) + rest, level) == Plus(|p + q|, Scan(b, rest, level))
    {
      assert (p + q) + rest == p + (q + rest);
      assert Scan(b, p + (q + rest), level) == Plus(|p|, Scan(b, q + rest, level));
    }
  }

  lemma BalancedChar(b: Brackets, c: char)
    requires c != '\0' && c != '"' && c != b.open && c != b.close
    ensures Balanced(b, [c])
  {
    forall rest: string, level: nat | 0 < level
      ensures Scan(b, [c] + rest, level) == Plus(1, Scan(b, rest, level))
    {
      assert ([c] + rest)[1..] == rest;
    }
  }

  /** Text without quotes and brackets. */
  lemma {:induction false} BalancedPlain(b: Brackets, p: string)
    requires forall i :: 0 <= i < |p| ==> p[i] != '\0' && p[i] != '"' && p[i] != b.open && p[i] != b.close
    ensures Balanced(b, p)
  {
    if p == "" {
      BalancedEmpty(b);
    } else {
      BalancedChar(b, p[0]);
      BalancedPlain(b, p[1..]);
      BalancedConcat(b, [p[0]], p[1..]);
      assert [p[0]] + p[1..] == p;
    }
  }

  lemma BalancedString(b: Brackets, p: string)
    requires QuoteSafe(p)
    ensures Balanced(b, "\"" + p + "\"")
  {
    forall rest: string, level: nat | 0 < level
      ensures Scan(b, "\"" + p + "\"" + rest, level) == Plus(|p| + 2, Scan(b, rest, level))
    {
      SafeExactly(p, rest);
      var s := "\"" + p + "\"" + rest;
      assert s[|p| + 2..] == rest;
    }
  }

  lemma BalancedNested(b: Brackets, p: string)
    requires Proper(b) && Balanced(b, p)
    ensures Balanced(b, [b.open] + p + [b.close])
  {
    forall rest: string, level: nat | 0 < level
      ensures Scan(b, [b.open] + p + [b.close] + rest, level) == Plus(|p| + 2, Scan(b, rest, level))
    {
      var s := [b.open] + p + [b.close] + rest;
      assert s[1..] == p + ([b.close] + rest);
      assert ([b.close] + rest)[1..] == rest;
      assert Scan(b, p + ([b.close] + rest), level + 1) == Plus(|p|, Scan(b, [b.close] + rest, level + 1));
    }
  }

  /** The finder returns exactly the length of a bracketed piece, whatever follows it. */
  lemma FindsClosing(b: Brackets, p: string, rest: string)
    requires Proper(b) && Balanced(b, p)
    ensures FindClosing(b, [b.open] + p + [b.close] + rest) == Some(|p| + 2)
  {
    var s := [b.open] + p + [b.close] + rest;
    assert s[1..] == p + ([b.close] + rest);
    assert Scan(b, p + ([b.close] + rest), 1) == Plus(|p|, Scan(b, [b.close] + rest, 1));
  }

  // ----- the whitespace pass

  predicate IsSpace(c: char) { c == '\t' || c == ' ' || c == '\r' || c == '\n' }

  /** removeSpaces. A literal without an end is copied with the NUL behind the text. */
  function RemoveSpaces(s: string): string
    decreases |s|
  {
    if s == "" then ""
    else if s[0] == '"' then
      var n := FindClosingQuote(s).value;
      if n <= |s| then s[..n] + RemoveSpaces(s[n..]) else s + "\0"
    else if IsSpace(s[0]) then RemoveSpaces(s[1..])
    else [s[0]] + RemoveSpaces(s[1..])
  }

  /** The inner loop copies l characters; the one behind the text is a NUL. */
  method CopyLiteral(str: string, start: nat, length: nat) returns (copied: string)
    requires start < |str| && start + length <= |str| + 1
    ensures copied == if start + length <= |str| then str[start..][..length] else str[start..] + "\0"
  {
    copied := "";
    var i, l := start, length;
    while l > 0
      invariant 0 <= l <= length && i == start + (length - l)
      invariant copied == if i <= |str| then str[start..i] else str[start..] + "\0"
    {
      copied := copied + [At(str, i)];
      i := i + 1;
      l := l - 1;
    }
    assert start + length <= |str| ==> str[start..][..length] == str[start..start + length];
  }

  method RemoveSpacesLoop(str: string) returns (ret: string)
    ensures ret == RemoveSpaces(str)
  {
    ret := "";
    var i := 0;
    while i < |str|
      invariant if i <= |str| then ret + RemoveSpaces(str[i..]) == RemoveSpaces(str) else ret == RemoveSpaces(str)
      decreases |str| - i
    {
      var c := str[i];
      ghost var before, rest := ret, str[i..];
      assert rest[1..] == str[i + 1..];
      if c == '"' {
        var found := FindClosingQuoteLoop(str[i..]);
        var n := found.value;
        var literal := CopyLiteral(str, i, n);
        ret := ret + literal;
        i := i + n;
        if i <= |str| {
          assert rest[n..] == str[i..];
          Regroup(before, rest[..n], RemoveSpaces(str[i..]));
        }
      } else if c == '\t' || c == ' ' || c == '\r' || c == '\n' {
        i := i + 1;
      } else {
        i := i + 1;
        ret := ret + [c];
        Regroup(before, [c], RemoveSpaces(str[i..]));
      }
    }
    assert i == |str| ==> str[i..] == "";
  }

  /** The pass turns p into q, whatever follows it. */
  ghost predicate Strips(p: string, q: string) {
    forall rest: string {:trigger RemoveSpaces(p + rest)} :: RemoveSpaces(p + rest) == q + RemoveSpaces(rest)
  }

  lemma StripsEmpty()
    ensures Strips("", "")
  {
    forall rest: string ensures RemoveSpaces("" + rest) == "" + RemoveSpaces(rest) {
      assert "" + rest == rest && "" + RemoveSpaces(rest) == RemoveSpaces(rest);
    }
  }

  lemma StripsConcat(p: string, q: string, p': string, q': string)
    requires Strips(p, q) && Strips(p', q')
    ensures Strips(p + p', q + q')
  {
    forall rest: string ensures RemoveSpaces((p + p') + rest) == (q + q') + RemoveSpaces(rest) {
      assert (p + p') + rest == p + (p' + rest);
      assert RemoveSpaces(p + (p' + rest)) == q + RemoveSpaces(p' + rest);
      Regroup(q, q', RemoveSpaces(rest));
    }
  }

  lemma {:induction false} StripsSpaces(p: string)
    requires forall i :: 0 <= i < |p| ==> IsSpace(p[i])
    ensures Strips(p, "")
  {
    if p == "" {
      StripsEmpty();
    } else {
      StripsSpaces(p[1..]);
      forall rest: string ensures RemoveSpaces(p + rest) == "" + RemoveSpaces(rest) {
        assert (p + rest)[1..] == p[1..] + rest;
      }
    }
  }

  lemma {:induction false} StripsPlain(p: string)
    requires forall i :: 0 <= i < |p| ==> !IsSpace(p[i]) && p[i] != '"'
    ensures Strips(p, p)
  {
    if p == "" {
      StripsEmpty();
    } else {
      StripsPlain(p[1..]);
      forall rest: string ensures RemoveSpaces(p + rest) == p + RemoveSpaces(rest) {
        assert (p + rest)[1..] == p[1..] + rest;
        assert [p[0]] + (p[1..] + RemoveSpaces(rest)) == p + RemoveSpaces(rest);
      }
    }
  }

  lemma StripsString(p: string)
    requires QuoteSafe(p)
    ensures Strips("\"" + p + "\"", "\"" + p + "\"")
  {
    var lit := "\"" + p + "\"";
    forall rest: string ensures RemoveSpaces(lit + rest) == lit + RemoveSpaces(rest) {
      SafeExactly(p, rest);
      assert (lit + rest)[..|p| + 2] == lit && (lit + rest)[|p| + 2..] == rest;
    }
  }

  /** A literal at the front of a text, as the pass copies it, is copied the same in front of any other
      text. */
  lemma StripsLiteral(s: string)
    requires s != "" && s[0] == '"' && FindClosingQuote(s).value <= |s|
    ensures var lit := s[..FindClosingQuote(s).value]; Strips(lit, lit)
  {
    var n := FindClosingQuote(s).value;
    var lit := s[..n];
    forall rest: string ensures RemoveSpaces(lit + rest) == lit + RemoveSpaces(rest) {
      CloseStable(s[1..], rest, false);
      assert (lit + rest)[1..] == s[1..][..n - 1] + rest;
      assert (lit + rest)[..n] == lit && (lit + rest)[n..] == rest;
    }
  }

  /** A second pass changes nothing. */
  lemma {:induction false} RemoveSpacesIdempotent(s: string)
    ensures RemoveSpaces(RemoveSpaces(s)) == RemoveSpaces(s)
    decreases |s|
  {
    if s != "" {
      if s[0] == '"' {
        var n := FindClosingQuote(s).value;
        if n <= |s| {
          RemoveSpacesIdempotent(s[n..]);
          StripsLiteral(s);
        } else {
          UnclosedIsKept(s);
        }
      } else if IsSpace(s[0]) {
        RemoveSpacesIdempotent(s[1..]);
      } else {
        RemoveSpacesIdempotent(s[1..]);
        var r := RemoveSpaces(s[1..]);
        assert ([s[0]] + r)[1..] == r;
      }
    }
  }

  lemma {:induction false} CloseAtNul(s: string, escaped: bool)
    requires CloseLength(s, escaped) == |s|
    ensures CloseLength(s + "\0", escaped) == |s|
  {
    if s == "" {
      assert s + "\0" == "\0";
    } else {
      CloseAtNul(s[1..], if escaped then false else s[0] == '\\');
      assert (s + "\0")[1..] == s[1..] + "\0";
    }
  }

  lemma UnclosedIsKept(s: string)
    requires s != "" && s[0] == '"' && FindClosingQuote(s).value > |s|
    ensures RemoveSpaces(s + "\0") == s + "\0"
  {
    var t := s + "\0";
    assert t[1..] == s[1..] + "\0";
    CloseAtNul(s[1..], false);
    assert t[..|t|] == t && t[|t|..] == "";
  }
}
