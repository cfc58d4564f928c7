/** The character level of the JSON library: quoting and escaping (json/Value.cpp) and the finders and
    the whitespace pass of the parser (json/Parser.cpp).

    The functions are defined on the text from the current position on. A C string ends with a NUL, so
    a look behind the end of the text sees '\0', and a NUL inside the text stops the finders. */
module JsonText {
  import opened Common

  function At(s: string, i: nat): char { if i < |s| then s[i] else '\0' }

  function Drop(s: string, i: nat): string { if i <= |s| then s[i..] else "" }

  // ----- strings

  /** How many characters of s come before the quote that ends the string, or before a NUL; all of s
      when there is neither. `escaped`: the character before was a backslash that escapes the next. */
  function CloseLength(s: string, escaped: bool): (n: nat)
    ensures n <= |s|
    ensures n < |s| ==> s[n] == '"' || s[n] == '\0'
  {
    if s == "" || s[0] == '\0' then 0
    else if escaped then 1 + CloseLength(s[1..], false)
    else if s[0] == '"' then 0
    else 1 + CloseLength(s[1..], s[0] == '\\')
  }

  /** findClosingQuote: the length of the string literal at the front of s. */
  function FindClosingQuote(s: string): Option<nat> {
    if s == "" || s[0] != '"' then None else Some(CloseLength(s[1..], false) + 2)
  }

  /** Reading p leaves the scanner inside the string, with the result telling whether the next
      character is escaped; None when p ends the string. */
  function Inside(p: string, escaped: bool): Option<bool> {
    if p == "" then Some(escaped)
    else if p[0] == '\0' then None
    else if escaped then Inside(p[1..], false)
    else if p[0] == '"' then None
    else Inside(p[1..], p[0] == '\\')
  }

  /** p between quotes is one string literal. */
  predicate QuoteSafe(p: string) { Inside(p, false) == Some(false) }

  lemma {:induction false} InsideCounts(p: string, q: string, escaped: bool)
    requires Inside(p, escaped).Some?
    ensures CloseLength(p + q, escaped) == |p| + CloseLength(q, Inside(p, escaped).value)
  {
    if p == "" {
      assert p + q == q;
    } else {
      assert (p + q)[1..] == p[1..] + q;
      InsideCounts(p[1..], q, if escaped then false else p[0] == '\\');
    }
  }

  /** The scanner finds the end of a literal exactly there for exactly the safe contents. */
  lemma SafeExactly(p: string, rest: string)
    ensures FindClosingQuote("\"" + p + "\"" + rest) == Some(|p| + 2) <==> QuoteSafe(p)
  {
    var s := "\"" + p + "\"" + rest;
    assert s[1..] == p + ("\"" + rest);
    if Inside(p, false).Some? {
      InsideCounts(p, "\"" + rest, false);
      if Inside(p, false) == Some(true) {
        assert ("\"" + rest)[1..] == rest;
      }
    } else {
      NotInsideStops(p, "\"" + rest, false);
    }
  }

  lemma {:induction false} NotInsideStops(p: string, q: string, escaped: bool)
    requires Inside(p, escaped).None?
    ensures CloseLength(p + q, escaped) == CloseLength(p, escaped) < |p|
  {
    assert (p + q)[1..] == p[1..] + q;
    if p[0] == '\0' {
    } else if escaped {
      NotInsideStops(p[1..], q, false);
    } else if p[0] != '"' {
      NotInsideStops(p[1..], q, p[0] == '\\');
    }
  }

  /** What the scanner reads before a closing quote is safe. */
  lemma {:induction false} ReadIsSafe(s: string, escaped: bool)
    requires CloseLength(s, escaped) < |s| && s[CloseLength(s, escaped)] == '"'
    ensures Inside(s[..CloseLength(s, escaped)], escaped) == Some(false)
  {
    var n := CloseLength(s, escaped);
    if n > 0 {
      ReadIsSafe(s[1..], if escaped then false else s[0] == '\\');
      assert s[..n][1..] == s[1..][..n - 1];
    }
  }

  /** The end of a literal does not depend on what follows it. */
  lemma {:induction false} CloseStable(s: string, rest: string, escaped: bool)
    requires CloseLength(s, escaped) < |s|
    ensures CloseLength(s[..CloseLength(s, escaped) + 1] + rest, escaped) == CloseLength(s, escaped)
  {
    var n := CloseLength(s, escaped);
    var t := s[..n + 1] + rest;
    assert t[0] == s[0];
    if n > 0 {
      CloseStable(s[1..], rest, if escaped then false else s[0] == '\\');
      assert t[1..] == s[1..][..n] + rest;
    }
  }

  /** The loop of findClosingQuote. */
  method FindClosingQuoteLoop(str: string) returns (r: Option<nat>)
    ensures r == FindClosingQuote(str)
  {
    if |str| < 1 {
      return None;
    }
    if str[0] != '"' {
      return None;
    }
    var buf := 1;
    var nextEscape := false;
    while At(str, buf) != '\0'
      invariant 1 <= buf <= |str|
      invariant CloseLength(str[1..], false) == buf - 1 + CloseLength(str[buf..], nextEscape)
      decreases |str| - buf
    {
      assert str[buf..][1..] == str[buf + 1..];
      if nextEscape {
        nextEscape := false;
      } else {
        if str[buf] == '\\' {
          nextEscape := true;
        } else if str[buf] == '"' {
          break;
        }
      }
      buf := buf + 1;
    }
    return Some(buf + 1);
  }

  // ----- escaping

  function EscapeChar(c: char): (e: string)
    ensures 1 <= |e| <= 2
  {
    match c
    case '"' => "\\\""
    case '\n' => "\\n"
    case '\r' => "\\r"
    case '\t' => "\\t"
    case '\\' => "\\\\"
    case _ => [c]
  }

  function Escape(s: string): string {
    if s == "" then "" else EscapeChar(s[0]) + Escape(s[1..])
  }

  /** The character that a backslash and c2 stand for, if any. */
  function Unescaped(c2: char): Option<char> {
    match c2
    case '\'' => Some('\'')
    case '"' => Some('"')
    case 'n' => Some('\n')
    case 'r' => Some('\r')
    case 't' => Some('\t')
    case '\\' => Some('\\')
    case _ => None
  }

  /** A backslash in front of any other character, or at the end, stays. */
  function Unescape(s: string): string {
    if s == "" then ""
    else if s[0] == '\\' && |s| > 1 && Unescaped(s[1]).Some? then [Unescaped(s[1]).value] + Unescape(s[2..])
    else [s[0]] + Unescape(s[1..])
  }

  lemma {:induction false} UnescapeEscape(s: string)
    ensures Unescape(Escape(s)) == s
  {
    if s != "" {
      var e, rest := EscapeChar(s[0]), Escape(s[1..]);
      UnescapeEscape(s[1..]);
      if |e| == 2 {
        assert (e + rest)[2..] == rest;
      } else {
        assert (e + rest)[1..] == rest;
      }
    }
  }

  /** An escaped text between quotes is one string literal, whatever else it contains. */
  lemma {:induction false} EscapeIsSafe(s: string)
    requires '\0' !in s
    ensures QuoteSafe(Escape(s))
  {
    if s != "" {
      var e, rest := EscapeChar(s[0]), Escape(s[1..]);
      EscapeIsSafe(s[1..]);
      if |e| == 2 {
        assert (e + rest)[1..] == [e[1]] + rest;
        assert ([e[1]] + rest)[1..] == rest;
      } else {
        assert (e + rest)[1..] == rest;
      }
    }
  }

  // ----- what section 7 of RFC 8259 says of strings

  /** No line feed, carriage return or tab, which a string may not contain as they are. */
  predicate NoRaw(s: string) { '\n' !in s && '\r' !in s && '\t' !in s }

  /** Escaped text has none of them, whatever the string is. */
  lemma {:induction false} EscapeHasNoRaw(s: string)
    ensures NoRaw(Escape(s))
  {
    if s != "" { EscapeHasNoRaw(s[1..]); }
  }

  /** Exactly the strings without them, without quotes and without backslashes are left as they are. */
  lemma {:induction false} EscapeKeepsExactly(s: string)
    ensures Escape(s) == s <==> NoRaw(s) && '"' !in s && '\\' !in s
    ensures |Escape(s)| >= |s|
  {
    if s != "" {
      var e, rest := EscapeChar(s[0]), s[1..];
      EscapeKeepsExactly(rest);
      assert s == [s[0]] + rest;
      if |e| == 1 {
        assert Escape(s) == [s[0]] + Escape(rest);
        if Escape(s) == s { assert Escape(rest) == Escape(s)[1..] == rest; }
      }
    }
  }

  /** The two-character escapes of the grammar, by the code points it gives. */
  function StandardEscape(c2: char): Option<char> {
    match c2
    case '"' => Some('\U{0022}')
    case '\\' => Some('\U{005C}')
    case '/' => Some('\U{002F}')
    case 'b' => Some('\U{0008}')
    case 'f' => Some('\U{000C}')
    case 'n' => Some('\U{000A}')
    case 'r' => Some('\U{000D}')
    case 't' => Some('\U{0009}')
    case _ => None
  }

  /** What is written is always such an escape, and the one for the character. */
  lemma EscapeIsStandard(c: char)
    ensures var e := EscapeChar(c);
            if |e| == 2 then e[0] == '\\' && StandardEscape(e[1]) == Some(c) else e == [c]
  {
  }

  /** What is read agrees with the grammar on every character but four: \' is read in addition, and \/,
      \b and \f are left as they are. */
  lemma UnescapedAgainstStandard(c2: char)
    ensures Unescaped(c2) == StandardEscape(c2) <==> c2 != '\'' && c2 != '/' && c2 != 'b' && c2 != 'f'
    ensures Unescaped('\'') == Some('\'') && Unescaped('/').None? && Unescaped('b').None? && Unescaped('f').None?
  {
  }

  /** Text without a backslash is not changed by unescaping. */
  lemma {:induction false} UnescapePlain(s: string)
    requires '\\' !in s
    ensures Unescape(s) == s
  {
    if s != "" { UnescapePlain(s[1..]); }
  }

  method EscapeLoop(st: string) returns (ret: string)
    ensures ret == Escape(st)
  {
    ret := "";
    for i := 0 to |st|
      invariant ret + Escape(st[i..]) == Escape(st)
    {
      assert st[i..][1..] == st[i + 1..];
      ghost var before := ret;
      match st[i] {
        case '"' => ret := ret + "\\\"";
        case '\n' => ret := ret + "\\n";
        case '\r' => ret := ret + "\\r";
        case '\t' => ret := ret + "\\t";
        case '\\' => ret := ret + "\\\\";
        case c => ret := ret + [c];
      }
      Regroup(before, EscapeChar(st[i]), Escape(st[i + 1..]));
    }
  }

  method UnescapeLoop(st: string) returns (ret: string)
    ensures ret == Unescape(st)
  {
    if |st| < 1 {
      return "";
    }
    ret := "";
    var i := 0;
    while i < |st|
      invariant i <= |st|
      invariant ret + Unescape(st[i..]) == Unescape(st)
    {
      UnescapeStep(st, i);
      ghost var before := ret;
      var c := st[i];
      var take := 1;
      if c == '\\' && i < |st| - 1 {
        var c2 := Unescaped(st[i + 1]);
        if c2.Some? {
          c := c2.value;
          take := 2;
        }
      }
      ret := ret + [c];
      i := i + take;
      Regroup(before, [c], Unescape(st[i..]));
    }
  }

  lemma UnescapeStep(st: string, i: nat)
    requires i < |st|
    ensures Unescape(st[i..]) ==
              if st[i] == '\\' && i + 1 < |st| && Unescaped(st[i + 1]).Some?
              then [Unescaped(st[i + 1]).value] + Unescape(st[i + 2..])
              else [st[i]] + Unescape(st[i + 1..])
  {
    var rest := st[i..];
    assert rest[1..] == st[i + 1..];
    if i + 1 < |st| { assert rest[2..] == st[i + 2..]; }
  }
}
