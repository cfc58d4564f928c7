/** JSON trees and how they are printed: json/Object.cpp, json/List.cpp and json/Value.cpp. */
module JsonDoc {
  import opened Common
  import opened JsonText
  import opened JsonScan

  datatype SubType = Illegal | Double | Int | UInt | String | Bool

  /** A tree with the members of its objects in the order in which the hash map iterates over them. */
  datatype Doc = Obj(members: seq<Member>) | Lst(elems: seq<Doc>) | Val(text: string, subType: SubType)

  datatype Member = Member(key: string, value: Doc)

  // ----- printing

  /** Plain is level -1 of stringify; Compact is the same text without whitespace outside strings. */
  datatype Style = Compact | Plain | Indented(level: nat)

  function Tabs(n: nat): string { seq(n, _ => '\t') }

  function Newline(st: Style): string { if st.Indented? then "\r\n" else "" }

  function Pad(st: Style): string { if st.Indented? then Tabs(st.level) else "" }

  function EndPad(st: Style): string { if st.Indented? && st.level > 0 then Tabs(st.level - 1) else "" }

  function Colon(st: Style): string { if st == Compact then ":" else " : " }

  function Comma(more: bool): string { if more then "," else "" }

  function Deeper(st: Style): Style { if st.Indented? then Indented(st.level + 1) else st }

  function Quoted(s: string): string { "\"" + s + "\"" }

  function PrintValue(text: string, subType: SubType): string {
    if subType == String || subType == Illegal then Quoted(Escape(text)) else text
  }

  function Print(d: Doc, st: Style): string
    decreases d, 1
  {
    match d
    case Obj(ms) => "{" + (Newline(st) + PrintMembers(ms, st) + EndPad(st)) + "}"
    case Lst(es) => "[" + (Newline(st) + PrintElems(es, st) + EndPad(st)) + "]"
    case Val(text, subType) => PrintValue(text, subType)
  }

  function PrintMember(m: Member, st: Style): string
    decreases m, 2
  {
    Quoted(m.key) + Colon(st) + Print(m.value, Deeper(st))
  }

  function PrintMembers(ms: seq<Member>, st: Style): string
    decreases ms, 0
  {
    if ms == [] then ""
    else Pad(st) + PrintMember(ms[0], st) + (Comma(|ms| > 1) + Newline(st)) + PrintMembers(ms[1..], st)
  }

  function PrintElems(es: seq<Doc>, st: Style): string
    decreases es, 0
  {
    if es == [] then ""
    else Pad(st) + Print(es[0], Deeper(st)) + (Comma(|es| > 1) + Newline(st)) + PrintElems(es[1..], st)
  }

  /** The keys of every object differ. */
  predicate DistinctKeys(d: Doc) {
    match d
    case Obj(ms) =>
      && (forall i, j :: 0 <= i < j < |ms| ==> ms[i].key != ms[j].key)
      && (forall i :: 0 <= i < |ms| ==> DistinctKeys(ms[i].value))
    case Lst(es) => forall i :: 0 <= i < |es| ==> DistinctKeys(es[i])
    case Val(_, _) => true
  }

  /** Items with what the print loops put around them; `more` tells whether the last one has another
      item behind it. */
  function Join(items: seq<string>, st: Style, more: bool): string {
    if items == [] then ""
    else Pad(st) + items[0] + (Comma(|items| > 1 || more) + Newline(st)) + Join(items[1..], st, more)
  }

  lemma {:induction false} JoinAppend(items: seq<string>, item: string, st: Style, more: bool)
    ensures Join(items + [item], st, more)
            == Join(items, st, true) + (Pad(st) + item + (Comma(more) + Newline(st)))
  {
    if items == [] {
      assert [] + [item] == [item] && [item][1..] == [];
    } else {
      JoinAppend(items[1..], item, st, more);
      assert (items + [item])[1..] == items[1..] + [item];
      Regroup(Pad(st) + items[0] + (Comma(true) + Newline(st)), Join(items[1..], st, true),
              Pad(st) + item + (Comma(more) + Newline(st)));
    }
  }

  function MemberTexts(ms: seq<Member>, st: Style): (r: seq<string>)
    ensures |r| == |ms|
  {
    if ms == [] then [] else [PrintMember(ms[0], st)] + MemberTexts(ms[1..], st)
  }

  function ElemTexts(es: seq<Doc>, st: Style): (r: seq<string>)
    ensures |r| == |es|
  {
    if es == [] then [] else [Print(es[0], Deeper(st))] + ElemTexts(es[1..], st)
  }

  lemma {:induction false} MembersAreJoined(ms: seq<Member>, st: Style)
    ensures PrintMembers(ms, st) == Join(MemberTexts(ms, st), st, false)
  {
    hide PrintMember;
    if ms != [] { MembersAreJoined(ms[1..], st); }
  }

  lemma {:induction false} ElemsAreJoined(es: seq<Doc>, st: Style)
    ensures PrintElems(es, st) == Join(ElemTexts(es, st), st, false)
  {
    hide Print;
    if es != [] { ElemsAreJoined(es[1..], st); }
  }

  lemma {:induction false} MemberTextsAppend(ms: seq<Member>, m: Member, st: Style)
    ensures MemberTexts(ms + [m], st) == MemberTexts(ms, st) + [PrintMember(m, st)]
  {
    hide PrintMember;
    if ms != [] {
      MemberTextsAppend(ms[1..], m, st);
      assert (ms + [m])[1..] == ms[1..] + [m];
    } else {
      assert [] + [m] == [m] && [m][1..] == [];
    }
  }

  lemma {:induction false} ElemTextsAppend(es: seq<Doc>, e: Doc, st: Style)
    ensures ElemTexts(es + [e], st) == ElemTexts(es, st) + [Print(e, Deeper(st))]
  {
    hide Print;
    if es != [] {
      ElemTextsAppend(es[1..], e, st);
      assert (es + [e])[1..] == es[1..] + [e];
    } else {
      assert [] + [e] == [e] && [e][1..] == [];
    }
  }

  // ----- literal names and numbers

  function ToLower(c: char): char { if 'A' <= c <= 'Z' then c - 'A' + 'a' else c }

  function LowerAll(s: string): (r: string)
    ensures |r| == |s| && forall i :: 0 <= i < |s| ==> r[i] == ToLower(s[i])
  {
    seq(|s|, i requires 0 <= i < |s| => ToLower(s[i]))
  }

  /** The loop of validateNakedValue from a character on. */
  function Check(s: string, first: bool, dot: bool, nrv: SubType): SubType {
    if s == "" then nrv
    else if s[0] == '-' then
      if !first then Illegal else Check(s[1..], false, dot, if nrv != Double then UInt else nrv)
    else if s[0] == '.' then
      if dot then Illegal else Check(s[1..], false, true, Double)
    else if s[0] < '0' || s[0] > '9' then Illegal
    else Check(s[1..], false, dot, nrv)
  }

  function Validate(s: string): SubType {
    if s == "" then Illegal
    else if LowerAll(s) == "true" || LowerAll(s) == "false" then Bool
    else Check(s, true, false, Int)
  }

  predicate Digits(s: string) { forall i :: 0 <= i < |s| ==> '0' <= s[i] <= '9' }

  /** One dot, and digits around it. */
  predicate DottedAt(s: string, k: nat) { k < |s| && s[k] == '.' && Digits(s[..k]) && Digits(s[k + 1..]) }

  ghost predicate Dotted(s: string) { exists k: nat :: DottedAt(s, k) }

  function Unsigned(s: string): string { if s != "" && s[0] == '-' then s[1..] else s }

  /** Which texts are accepted, and as what: digits are an Int, a minus sign with digits or nothing behind
      it is a UInt, one dot with digits or nothing around it and at most a minus sign in front is a Double,
      true and false in any case are Bool; everything else is Illegal. */
  lemma ValidateExactly(s: string)
    ensures Validate(s) == Int <==> s != "" && Digits(s)
    ensures Validate(s) == UInt <==> s != "" && s[0] == '-' && Digits(s[1..])
    ensures Validate(s) == Double <==> Dotted(Unsigned(s))
    ensures Validate(s) == Bool <==> LowerAll(s) == "true" || LowerAll(s) == "false"
    ensures Validate(s) != String
  {
    if s != "" {
      if LowerAll(s) == "true" || LowerAll(s) == "false" {
        assert LowerAll(s)[0] == ToLower(s[0]);
        LetterIsNoNumber(s);
      } else if s[0] == '-' {
        CheckExactly(s[1..], false, UInt);
      } else {
        FirstIsNoSign(s, Int);
        CheckExactly(s, false, Int);
      }
    }
  }

  lemma HeadIsDigit(s: string, k: nat)
    requires k > 0 && DottedAt(s, k)
    ensures '0' <= s[0] <= '9'
  {
    assert s[..k][0] == s[0];
  }

  lemma LetterIsNoNumber(s: string)
    requires s != "" && s[0] != '-' && s[0] != '.' && !('0' <= s[0] <= '9')
    ensures !Digits(s) && !Dotted(Unsigned(s))
  {
    forall k: nat ensures !DottedAt(s, k) {
      if k > 0 && DottedAt(s, k) { HeadIsDigit(s, k); }
    }
  }

  lemma FirstIsNoSign(s: string, nrv: SubType)
    requires s != "" && s[0] != '-'
    ensures Check(s, true, false, nrv) == Check(s, false, false, nrv)
  {
  }

  /** Behind the first character: before a dot the type stays on digits, behind it nothing but digits. */
  lemma {:induction false} CheckExactly(s: string, dot: bool, nrv: SubType)
    requires if dot then nrv == Double else nrv == Int || nrv == UInt
    ensures Check(s, false, dot, nrv)
            == if Digits(s) then nrv else if !dot && Dotted(s) then Double else Illegal
  {
    if s != "" {
      var t := s[1..];
      DigitsCons(s);
      if s[0] == '.' {
        if !dot { CheckExactly(t, true, Double); }
      } else if s[0] != '-' && '0' <= s[0] <= '9' {
        CheckExactly(t, dot, nrv);
      }
    } else {
      assert !Dotted(s);
    }
  }

  lemma DottedBehind(s: string, k: nat)
    requires s != ""
    ensures DottedAt(s, k + 1) <==> '0' <= s[0] <= '9' && DottedAt(s[1..], k)
  {
    var t := s[1..];
    if k < |t| {
      var a, b := s[..k + 1], t[..k];
      assert a == [s[0]] + b && s[k + 1 + 1..] == t[k + 1..];
      assert forall i :: 0 <= i < k ==> b[i] == a[i + 1];
      assert forall i :: 0 < i < k + 1 ==> a[i] == b[i - 1];
      assert a[0] == s[0];
    }
  }

  lemma DigitsCons(s: string)
    requires s != ""
    ensures Digits(s) <==> '0' <= s[0] <= '9' && Digits(s[1..])
    ensures Dotted(s) <==> if s[0] == '.' then Digits(s[1..]) else '0' <= s[0] <= '9' && Dotted(s[1..])
  {
    var t := s[1..];
    assert forall i :: 0 < i < |s| ==> s[i] == t[i - 1];
    if s[0] == '.' {
      assert s[..0] == "";
      forall k: nat | DottedAt(s, k) ensures k == 0 { if k > 0 { HeadIsDigit(s, k); } }
      if Digits(t) { assert DottedAt(s, 0); }
    } else {
      forall k: nat ensures DottedAt(s, k + 1) <==> '0' <= s[0] <= '9' && DottedAt(t, k) { DottedBehind(s, k); }
      if Dotted(s) {
        var k: nat :| DottedAt(s, k);
        assert k > 0 && DottedAt(s, k - 1 + 1);
        assert DottedAt(t, k - 1);
      }
      if '0' <= s[0] <= '9' && Dotted(t) {
        var k: nat :| DottedAt(t, k);
        assert DottedAt(s, k + 1);
      }
    }
  }

  method ValidateNakedValue(ret: string) returns (nrv: SubType)
    ensures nrv == Validate(ret)
  {
    if |ret| < 1 {
      return Illegal;
    }
    var tmp := LowerAll(ret);
    if tmp == "true" || tmp == "false" {
      return Bool;
    }
    var dot := false;
    nrv := Int;
    for i := 0 to |ret|
      invariant Check(ret[i..], i == 0, dot, nrv) == Check(ret, true, false, Int)
    {
      assert ret[i..][1..] == ret[i + 1..];
      if ret[i] == '-' {
        if i != 0 {
          nrv := Illegal;
          return;
        } else if nrv != Double {
          nrv := UInt;
        }
      } else if ret[i] == '.' {
        if dot {
          nrv := Illegal;
          return;
        } else {
          dot := true;
          nrv := Double;
        }
      } else if ret[i] < '0' || ret[i] > '9' {
        nrv := Illegal;
        return;
      }
    }
  }

  predicate Numeric(subType: SubType) { subType == Int || subType == UInt || subType == Double }

  predicate NakedChar(c: char) {
    '0' <= c <= '9' || 'a' <= c <= 'z' || 'A' <= c <= 'Z' || c == '.' || c == '-'
  }

  predicate Naked(s: string) { forall i :: 0 <= i < |s| ==> NakedChar(s[i]) }

  lemma {:induction false} CheckedIsNaked(s: string, first: bool, dot: bool, nrv: SubType)
    requires Check(s, first, dot, nrv) != Illegal && nrv != Bool && nrv != String
    ensures Naked(s) && Check(s, first, dot, nrv) != Bool && Check(s, first, dot, nrv) != String
  {
    if s != "" {
      var nrv' := if s[0] == '.' then Double else if s[0] == '-' && nrv != Double then UInt else nrv;
      CheckedIsNaked(s[1..], false, dot || s[0] == '.', nrv');
      assert forall i :: 0 < i < |s| ==> s[i] == s[1..][i - 1];
    }
  }

  lemma ValidateIsNaked(s: string)
    requires Validate(s) != Illegal
    ensures Naked(s) && s != "" && (Validate(s) == Bool || Numeric(Validate(s)))
  {
    if LowerAll(s) == "true" || LowerAll(s) == "false" {
      forall i | 0 <= i < |s| ensures NakedChar(s[i]) {
        assert LowerAll(s)[i] == ToLower(s[i]);
        assert LowerAll(s)[i] in "true" || LowerAll(s)[i] in "false";
      }
    } else {
      CheckedIsNaked(s, true, false, Int);
    }
  }

  // ----- the trees that survive printing and parsing

  predicate SoundKey(k: string) { k != "" && QuoteSafe(k) }

  predicate SoundValue(text: string, subType: SubType) {
    match subType
    case String => '\0' !in text
    case Illegal => '\0' !in text
    case Bool => text == "true" || text == "false"
    case _ => Numeric(Validate(text))
  }

  predicate SoundDoc(d: Doc) {
    match d
    case Obj(ms) => forall i :: 0 <= i < |ms| ==> SoundKey(ms[i].key) && SoundDoc(ms[i].value)
    case Lst(es) => forall i :: 0 <= i < |es| ==> SoundDoc(es[i])
    case Val(text, subType) => SoundValue(text, subType)
  }

  lemma PlainText(text: string, subType: SubType)
    requires SoundValue(text, subType) && subType != String && subType != Illegal
    ensures Naked(text) && text != ""
  {
    if subType != Bool { ValidateIsNaked(text); }
  }

  // ----- the bracket finders pass over printed trees

  lemma BalancedSpaces(b: Brackets, p: string)
    requires Proper(b) && forall i :: 0 <= i < |p| ==> IsSpace(p[i])
    ensures Balanced(b, p)
  {
    BalancedPlain(b, p);
  }

  lemma BalancedValue(b: Brackets, text: string, subType: SubType)
    requires Proper(b) && SoundValue(text, subType)
    ensures Balanced(b, PrintValue(text, subType))
  {
    if subType == String || subType == Illegal {
      EscapeIsSafe(text);
      BalancedString(b, Escape(text));
    } else {
      PlainText(text, subType);
      BalancedPlain(b, text);
    }
  }

  /** Bracketed text is passed over by the finder of its own kind and by the other one. */
  lemma BalancedBrackets(b: Brackets, own: Brackets, p: string)
    requires Proper(b) && Proper(own) && Balanced(b, p)
    ensures Balanced(b, [own.open] + p + [own.close])
  {
    hide Balanced;
    if b == own {
      BalancedNested(b, p);
    } else {
      BalancedChar(b, own.open);
      BalancedChar(b, own.close);
      BalancedConcat(b, [own.open], p);
      BalancedConcat(b, [own.open] + p, [own.close]);
    }
  }

  lemma {:induction false} BalancedPrint(b: Brackets, d: Doc, st: Style)
    requires Proper(b) && SoundDoc(d)
    ensures Balanced(b, Print(d, st))
    decreases d, 1
  {
    hide Balanced;
    match d
    case Val(text, subType) => BalancedValue(b, text, subType);
    case Obj(ms) => BalancedMembers(b, ms, st); BalancedAround(b, CURLY, PrintMembers(ms, st), st);
    case Lst(es) => BalancedElems(b, es, st); BalancedAround(b, SQUARE, PrintElems(es, st), st);
  }

  function Inner(body: string, st: Style): string { Newline(st) + body + EndPad(st) }

  lemma BalancedInner(b: Brackets, body: string, st: Style)
    requires Proper(b) && Balanced(b, body)
    ensures Balanced(b, Inner(body, st))
  {
    hide Balanced;
    BalancedSpaces(b, Newline(st));
    BalancedSpaces(b, EndPad(st));
    BalancedConcat(b, Newline(st), body);
    BalancedConcat(b, Newline(st) + body, EndPad(st));
  }

  lemma BalancedAround(b: Brackets, own: Brackets, body: string, st: Style)
    requires Proper(b) && Proper(own) && Balanced(b, body)
    ensures Balanced(b, [own.open] + Inner(body, st) + [own.close])
  {
    BalancedInner(b, body, st);
    BalancedBrackets(b, own, Inner(body, st));
  }

  /** One member or element with what surrounds it, in front of the rest. */
  lemma BalancedItem(b: Brackets, item: string, more: bool, rest: string, st: Style)
    requires Proper(b) && Balanced(b, item) && Balanced(b, rest)
    ensures Balanced(b, Pad(st) + item + (Comma(more) + Newline(st)) + rest)
  {
    hide Balanced;
    BalancedSpaces(b, Pad(st));
    BalancedPlain(b, Comma(more) + Newline(st));
    BalancedConcat(b, Pad(st), item);
    BalancedConcat(b, Pad(st) + item, Comma(more) + Newline(st));
    BalancedConcat(b, Pad(st) + item + (Comma(more) + Newline(st)), rest);
  }

  lemma {:induction false} BalancedMembers(b: Brackets, ms: seq<Member>, st: Style)
    requires Proper(b) && forall i :: 0 <= i < |ms| ==> SoundKey(ms[i].key) && SoundDoc(ms[i].value)
    ensures Balanced(b, PrintMembers(ms, st))
    decreases ms, 0
  {
    hide Balanced;
    if ms == [] {
      BalancedEmpty(b);
    } else {
      var m := ms[0];
      BalancedString(b, m.key);
      BalancedPlain(b, Colon(st));
      BalancedPrint(b, m.value, Deeper(st));
      BalancedConcat(b, Quoted(m.key), Colon(st));
      BalancedConcat(b, Quoted(m.key) + Colon(st), Print(m.value, Deeper(st)));
      BalancedMembers(b, ms[1..], st);
      BalancedItem(b, PrintMember(m, st), |ms| > 1, PrintMembers(ms[1..], st), st);
    }
  }

  lemma {:induction false} BalancedElems(b: Brackets, es: seq<Doc>, st: Style)
    requires Proper(b) && forall i :: 0 <= i < |es| ==> SoundDoc(es[i])
    ensures Balanced(b, PrintElems(es, st))
    decreases es, 0
  {
    hide Balanced;
    if es == [] {
      BalancedEmpty(b);
    } else {
      BalancedPrint(b, es[0], Deeper(st));
      BalancedElems(b, es[1..], st);
      BalancedItem(b, Print(es[0], Deeper(st)), |es| > 1, PrintElems(es[1..], st), st);
    }
  }

  /** The finder of its kind returns exactly the length of a printed object or list, at any nesting
      depth, whatever its strings contain and whatever follows it. */
  lemma FindsEndOfPrint(d: Doc, st: Style, rest: string)
    requires SoundDoc(d) && !d.Val?
    ensures FindClosing(if d.Obj? then CURLY else SQUARE, Print(d, st) + rest) == Some(|Print(d, st)|)
  {
    hide Balanced, FindClosing, PrintMembers, PrintElems;
    match d
    case Obj(ms) =>
      BalancedMembers(CURLY, ms, st);
      BalancedInner(CURLY, PrintMembers(ms, st), st);
      FindsClosing(CURLY, Inner(PrintMembers(ms, st), st), rest);
    case Lst(es) =>
      BalancedElems(SQUARE, es, st);
      BalancedInner(SQUARE, PrintElems(es, st), st);
      FindsClosing(SQUARE, Inner(PrintElems(es, st), st), rest);
  }

  // ----- the whitespace pass makes every print compact

  lemma StripsValue(text: string, subType: SubType)
    requires SoundValue(text, subType)
    ensures Strips(PrintValue(text, subType), PrintValue(text, subType))
  {
    if subType == String || subType == Illegal {
      EscapeIsSafe(text);
      StripsString(Escape(text));
    } else {
      PlainText(text, subType);
      StripsPlain(text);
    }
  }

  lemma StripsColon(st: Style)
    ensures Strips(Colon(st), ":")
  {
    hide Strips;
    StripsPlain(":");
    if st != Compact {
      StripsSpaces(" ");
      StripsConcat(" ", "", ":", ":");
      assert " " + ":" == " :" && "" + ":" == ":";
      StripsConcat(" :", ":", " ", "");
      assert " :" + " " == " : " && ":" + "" == ":";
    }
  }

  lemma StripsInner(body: string, compact: string, st: Style)
    requires Strips(body, compact)
    ensures Strips(Inner(body, st), Inner(compact, Compact))
  {
    hide Strips;
    StripsSpaces(Newline(st));
    StripsSpaces(EndPad(st));
    StripsConcat(Newline(st), "", body, compact);
    StripsConcat(Newline(st) + body, "" + compact, EndPad(st), "");
  }

  lemma StripsAround(own: Brackets, body: string, compact: string, st: Style)
    requires Proper(own) && Strips(body, compact)
    ensures Strips([own.open] + Inner(body, st) + [own.close], [own.open] + Inner(compact, Compact) + [own.close])
  {
    hide Strips;
    StripsInner(body, compact, st);
    StripsPlain([own.open]);
    StripsPlain([own.close]);
    StripsConcat([own.open], [own.open], Inner(body, st), Inner(compact, Compact));
    StripsConcat([own.open] + Inner(body, st), [own.open] + Inner(compact, Compact), [own.close], [own.close]);
  }

  lemma StripsItem(item: string, item': string, more: bool, rest: string, rest': string, st: Style)
    requires Strips(item, item') && Strips(rest, rest')
    ensures Strips(Pad(st) + item + (Comma(more) + Newline(st)) + rest,
                   Pad(Compact) + item' + (Comma(more) + Newline(Compact)) + rest')
  {
    hide Strips;
    StripsSpaces(Pad(st));
    StripsSpaces(Newline(st));
    StripsPlain(Comma(more));
    StripsConcat(Comma(more), Comma(more), Newline(st), "");
    StripsConcat(Pad(st), "", item, item');
    StripsConcat(Pad(st) + item, "" + item', Comma(more) + Newline(st), Comma(more) + "");
    StripsConcat(Pad(st) + item + (Comma(more) + Newline(st)), "" + item' + (Comma(more) + ""), rest, rest');
  }

  lemma {:induction false} StripsPrint(d: Doc, st: Style)
    requires SoundDoc(d)
    ensures Strips(Print(d, st), Print(d, Compact))
    decreases d, 1
  {
    hide Strips;
    match d
    case Val(text, subType) => StripsValue(text, subType);
    case Obj(ms) =>
      StripsMembers(ms, st);
      StripsAround(CURLY, PrintMembers(ms, st), PrintMembers(ms, Compact), st);
    case Lst(es) =>
      StripsElems(es, st);
      StripsAround(SQUARE, PrintElems(es, st), PrintElems(es, Compact), st);
  }

  lemma {:induction false} StripsMembers(ms: seq<Member>, st: Style)
    requires forall i :: 0 <= i < |ms| ==> SoundKey(ms[i].key) && SoundDoc(ms[i].value)
    ensures Strips(PrintMembers(ms, st), PrintMembers(ms, Compact))
    decreases ms, 0
  {
    hide Strips;
    if ms == [] {
      StripsEmpty();
    } else {
      var m, v, v' := ms[0], Print(ms[0].value, Deeper(st)), Print(ms[0].value, Compact);
      StripsString(m.key);
      StripsColon(st);
      StripsPrint(m.value, Deeper(st));
      StripsConcat(Quoted(m.key), Quoted(m.key), Colon(st), ":");
      StripsConcat(Quoted(m.key) + Colon(st), Quoted(m.key) + ":", v, v');
      StripsMembers(ms[1..], st);
      StripsItem(PrintMember(m, st), PrintMember(m, Compact), |ms| > 1,
                 PrintMembers(ms[1..], st), PrintMembers(ms[1..], Compact), st);
    }
  }

  lemma {:induction false} StripsElems(es: seq<Doc>, st: Style)
    requires forall i :: 0 <= i < |es| ==> SoundDoc(es[i])
    ensures Strips(PrintElems(es, st), PrintElems(es, Compact))
    decreases es, 0
  {
    hide Strips;
    if es == [] {
      StripsEmpty();
    } else {
      StripsPrint(es[0], Deeper(st));
      StripsElems(es[1..], st);
      StripsItem(Print(es[0], Deeper(st)), Print(es[0], Compact), |es| > 1,
                 PrintElems(es[1..], st), PrintElems(es[1..], Compact), st);
    }
  }

  /** Formatting means nothing to the parser: at every indent level, and unformatted, a print becomes
      the same text. */
  lemma FormattingIsStripped(d: Doc, st: Style)
    requires SoundDoc(d)
    ensures RemoveSpaces(Print(d, st)) == Print(d, Compact)
  {
    StripsPrint(d, st);
    assert Print(d, st) + "" == Print(d, st);
    assert RemoveSpaces(Print(d, st) + "") == Print(d, Compact) + RemoveSpaces("");
  }

  // ----- raw line breaks and tabs

  /** No key and no text that is printed as it is has a raw line break or tab. */
  predicate NoRawDoc(d: Doc) {
    match d
    case Obj(ms) => forall i :: 0 <= i < |ms| ==> NoRaw(ms[i].key) && NoRawDoc(ms[i].value)
    case Lst(es) => forall i :: 0 <= i < |es| ==> NoRawDoc(es[i])
    case Val(text, subType) => subType == String || subType == Illegal || NoRaw(text)
  }

  lemma NoRawConcat(a: string, b: string)
    ensures NoRaw(a + b) <==> NoRaw(a) && NoRaw(b)
  {
  }

  lemma {:induction false} PrintHasNoRaw(d: Doc, st: Style)
    requires !st.Indented?
    ensures NoRaw(Print(d, st)) <==> NoRawDoc(d)
    decreases d, 1
  {
    hide NoRaw;
    match d
    case Obj(ms) => MembersHaveNoRaw(ms, st); NoRawAround("{", PrintMembers(ms, st), "}");
    case Lst(es) => ElemsHaveNoRaw(es, st); NoRawAround("[", PrintElems(es, st), "]");
    case Val(text, subType) =>
      EscapeHasNoRaw(text);
      NoRawAround("\"", Escape(text), "\"");
  }

  lemma NoRawAround(open: string, body: string, close: string)
    requires NoRaw(open) && NoRaw(close)
    ensures NoRaw(open + body + close) <==> NoRaw(body)
    ensures NoRaw(open + ("" + body + "") + close) <==> NoRaw(body)
  {
  }

  lemma {:induction false} MembersHaveNoRaw(ms: seq<Member>, st: Style)
    requires !st.Indented?
    ensures NoRaw(PrintMembers(ms, st))
            <==> forall i :: 0 <= i < |ms| ==> NoRaw(ms[i].key) && NoRawDoc(ms[i].value)
    decreases ms, 0
  {
    hide Print, NoRaw, NoRawDoc;
    NothingRaw(st);
    if ms != [] {
      var m, rest := ms[0], ms[1..];
      var p := Print(m.value, Deeper(st));
      PrintHasNoRaw(m.value, Deeper(st));
      MembersHaveNoRaw(rest, st);
      NoRawAround("\"", m.key, "\"");
      NoRawConcat(Quoted(m.key), Colon(st));
      NoRawConcat(Quoted(m.key) + Colon(st), p);
      NoRawItem(PrintMember(m, st), |ms| > 1, PrintMembers(rest, st), st);
      ShiftedItems(ms);
    }
  }

  lemma {:induction false} ElemsHaveNoRaw(es: seq<Doc>, st: Style)
    requires !st.Indented?
    ensures NoRaw(PrintElems(es, st)) <==> forall i :: 0 <= i < |es| ==> NoRawDoc(es[i])
    decreases es, 0
  {
    hide Print, NoRaw, NoRawDoc;
    NothingRaw(st);
    if es != [] {
      PrintHasNoRaw(es[0], Deeper(st));
      ElemsHaveNoRaw(es[1..], st);
      NoRawItem(Print(es[0], Deeper(st)), |es| > 1, PrintElems(es[1..], st), st);
      ShiftedItems(es);
    }
  }

  lemma NothingRaw(st: Style)
    ensures NoRaw("") && NoRaw("\"") && NoRaw(Colon(st)) && NoRaw(",")
  {
  }

  lemma NoRawItem(item: string, more: bool, rest: string, st: Style)
    requires !st.Indented?
    ensures NoRaw(Pad(st) + item + (Comma(more) + Newline(st)) + rest) <==> NoRaw(item) && NoRaw(rest)
  {
  }

  /** A formatted print has them only as whitespace between its tokens: the whitespace pass, which copies
      every string literal whole, leaves none. */
  lemma FormattedHasNoRaw(d: Doc, st: Style)
    requires SoundDoc(d)
    ensures NoRaw(RemoveSpaces(Print(d, st))) <==> NoRawDoc(d)
  {
    FormattingIsStripped(d, st);
    PrintHasNoRaw(d, Compact);
  }

  // ----- layout

  /** What formatted prints look like, here two levels deep: one member or element a line, a tab for every
      level in front, " : " behind keys, a comma behind all but the last, and the closing bracket one tab
      further out. */
  lemma LayoutOfTwo(a: string, x: Doc, b: string, y: Doc)
    ensures Print(Obj([Member(a, x), Member(b, y)]), Indented(2))
            == "{" + "\r\n" + ("\t\t" + ("\"" + a + "\"" + " : " + Print(x, Indented(3))) + "," + "\r\n")
               + ("\t\t" + ("\"" + b + "\"" + " : " + Print(y, Indented(3))) + "\r\n") + "\t" + "}"
    ensures Print(Lst([x, y]), Indented(2))
            == "[" + "\r\n" + ("\t\t" + Print(x, Indented(3)) + "," + "\r\n")
               + ("\t\t" + Print(y, Indented(3)) + "\r\n") + "\t" + "]"
  {
    hide Print, Tabs;
    TwoTabs();
    var st := Indented(2);
    assert Pad(st) == "\t\t" && EndPad(st) == "\t" && Newline(st) == "\r\n" && Deeper(st) == Indented(3);
    TwoPrinted(Member(a, x), Member(b, y), st);
  }

  lemma TwoPrinted(m: Member, n: Member, st: Style)
    ensures Print(Obj([m, n]), st)
            == "{" + Newline(st) + (Pad(st) + PrintMember(m, st) + "," + Newline(st))
               + (Pad(st) + PrintMember(n, st) + Newline(st)) + EndPad(st) + "}"
    ensures Print(Lst([m.value, n.value]), st)
            == "[" + Newline(st) + (Pad(st) + Print(m.value, Deeper(st)) + "," + Newline(st))
               + (Pad(st) + Print(n.value, Deeper(st)) + Newline(st)) + EndPad(st) + "]"
  {
    hide Print, PrintMember, PrintMembers, PrintElems, Pad, EndPad, Newline;
    var x, y := m.value, n.value;
    TwoMembers(m, n, st);
    TwoElems(x, y, st);
    PrintBoth([m, n], [x, y], st);
    TwoItems("{", Newline(st), Pad(st), PrintMember(m, st), PrintMember(n, st), EndPad(st), "}");
    TwoItems("[", Newline(st), Pad(st), Print(x, Deeper(st)), Print(y, Deeper(st)), EndPad(st), "]");
  }

  lemma TwoItems(open: string, nl: string, pad: string, i: string, j: string, end: string, close: string)
    ensures open + (nl + ((pad + i + ("," + nl)) + (pad + j + ("" + nl))) + end) + close
            == open + nl + (pad + i + "," + nl) + (pad + j + nl) + end + close
  {
  }

  lemma TwoTabs()
    ensures Tabs(2) == "\t\t" && Tabs(1) == "\t"
  {
  }

  lemma TwoMembers(m: Member, n: Member, st: Style)
    ensures PrintMembers([m, n], st)
            == (Pad(st) + PrintMember(m, st) + ("," + Newline(st)))
               + (Pad(st) + PrintMember(n, st) + ("" + Newline(st)))
  {
    hide PrintMember;
    assert [m, n][1..] == [n] && [n][1..] == [];
    assert PrintMembers([n], st) == Pad(st) + PrintMember(n, st) + ("" + Newline(st)) + "";
  }

  lemma TwoElems(x: Doc, y: Doc, st: Style)
    ensures PrintElems([x, y], st)
            == (Pad(st) + Print(x, Deeper(st)) + ("," + Newline(st)))
               + (Pad(st) + Print(y, Deeper(st)) + ("" + Newline(st)))
  {
    hide Print;
    assert [x, y][1..] == [y] && [y][1..] == [];
    assert PrintElems([y], st) == Pad(st) + Print(y, Deeper(st)) + ("" + Newline(st)) + "";
  }

  lemma PrintBoth(ms: seq<Member>, es: seq<Doc>, st: Style)
    ensures Print(Obj(ms), st) == "{" + (Newline(st) + PrintMembers(ms, st) + EndPad(st)) + "}"
    ensures Print(Lst(es), st) == "[" + (Newline(st) + PrintElems(es, st) + EndPad(st)) + "]"
  {
    hide PrintMembers, PrintElems;
  }

  /** And unformatted ones. */
  lemma LayoutOfPlain(a: string, x: Doc, b: string, y: Doc)
    ensures Print(Obj([Member(a, x), Member(b, y)]), Plain)
            == "{" + ("\"" + a + "\"" + " : " + Print(x, Plain))
               + "," + ("\"" + b + "\"" + " : " + Print(y, Plain)) + "}"
    ensures Print(Lst([x, y]), Plain) == "[" + Print(x, Plain) + "," + Print(y, Plain) + "]"
  {
    var m, n := Member(a, x), Member(b, y);
    hide Print;
    TwoPrinted(m, n, Plain);
    Unpadded("{", PrintMember(m, Plain), PrintMember(n, Plain), "}");
    Unpadded("[", Print(x, Plain), Print(y, Plain), "]");
  }

  lemma Unpadded(open: string, i: string, j: string, close: string)
    ensures open + "" + ("" + i + "," + "") + ("" + j + "") + "" + close == open + i + "," + j + close
  {
  }
}
