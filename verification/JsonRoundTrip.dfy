/** Printing and parsing undo each other: json/Object.cpp, json/List.cpp and json/Value.cpp against
    json/Parser.cpp. */
module JsonRoundTrip {
  import opened Common
  import opened JsonText
  import opened JsonScan
  import opened JsonDoc
  import opened JsonParse

  // ----- what a print stands for

  /** The tree a document stands for, without the order of its members. */
  function Meaning(d: Doc): Tree
    decreases d, 1
  {
    match d
    case Obj(ms) => ObjT(MeaningMembers(ms))
    case Lst(es) => LstT(MeaningElems(es))
    case Val(text, subType) => ValT(text, subType)
  }

  function MeaningMembers(ms: seq<Member>): map<string, Tree>
    decreases ms, 0
  {
    if ms == [] then map[] else map[ms[0].key := Meaning(ms[0].value)] + MeaningMembers(ms[1..])
  }

  function MeaningElems(es: seq<Doc>): (r: seq<Tree>)
    ensures |r| == |es|
    decreases es, 0
  {
    if es == [] then [] else [Meaning(es[0])] + MeaningElems(es[1..])
  }

  /** What a print cannot carry: an Illegal value is printed as a string, and the tag of a number is the
      one its text has. */
  function Retag(t: Tree): Tree {
    match t
    case ObjT(m) => ObjT(map k | k in m :: Retag(m[k]))
    case LstT(es) => LstT(seq(|es|, i requires 0 <= i < |es| => Retag(es[i])))
    case ValT(text, subType) => RetagValue(text, subType)
  }

  function RetagValue(text: string, subType: SubType): Tree {
    ValT(text,
         if subType == Illegal then String
         else if !Numeric(subType) then subType
         else if Numeric(Validate(text)) then Validate(text) else Int)
  }

  lemma {:induction false} MeaningAppend(ms: seq<Member>, m: Member)
    ensures MeaningMembers(ms + [m]) == MeaningMembers(ms)[m.key := Meaning(m.value)]
  {
    hide Meaning;
    if ms == [] {
      assert [] + [m] == [m] && [m][1..] == [];
    } else {
      MeaningAppend(ms[1..], m);
      assert (ms + [m])[1..] == ms[1..] + [m];
    }
  }

  lemma {:induction false} MeaningElemsAppend(es: seq<Doc>, e: Doc)
    ensures MeaningElems(es + [e]) == MeaningElems(es) + [Meaning(e)]
  {
    hide Meaning;
    if es == [] {
      assert [] + [e] == [e] && [e][1..] == [];
    } else {
      MeaningElemsAppend(es[1..], e);
      assert (es + [e])[1..] == es[1..] + [e];
    }
  }

  // ----- printed texts have no NUL

  lemma {:induction false} SafeHasNoNul(p: string, escaped: bool)
    requires Inside(p, escaped).Some?
    ensures '\0' !in p
  {
    if p != "" { SafeHasNoNul(p[1..], if escaped then false else p[0] == '\\'); }
  }

  lemma {:induction false} EscapeHasNoNul(s: string)
    requires '\0' !in s
    ensures '\0' !in Escape(s)
  {
    EscapeIsSafe(s);
    SafeHasNoNul(Escape(s), false);
  }

  lemma {:induction false} PrintHasNoNul(d: Doc, st: Style)
    requires SoundDoc(d)
    ensures '\0' !in Print(d, st)
    decreases d, 1
  {
    match d
    case Obj(ms) => MembersHaveNoNul(ms, st);
    case Lst(es) => ElemsHaveNoNul(es, st);
    case Val(text, subType) => ValueHasNoNul(text, subType);
  }

  lemma ValueHasNoNul(text: string, subType: SubType)
    requires SoundValue(text, subType)
    ensures '\0' !in PrintValue(text, subType)
  {
    if subType == String || subType == Illegal { EscapeHasNoNul(text); } else { PlainText(text, subType); }
  }

  lemma {:induction false} MembersHaveNoNul(ms: seq<Member>, st: Style)
    requires forall i :: 0 <= i < |ms| ==> SoundKey(ms[i].key) && SoundDoc(ms[i].value)
    ensures '\0' !in PrintMembers(ms, st)
    decreases ms, 0
  {
    hide Print;
    if ms != [] {
      SafeHasNoNul(ms[0].key, false);
      PrintHasNoNul(ms[0].value, Deeper(st));
      assert '\0' !in PrintMember(ms[0], st);
      MembersHaveNoNul(ms[1..], st);
    }
  }

  lemma {:induction false} ElemsHaveNoNul(es: seq<Doc>, st: Style)
    requires forall i :: 0 <= i < |es| ==> SoundDoc(es[i])
    ensures '\0' !in PrintElems(es, st)
    decreases es, 0
  {
    if es != [] {
      PrintHasNoNul(es[0], Deeper(st));
      ElemsHaveNoNul(es[1..], st);
    }
  }

  lemma {:induction false} CStringWhole(s: string)
    requires '\0' !in s
    ensures CString(s) == s
  {
    if s != "" { CStringWhole(s[1..]); }
  }

  // ----- parsing one printed value

  /** The text behind a value in a compact print: a comma or a closing bracket. */
  predicate Delimited(rest: string) { rest != "" && !NakedChar(rest[0]) }

  lemma {:induction false} NakedStops(text: string, rest: string)
    requires Naked(text) && Delimited(rest)
    ensures ParseNaked(text + rest) == text
  {
    if text == "" {
      assert text + rest == rest;
    } else {
      assert (text + rest)[1..] == text[1..] + rest;
      NakedStops(text[1..], rest);
    }
  }

  lemma NakedHasNoEscape(text: string, subType: SubType)
    requires Naked(text)
    ensures Unescape(text) == text
  {
    UnescapePlain(text);
  }

  lemma LowerIsLower(text: string)
    requires text == "true" || text == "false"
    ensures LowerAll(text) == text && Validate(text) == Bool
  {
  }

  lemma GetString(text: string, rest: string)
    requires '\0' !in text
    ensures var p := GetValue(Quoted(Escape(text)) + rest);
            p == Property(Value, Escape(text), String, |Escape(text)| + 2) && Unescape(Escape(text)) == text
  {
    hide Escape, FindClosingQuote;
    var e := Escape(text);
    EscapeIsSafe(text);
    SafeExactly(e, rest);
    UnescapeEscape(text);
    var s := "\"" + e + "\"" + rest;
    assert Quoted(e) + rest == s;
    assert s[1..|e| + 1] == e;
    if e == "" { assert ParseString(s) == ""; }
  }

  lemma GetNaked(text: string, rest: string)
    requires Naked(text) && text != "" && Delimited(rest)
    ensures GetValue(text + rest)
            == Property(Value, if Validate(text) == Illegal then "{illegal}" else text, Validate(text), |text|)
  {
    hide Validate;
    NakedStops(text, rest);
    assert (text + rest)[0] == text[0];
  }

  /** A string without a closing quote is read up to the end of the text, and an empty one is nothing. */
  lemma UnfinishedString(p: string)
    ensures Inside(p, false).Some? ==> GetValue("\"" + p) == Property(Value, p, String, |p| + 2)
    ensures forall rest :: ParseString("\"\"" + rest) == ""
  {
    hide FindClosingQuote, ParseNaked, Container, Validate;
    var s := "\"" + p;
    UnfinishedQuote(p);
    if p != "" { assert s[1..|p| + 1] == p; }
    forall rest ensures ParseString("\"\"" + rest) == "" { EmptyQuote(rest); }
  }

  lemma UnfinishedQuote(p: string)
    ensures Inside(p, false).Some? ==> FindClosingQuote("\"" + p) == Some(|p| + 2)
  {
    assert ("\"" + p)[1..] == p;
    if Inside(p, false).Some? {
      InsideCounts(p, "", false);
      assert p + "" == p;
    }
  }

  lemma EmptyQuote(rest: string)
    ensures FindClosingQuote("\"\"" + rest) == Some(2)
  {
    assert ("\"\"" + rest)[1..] == "\"" + rest;
  }

  /** A literal that is neither a number nor a boolean is read as one fixed text with the tag Illegal. */
  lemma IllegalLiteral(text: string, rest: string)
    requires Naked(text) && text != "" && Validate(text) == Illegal && Delimited(rest)
    ensures GetValue(text + rest).size == |text|
    ensures MakeTree(GetValue(text + rest)) == ValT("{illegal}", Illegal)
  {
    hide Validate, GetValue, Unescape;
    GetNaked(text, rest);
    IllegalIsPlain();
  }

  lemma IllegalIsPlain()
    ensures Unescape("{illegal}") == "{illegal}"
  {
    UnescapePlain("{illegal}");
  }

  lemma GetLeaf(text: string, subType: SubType, rest: string)
    requires SoundValue(text, subType) && Delimited(rest)
    ensures var p := GetValue(PrintValue(text, subType) + rest);
            && p.kind == Value && p.size == |PrintValue(text, subType)|
            && MakeTree(p) == RetagValue(text, subType)
  {
    hide GetValue, Escape, Validate, Unescape;
    if subType == String || subType == Illegal {
      GetString(text, rest);
    } else {
      PlainText(text, subType);
      if subType == Bool { LowerIsLower(text); }
      GetNaked(text, rest);
      NakedHasNoEscape(text, subType);
    }
  }

  lemma GetContainer(d: Doc, rest: string)
    requires SoundDoc(d) && !d.Val?
    ensures GetValue(Print(d, Compact) + rest)
            == Property(if d.Obj? then Object else List, Print(d, Compact), Illegal, |Print(d, Compact)|)
  {
    var s := Print(d, Compact);
    FindsEndOfPrint(d, Compact, rest);
    assert (s + rest)[..|s|] == s;
    assert (s + rest)[0] == s[0] == if d.Obj? then '{' else '[';
  }

  lemma {:induction false} GetPrinted(d: Doc, rest: string)
    requires SoundDoc(d) && Delimited(rest)
    ensures var p := GetValue(Print(d, Compact) + rest);
            && p.kind != Invalid && p.size == |Print(d, Compact)|
            && MakeTree(p) == Retag(Meaning(d))
    decreases d, 2
  {
    match d
    case Val(text, subType) => GetLeaf(text, subType, rest);
    case Obj(ms) => GetContainer(d, rest); ParsePrintedObject(ms);
    case Lst(es) => GetContainer(d, rest); ParsePrintedList(es);
  }

  // ----- parsing printed members and elements

  function RetagMembers(ms: seq<Member>): map<string, Tree> { Retag(ObjT(MeaningMembers(ms))).members }

  function RetagElems(es: seq<Doc>): seq<Tree> { Retag(LstT(MeaningElems(es))).elems }

  lemma RetagMembersCons(ms: seq<Member>)
    requires ms != []
    ensures RetagMembers(ms) == map[ms[0].key := Retag(Meaning(ms[0].value))] + RetagMembers(ms[1..])
  {
  }

  lemma RetagElemsCons(es: seq<Doc>)
    requires es != []
    ensures RetagElems(es) == [Retag(Meaning(es[0]))] + RetagElems(es[1..])
  {
  }

  predicate SoundMembers(ms: seq<Member>) {
    forall i :: 0 <= i < |ms| ==> SoundKey(ms[i].key) && SoundDoc(ms[i].value)
  }

  function MembersText(ms: seq<Member>): string { PrintMembers(ms, Compact) + "}" }

  function MembersTail(ms: seq<Member>): string
    requires ms != []
  {
    if |ms| > 1 then "," + MembersText(ms[1..]) else "}"
  }

  lemma MembersTextUnfolds(ms: seq<Member>)
    requires ms != []
    ensures MembersText(ms) == Quoted(ms[0].key) + (":" + (Print(ms[0].value, Compact) + MembersTail(ms)))
  {
    hide Print, Quoted;
    var rest := PrintMembers(ms[1..], Compact);
    assert PrintMembers(ms, Compact)
           == Pad(Compact) + PrintMember(ms[0], Compact) + (Comma(|ms| > 1) + Newline(Compact)) + rest;
    JoinItem(Quoted(ms[0].key), Print(ms[0].value, Compact), Comma(|ms| > 1), rest);
    if |ms| == 1 { assert rest == ""; }
  }

  lemma JoinItem(q: string, v: string, comma: string, rest: string)
    ensures "" + (q + ":" + v) + (comma + "") + rest + "}" == q + (":" + (v + (comma + (rest + "}"))))
  {
  }

  lemma GetPrintedPair(k: string, v: string, tail: string)
    requires SoundKey(k) && '\0' !in v && '\0' !in tail
    ensures var p := GetPair(Quoted(k) + (":" + (v + tail)));
            && p.key == k && p.val == GetValue(v + tail) && p.size == |k| + 3 + p.val.size
  {
    var s := Quoted(k) + (":" + (v + tail));
    hide GetValue, ParseString, QuoteSafe, Quoted;
    KeyIsRead(k, v + tail);
    CStringWhole(v + tail);
  }

  lemma KeyIsRead(k: string, behind: string)
    requires SoundKey(k)
    ensures var s := Quoted(k) + (":" + behind);
            ParseString(s) == k && At(s, |k| + 2) == ':' && Drop(s, |k| + 3) == behind
  {
    hide FindClosingQuote, QuoteSafe;
    var s, rest := Quoted(k) + (":" + behind), ":" + behind;
    assert s == "\"" + k + "\"" + rest;
    SafeExactly(k, rest);
    assert s[1..|k| + 1] == k;
    assert s[|k| + 2] == rest[0];
    assert s[|k| + 3..] == behind;
  }

  lemma MembersTailHasNoNul(ms: seq<Member>)
    requires ms != [] && SoundMembers(ms)
    ensures '\0' !in MembersTail(ms) && Delimited(MembersTail(ms))
  {
    MembersHaveNoNul(ms[1..], Compact);
  }

  /** One turn of the loop of parseObject on a printed member. */
  lemma TurnOnPrinted(k: string, v: string, tail: string, acc: map<string, Tree>)
    requires SoundKey(k) && '\0' !in v && '\0' !in tail && tail != "" && tail[0] != '\0'
    requires GetValue(v + tail).kind != Invalid && GetValue(v + tail).size == |v|
    ensures var s := Quoted(k) + (":" + (v + tail));
            var acc' := acc[k := MakeTree(GetValue(v + tail))];
            ParseMembers(s, acc) == if tail[0] == ',' then ParseMembers(tail[1..], acc') else acc'
  {
    hide GetValue, GetPair, MakeTree;
    GetPrintedPair(k, v, tail);
    var s := Quoted(k) + (":" + (v + tail));
    var size := |k| + 3 + |v|;
    assert s[size] == tail[0];
    assert s[size + 1..] == tail[1..];
  }

  lemma TurnOnMember(ms: seq<Member>, acc: map<string, Tree>)
    requires ms != [] && SoundMembers(ms)
    requires var p := GetValue(Print(ms[0].value, Compact) + MembersTail(ms));
             p.kind != Invalid && p.size == |Print(ms[0].value, Compact)|
             && MakeTree(p) == Retag(Meaning(ms[0].value))
    ensures var acc' := acc[ms[0].key := Retag(Meaning(ms[0].value))];
            ParseMembers(MembersText(ms), acc)
            == if |ms| > 1 then ParseMembers(MembersText(ms[1..]), acc') else acc'
  {
    hide GetValue, MakeTree, Print, Retag, Meaning, ParseMembers, MembersText;
    var v, tail := Print(ms[0].value, Compact), MembersTail(ms);
    MembersTextUnfolds(ms);
    MembersTailHasNoNul(ms);
    PrintHasNoNul(ms[0].value, Compact);
    TurnOnPrinted(ms[0].key, v, tail, acc);
    if |ms| > 1 { assert tail[1..] == MembersText(ms[1..]); }
  }

  lemma {:induction false} ParsePrintedMembers(ms: seq<Member>, acc: map<string, Tree>)
    requires SoundMembers(ms)
    ensures ParseMembers(MembersText(ms), acc) == acc + RetagMembers(ms)
    decreases ms, 0
  {
    hide GetValue, MakeTree, Print, Retag, Meaning, Delimited, ParseMembers, MembersText, MembersTail, RetagMembers;
    ParseNothing(acc);
    if ms == [] {
    } else {
      MembersTailHasNoNul(ms);
      GetPrinted(ms[0].value, MembersTail(ms));
      TurnOnMember(ms, acc);
      RetagMembersCons(ms);
      var acc' := acc[ms[0].key := Retag(Meaning(ms[0].value))];
      if |ms| > 1 {
        ParsePrintedMembers(ms[1..], acc');
        assert acc' + RetagMembers(ms[1..]) == acc + RetagMembers(ms);
      } else {
        assert ms[1..] == [];
        assert acc' == acc + RetagMembers(ms);
      }
    }
  }

  lemma ParseNothing(acc: map<string, Tree>)
    ensures ParseMembers(MembersText([]), acc) == acc
    ensures RetagMembers([]) == map[] && acc + RetagMembers([]) == acc
  {
    assert MembersText([]) == "}";
    assert ParseString("}") == "";
  }

  lemma {:induction false} ParsePrintedObject(ms: seq<Member>)
    requires SoundMembers(ms)
    ensures ParseObject(Print(Obj(ms), Compact)) == RetagMembers(ms)
    decreases ms, 1
  {
    hide RetagMembers, ParseMembers, PrintMembers;
    var s := Print(Obj(ms), Compact);
    assert s[1..] == MembersText(ms);
    ParsePrintedMembers(ms, map[]);
    assert map[] + RetagMembers(ms) == RetagMembers(ms);
  }

  predicate SoundElems(es: seq<Doc>) { forall i :: 0 <= i < |es| ==> SoundDoc(es[i]) }

  function ElemsText(es: seq<Doc>): string { PrintElems(es, Compact) + "]" }

  function ElemsTail(es: seq<Doc>): string
    requires es != []
  {
    if |es| > 1 then "," + ElemsText(es[1..]) else "]"
  }

  lemma ElemsTextUnfolds(es: seq<Doc>)
    requires es != []
    ensures ElemsText(es) == Print(es[0], Compact) + ElemsTail(es)
  {
    hide Print;
    var v, rest := Print(es[0], Compact), PrintElems(es[1..], Compact);
    JoinElem(v, Comma(|es| > 1), rest);
    if |es| == 1 { assert rest == ""; }
  }

  lemma JoinElem(v: string, comma: string, rest: string)
    ensures "" + v + (comma + "") + rest + "]" == v + (comma + (rest + "]"))
  {
  }

  /** One turn of the loop of parseList on a printed element. */
  lemma TurnOnElem(v: string, tail: string, acc: seq<Tree>)
    requires tail != "" && GetValue(v + tail).kind != Invalid && GetValue(v + tail).size == |v|
    ensures var acc' := acc + [MakeTree(GetValue(v + tail))];
            ParseElems(v + tail, acc) == if tail[0] == ',' then ParseElems(tail[1..], acc') else acc'
  {
    hide GetValue, MakeTree;
    var s := v + tail;
    assert s[|v|] == tail[0];
    assert s[|v| + 1..] == tail[1..];
  }

  lemma ElemsTextOfNone()
    ensures ElemsText([]) == "]" && RetagElems([]) == [] && forall acc :: ParseElems("]", acc) == acc
  {
    hide GetValue, MakeTree;
    BracketIsNoValue();
  }

  lemma BracketIsNoValue()
    ensures GetValue("]").kind == Invalid
  {
    hide FindClosing, ParseString, ParseNaked, Validate;
  }

  lemma {:induction false} ParsePrintedElems(es: seq<Doc>, acc: seq<Tree>)
    requires SoundElems(es)
    ensures ParseElems(ElemsText(es), acc) == acc + RetagElems(es)
    decreases es, 0
  {
    hide Retag, Meaning, Print, MakeTree, GetValue, ParseElems, ElemsText, RetagElems;
    ElemsTextOfNone();
    if es == [] {
      assert acc + [] == acc;
    } else {
      var v, tail := Print(es[0], Compact), ElemsTail(es);
      ElemsTextUnfolds(es);
      GetPrinted(es[0], tail);
      RetagElemsCons(es);
      TurnOnElem(v, tail, acc);
      var x := Retag(Meaning(es[0]));
      if |es| > 1 {
        assert tail[1..] == ElemsText(es[1..]);
        ParsePrintedElems(es[1..], acc + [x]);
        Regroup(acc, [x], RetagElems(es[1..]));
      } else {
        assert es[1..] == [] && [x] + [] == [x];
      }
    }
  }

  lemma {:induction false} ParsePrintedList(es: seq<Doc>)
    requires SoundElems(es)
    ensures ParseList(Print(Lst(es), Compact)) == RetagElems(es)
    decreases es, 1
  {
    hide RetagElems, ParseElems, PrintElems;
    var s := Print(Lst(es), Compact);
    assert s[1..] == ElemsText(es);
    ParsePrintedElems(es, []);
    assert [] + RetagElems(es) == RetagElems(es);
  }

  /** Round trip: parsing a print of a sound object, in any style and any member order, gives the tree it
      stands for, up to the tags a print cannot carry. */
  lemma RoundTrip(ms: seq<Member>, st: Style)
    requires SoundMembers(ms)
    ensures Parse(Print(Obj(ms), st)) == Retag(Meaning(Obj(ms)))
  {
    FormattingIsStripped(Obj(ms), st);
    ParsePrintedObject(ms);
  }

  // ----- what the parser can build

  /** Every key the parser stores could be printed and read again, a number has the tag of its text, and
      a literal name is true or false. */
  predicate ParserTree(t: Tree) {
    match t
    case ObjT(m) => forall k :: k in m ==> SoundKey(k) && ParserTree(m[k])
    case LstT(es) => forall i :: 0 <= i < |es| ==> ParserTree(es[i])
    case ValT(text, subType) =>
      (subType == Bool ==> text == "true" || text == "false") && (Numeric(subType) ==> Validate(text) == subType)
  }

  /** The whitespace pass leaves a NUL only behind a string without an end. */
  predicate NulOnlyLast(s: string) { forall i :: 0 <= i < |s| - 1 ==> s[i] != '\0' }

  lemma {:induction false} StrippedNul(s: string)
    requires '\0' !in s
    ensures NulOnlyLast(RemoveSpaces(s))
    decreases |s|
  {
    if s != "" {
      if s[0] == '"' {
        var n := FindClosingQuote(s).value;
        if n <= |s| { StrippedNul(s[n..]); }
      } else {
        StrippedNul(s[1..]);
      }
    }
  }

  lemma StoredKeyIsSound(s: string)
    requires NulOnlyLast(s) && GetPair(s).val.kind != Invalid
    ensures SoundKey(GetPair(s).key)
  {
    hide GetValue;
    var key := ParseString(s);
    assert At(s, |key| + 2) == ':';
    assert CloseLength(s[1..], false) == |key| && s[1..][..|key|] == key;
    ReadIsSafe(s[1..], false);
  }

  lemma ValueIsParserTree(s: string)
    requires GetValue(s).kind == Value
    ensures ParserTree(MakeTree(GetValue(s)))
  {
    hide Check, Unescape, FindClosing, FindClosingQuote;
    if s[0] != '"' {
      var text := ParseNaked(s);
      NakedHasNoEscape(text, Validate(text));
      LowerOfBool(text);
    }
  }

  lemma LowerOfBool(text: string)
    ensures Validate(text) == Bool ==> LowerAll(text) == "true" || LowerAll(text) == "false"
  {
    if text != "" && LowerAll(text) != "true" && LowerAll(text) != "false" { CheckNeverBool(text, true, false, Int); }
  }

  lemma {:induction false} CheckNeverBool(s: string, first: bool, dot: bool, nrv: SubType)
    requires nrv != Bool
    ensures Check(s, first, dot, nrv) != Bool
  {
    if s != "" {
      CheckNeverBool(s[1..], false, dot, if nrv != Double then UInt else nrv);
      CheckNeverBool(s[1..], false, true, Double);
      CheckNeverBool(s[1..], false, dot, nrv);
    }
  }

  lemma {:induction false} ParsesToParserTree(s: string)
    requires NulOnlyLast(s)
    ensures ParserTree(ObjT(ParseObject(s))) && ParserTree(LstT(ParseList(s)))
    decreases |s|, 0
  {
    if s != "" {
      if s[0] == '{' { MembersToParserTree(s[1..], map[]); }
      if s[0] == '[' { ElemsToParserTree(s[1..], []); }
    }
  }

  lemma {:induction false} PropertyToParserTree(s: string)
    requires NulOnlyLast(s) && GetValue(s).kind != Invalid
    ensures ParserTree(MakeTree(GetValue(s)))
    decreases |s|, 1
  {
    hide ParserTree;
    var p := GetValue(s);
    if p.kind == Value { ValueIsParserTree(s); } else { ParsesToParserTree(p.value); }
  }

  lemma {:induction false} MembersToParserTree(tmp: string, acc: map<string, Tree>)
    requires NulOnlyLast(tmp) && ParserTree(ObjT(acc))
    ensures ParserTree(ObjT(ParseMembers(tmp, acc)))
    decreases |tmp|, 2
  {
    hide GetPair, MakeTree, SoundKey, NulOnlyLast, ParserTree, GetValue;
    if tmp != "" {
      var p := GetPair(tmp);
      if p.val.kind != Invalid {
        ValueOfPair(tmp);
        StoredKeyIsSound(tmp);
        PropertyToParserTree(CString(Drop(tmp, |p.key| + 3)));
        AddedToParserTree(acc, p.key, MakeTree(p.val));
        if At(tmp, p.size) == ',' {
          NulOnlyLastBehind(tmp, p.size + 1);
          MembersToParserTree(tmp[p.size + 1..], acc[p.key := MakeTree(p.val)]);
        }
      }
    }
  }

  lemma ValueOfPair(tmp: string)
    requires NulOnlyLast(tmp) && GetPair(tmp).val.kind != Invalid
    ensures var p := GetPair(tmp);
            var s := CString(Drop(tmp, |p.key| + 3));
            p.val == GetValue(s) && |s| < |tmp| && NulOnlyLast(s)
  {
    hide GetValue, ParseString;
  }

  lemma AddedToParserTree(acc: map<string, Tree>, key: string, t: Tree)
    requires ParserTree(ObjT(acc)) && SoundKey(key) && ParserTree(t)
    ensures ParserTree(ObjT(acc[key := t]))
  {
    hide SoundKey;
  }

  lemma NulOnlyLastBehind(s: string, i: nat)
    requires NulOnlyLast(s) && i <= |s|
    ensures NulOnlyLast(s[i..])
  {
  }

  lemma {:induction false} ElemsToParserTree(tmp: string, acc: seq<Tree>)
    requires NulOnlyLast(tmp) && ParserTree(LstT(acc))
    ensures ParserTree(LstT(ParseElems(tmp, acc)))
    decreases |tmp|, 2
  {
    hide GetValue, MakeTree;
    if tmp != "" {
      var p := GetValue(tmp);
      if p.kind != Invalid {
        PropertyToParserTree(tmp);
        var acc' := acc + [MakeTree(p)];
        if At(tmp, p.size) == ',' { ElemsToParserTree(tmp[p.size + 1..], acc'); }
      }
    }
  }

  // ----- the exact condition

  predicate NoNul(d: Doc) {
    match d
    case Obj(ms) => forall i :: 0 <= i < |ms| ==> '\0' !in ms[i].key && NoNul(ms[i].value)
    case Lst(es) => forall i :: 0 <= i < |es| ==> NoNul(es[i])
    case Val(text, subType) => '\0' !in text
  }

  /** A document of the library without NULs in its texts. */
  predicate ProperDoc(d: Doc) { DistinctKeys(d) && NoNul(d) }

  lemma {:induction false} NoNulPrint(d: Doc, st: Style)
    requires NoNul(d)
    ensures '\0' !in Print(d, st)
    decreases d, 1
  {
    match d
    case Obj(ms) => NoNulPrintMembers(ms, st);
    case Lst(es) => NoNulPrintElems(es, st);
    case Val(text, subType) => NoNulValue(text, subType);
  }

  lemma NoNulValue(text: string, subType: SubType)
    requires '\0' !in text
    ensures '\0' !in PrintValue(text, subType)
  {
    EscapeHasNoNul(text);
  }

  lemma {:induction false} NoNulPrintMembers(ms: seq<Member>, st: Style)
    requires forall i :: 0 <= i < |ms| ==> '\0' !in ms[i].key && NoNul(ms[i].value)
    ensures '\0' !in PrintMembers(ms, st)
    decreases ms, 0
  {
    hide Print, NoNul, DistinctKeys;
    if ms != [] {
      NoNulPrint(ms[0].value, Deeper(st));
      assert '\0' !in PrintMember(ms[0], st);
      NoNulPrintMembers(ms[1..], st);
    }
  }

  lemma {:induction false} NoNulPrintElems(es: seq<Doc>, st: Style)
    requires forall i :: 0 <= i < |es| ==> NoNul(es[i])
    ensures '\0' !in PrintElems(es, st)
    decreases es, 0
  {
    if es != [] {
      NoNulPrint(es[0], Deeper(st));
      NoNulPrintElems(es[1..], st);
    }
  }

  /** With different keys every member can be found under its key, and nothing else. */
  lemma {:induction false} MeaningHas(ms: seq<Member>)
    requires forall i, j :: 0 <= i < j < |ms| ==> ms[i].key != ms[j].key
    ensures forall i :: 0 <= i < |ms| ==> ms[i].key in MeaningMembers(ms)
                                          && MeaningMembers(ms)[ms[i].key] == Meaning(ms[i].value)
    ensures forall k :: k in MeaningMembers(ms) ==> exists i :: 0 <= i < |ms| && ms[i].key == k
  {
    hide Meaning;
    if ms != [] {
      MeaningHas(ms[1..]);
      assert forall i :: 0 < i < |ms| ==> ms[i] == ms[1..][i - 1];
      assert forall k :: k in MeaningMembers(ms[1..]) ==> k != ms[0].key;
    }
  }

  lemma {:induction false} MeaningElemsAt(es: seq<Doc>)
    ensures forall i :: 0 <= i < |es| ==> MeaningElems(es)[i] == Meaning(es[i])
  {
    hide Meaning;
    if es != [] { MeaningElemsAt(es[1..]); }
  }

  /** A document whose tree the parser can build is sound. */
  lemma {:induction false} ParserTreeIsSound(d: Doc)
    requires ProperDoc(d) && ParserTree(Retag(Meaning(d)))
    ensures SoundDoc(d)
  {
    match d
    case Obj(ms) =>
      MeaningHas(ms);
      forall i | 0 <= i < |ms| ensures SoundKey(ms[i].key) && SoundDoc(ms[i].value) {
        assert Retag(Meaning(d)).members[ms[i].key] == Retag(Meaning(ms[i].value));
        ParserTreeIsSound(ms[i].value);
      }
    case Lst(es) =>
      MeaningElemsAt(es);
      forall i | 0 <= i < |es| ensures SoundDoc(es[i]) {
        assert Retag(Meaning(d)).elems[i] == Retag(Meaning(es[i]));
        ParserTreeIsSound(es[i]);
      }
    case Val(text, subType) =>
  }

  /** Exact condition of the round trip: parsing the print gives the tree back, up to the tags a print
      cannot carry, if and only if every key is non-empty and quote-safe, every number has a text that
      validateNakedValue accepts, and every Bool is true or false. */
  lemma RoundTripExactly(ms: seq<Member>, st: Style)
    requires ProperDoc(Obj(ms))
    ensures Parse(Print(Obj(ms), st)) == Retag(Meaning(Obj(ms))) <==> SoundDoc(Obj(ms))
  {
    if SoundDoc(Obj(ms)) {
      RoundTrip(ms, st);
    } else if Parse(Print(Obj(ms), st)) == Retag(Meaning(Obj(ms))) {
      NoNulPrint(Obj(ms), st);
      StrippedNul(Print(Obj(ms), st));
      ParsesToParserTree(RemoveSpaces(Print(Obj(ms), st)));
      ParserTreeIsSound(Obj(ms));
    }
  }

  // ----- when even the tags survive

  predicate AcceptedNumbers(t: Tree) {
    match t
    case ObjT(m) => forall k :: k in m ==> AcceptedNumbers(m[k])
    case LstT(es) => forall i :: 0 <= i < |es| ==> AcceptedNumbers(es[i])
    case ValT(text, subType) => Numeric(subType) ==> Numeric(Validate(text))
  }

  /** No value is Illegal and every number has the tag of its text. */
  predicate TagsSurvive(t: Tree) {
    match t
    case ObjT(m) => forall k :: k in m ==> TagsSurvive(m[k])
    case LstT(es) => forall i :: 0 <= i < |es| ==> TagsSurvive(es[i])
    case ValT(text, subType) => subType != Illegal && (Numeric(subType) ==> Validate(text) == subType)
  }

  lemma {:induction false} RetagChangesNothing(t: Tree)
    requires AcceptedNumbers(t)
    ensures Retag(t) == t <==> TagsSurvive(t)
  {
    match t
    case ObjT(m) =>
      forall k | k in m ensures Retag(m[k]) == m[k] <==> TagsSurvive(m[k]) { RetagChangesNothing(m[k]); }
      var r := Retag(t).members;
      assert r.Keys == m.Keys;
      if TagsSurvive(t) { assert r == m; }
      if Retag(t) == t { assert forall k :: k in m ==> r[k] == m[k]; }
    case LstT(es) =>
      forall i | 0 <= i < |es| ensures Retag(es[i]) == es[i] <==> TagsSurvive(es[i]) { RetagChangesNothing(es[i]); }
      var r := Retag(t).elems;
      if TagsSurvive(t) { assert r == es; }
      if Retag(t) == t { assert forall i :: 0 <= i < |es| ==> r[i] == es[i]; }
    case ValT(text, subType) =>
  }

  lemma {:induction false} RetagKeepsParserTree(t: Tree)
    requires ParserTree(t)
    ensures ParserTree(Retag(t))
  {
    match t
    case ObjT(m) => forall k | k in m ensures ParserTree(Retag(m[k])) { RetagKeepsParserTree(m[k]); }
    case LstT(es) => forall i | 0 <= i < |es| ensures ParserTree(Retag(es[i])) { RetagKeepsParserTree(es[i]); }
    case ValT(text, subType) =>
  }

  lemma {:induction false} SoundNumbersAccepted(d: Doc)
    requires ProperDoc(d) && SoundDoc(d)
    ensures AcceptedNumbers(Meaning(d))
  {
    match d
    case Obj(ms) =>
      MeaningHas(ms);
      forall i | 0 <= i < |ms| ensures AcceptedNumbers(Meaning(ms[i].value)) { SoundNumbersAccepted(ms[i].value); }
    case Lst(es) =>
      MeaningElemsAt(es);
      forall i | 0 <= i < |es| ensures AcceptedNumbers(Meaning(es[i])) { SoundNumbersAccepted(es[i]); }
    case Val(text, subType) =>
  }

  /** The tree comes back with all its tags if and only if the document is sound, no value is Illegal and
      every number has the tag of its text. */
  lemma ExactRoundTrip(ms: seq<Member>, st: Style)
    requires ProperDoc(Obj(ms))
    ensures Parse(Print(Obj(ms), st)) == Meaning(Obj(ms)) <==> SoundDoc(Obj(ms)) && TagsSurvive(Meaning(Obj(ms)))
  {
    var d := Obj(ms);
    if SoundDoc(d) {
      RoundTrip(ms, st);
      SoundNumbersAccepted(d);
      RetagChangesNothing(Meaning(d));
    } else if Parse(Print(d, st)) == Meaning(d) {
      NoNulPrint(d, st);
      StrippedNul(Print(d, st));
      ParsesToParserTree(RemoveSpaces(Print(d, st)));
      RetagKeepsParserTree(Meaning(d));
      ParserTreeIsSound(d);
    }
  }

  // ----- the same for trees, whatever order their members are printed in

  /** ss is a print of the tree t, with the members of its objects in some order. */
  ghost predicate IsPrint(ss: string, t: Tree, st: Style) {
    exists d :: DistinctKeys(d) && Meaning(d) == t && Print(d, st) == ss
  }

  ghost function Printed(ss: string, t: Tree, st: Style): (d: Doc)
    requires IsPrint(ss, t, st)
    ensures DistinctKeys(d) && Meaning(d) == t && Print(d, st) == ss
  {
    var d :| DistinctKeys(d) && Meaning(d) == t && Print(d, st) == ss;
    d
  }

  predicate SoundTree(t: Tree) {
    match t
    case ObjT(m) => forall k :: k in m ==> SoundKey(k) && SoundTree(m[k])
    case LstT(es) => forall i :: 0 <= i < |es| ==> SoundTree(es[i])
    case ValT(text, subType) => SoundValue(text, subType)
  }

  predicate NoNulTree(t: Tree) {
    match t
    case ObjT(m) => forall k :: k in m ==> '\0' !in k && NoNulTree(m[k])
    case LstT(es) => forall i :: 0 <= i < |es| ==> NoNulTree(es[i])
    case ValT(text, subType) => '\0' !in text
  }

  lemma {:induction false} SoundAsTree(d: Doc)
    requires DistinctKeys(d)
    ensures SoundDoc(d) <==> SoundTree(Meaning(d))
    ensures NoNul(d) <==> NoNulTree(Meaning(d))
    decreases d, 1
  {
    match d
    case Obj(ms) => SoundMembersAsTree(ms);
    case Lst(es) => SoundElemsAsTree(es);
    case Val(text, subType) =>
  }

  lemma {:induction false} SoundMembersAsTree(ms: seq<Member>)
    requires DistinctKeys(Obj(ms))
    ensures SoundDoc(Obj(ms)) <==> SoundTree(ObjT(MeaningMembers(ms)))
    ensures NoNul(Obj(ms)) <==> NoNulTree(ObjT(MeaningMembers(ms)))
    decreases ms, 0
  {
    hide Meaning, MeaningMembers, SoundKey;
    MeaningHas(ms);
    forall i | 0 <= i < |ms|
      ensures SoundDoc(ms[i].value) <==> SoundTree(Meaning(ms[i].value))
      ensures NoNul(ms[i].value) <==> NoNulTree(Meaning(ms[i].value))
    {
      SoundAsTree(ms[i].value);
    }
  }

  lemma {:induction false} SoundElemsAsTree(es: seq<Doc>)
    requires DistinctKeys(Lst(es))
    ensures SoundDoc(Lst(es)) <==> SoundTree(LstT(MeaningElems(es)))
    ensures NoNul(Lst(es)) <==> NoNulTree(LstT(MeaningElems(es)))
    decreases es, 0
  {
    hide Meaning, MeaningElems;
    MeaningElemsAt(es);
    forall i | 0 <= i < |es|
      ensures SoundDoc(es[i]) <==> SoundTree(Meaning(es[i]))
      ensures NoNul(es[i]) <==> NoNulTree(Meaning(es[i]))
    {
      SoundAsTree(es[i]);
    }
  }

  /** The round trip of trees: every print of a NUL-free object tree is parsed to that tree, up to the
      tags a print cannot carry, exactly when the tree is sound; and to the very same tree exactly when
      moreover its tags survive. */
  lemma PrintParses(ss: string, t: Tree, st: Style)
    requires t.ObjT? && NoNulTree(t) && IsPrint(ss, t, st)
    ensures Parse(ss) == Retag(t) <==> SoundTree(t)
    ensures Parse(ss) == t <==> SoundTree(t) && TagsSurvive(t)
  {
    hide Parse, Retag, SoundTree, SoundDoc, NoNul, NoNulTree, TagsSurvive, Print, DistinctKeys;
    var d := Printed(ss, t, st);
    SoundAsTree(d);
    match d
    case Obj(ms) =>
      RoundTripExactly(ms, st);
      ExactRoundTrip(ms, st);
    case _ => MeaningKind(d);
  }

  lemma MeaningKind(d: Doc)
    ensures Meaning(d).ObjT? <==> d.Obj?
  {
  }

  // ----- what is lost does not show

  /** The document with the tags that a print gives back. */
  function RetagDoc(d: Doc): Doc
    decreases d, 1
  {
    match d
    case Obj(ms) => Obj(RetagDocMembers(ms))
    case Lst(es) => Lst(RetagDocs(es))
    case Val(text, subType) => Val(text, RetagValue(text, subType).subType)
  }

  function RetagDocMembers(ms: seq<Member>): (r: seq<Member>)
    ensures |r| == |ms|
    decreases ms, 0
  {
    if ms == [] then [] else [Member(ms[0].key, RetagDoc(ms[0].value))] + RetagDocMembers(ms[1..])
  }

  function RetagDocs(es: seq<Doc>): (r: seq<Doc>)
    ensures |r| == |es|
    decreases es, 0
  {
    if es == [] then [] else [RetagDoc(es[0])] + RetagDocs(es[1..])
  }

  lemma {:induction false} RetagDocSame(d: Doc, st: Style)
    ensures Print(RetagDoc(d), st) == Print(d, st)
    ensures Meaning(RetagDoc(d)) == Retag(Meaning(d))
    ensures DistinctKeys(d) ==> DistinctKeys(RetagDoc(d))
    decreases d, 1
  {
    match d
    case Obj(ms) => RetagMembersSame(ms, st);
    case Lst(es) => RetagElemsSame(es, st);
    case Val(text, subType) =>
  }

  lemma {:induction false} RetagMembersSame(ms: seq<Member>, st: Style)
    ensures var rs := RetagDocMembers(ms);
            && PrintMembers(rs, st) == PrintMembers(ms, st)
            && MeaningMembers(rs) == RetagMembers(ms)
            && (forall i :: 0 <= i < |ms| ==> rs[i].key == ms[i].key)
            && (forall i :: 0 <= i < |ms| ==> DistinctKeys(ms[i].value) ==> DistinctKeys(rs[i].value))
    decreases ms, 0
  {
    hide Print, Retag, DistinctKeys, RetagMembers;
    if ms == [] {
      ParseNothing(map[]);
    } else {
      RetagDocSame(ms[0].value, Deeper(st));
      RetagMembersSame(ms[1..], st);
      RetagMembersCons(ms);
      assert RetagDocMembers(ms)[1..] == RetagDocMembers(ms[1..]);
    }
  }

  lemma {:induction false} RetagElemsSame(es: seq<Doc>, st: Style)
    ensures var rs := RetagDocs(es);
            && PrintElems(rs, st) == PrintElems(es, st)
            && MeaningElems(rs) == RetagElems(es)
            && (forall i :: 0 <= i < |es| ==> DistinctKeys(es[i]) ==> DistinctKeys(rs[i]))
    decreases es, 0
  {
    hide Print, Retag, DistinctKeys, RetagElems;
    if es == [] {
      ElemsTextOfNone();
    } else {
      RetagDocSame(es[0], Deeper(st));
      RetagElemsSame(es[1..], st);
      RetagElemsCons(es);
      assert RetagDocs(es)[1..] == RetagDocs(es[1..]);
    }
  }

  /** A print of a sound tree is also a print of the tree that it is parsed to: what the round trip
      changes never shows in the text. */
  lemma ParsedPrintsSame(ss: string, t: Tree, st: Style)
    requires t.ObjT? && NoNulTree(t) && SoundTree(t) && IsPrint(ss, t, st)
    ensures IsPrint(ss, Parse(ss), st)
  {
    hide Parse, Retag, SoundTree, NoNulTree, Print, DistinctKeys, Meaning, RetagDoc;
    PrintParses(ss, t, st);
    var d := Printed(ss, t, st);
    RetagDocSame(d, st);
    assert DistinctKeys(RetagDoc(d));
  }
}
