/** The parser: json/Parser.cpp for one key or value, Object::parseObject and List::parseList for the
    trees, Value's constructor for the leaves, JSON::parse for the whole. */
module JsonParse {
  import opened Common
  import opened JsonText
  import opened JsonScan
  import opened JsonDoc

  /** A tree as the parser builds it; the order of an object's members is not part of it. */
  datatype Tree = ObjT(members: map<string, Tree>) | LstT(elems: seq<Tree>) | ValT(text: string, subType: SubType)

  datatype Kind = Invalid | Object | List | Value

  /** JSONProperty and Pair. */
  datatype Property = Property(kind: Kind, value: string, subType: SubType, size: nat)

  datatype Pair = Pair(key: string, val: Property, size: nat)

  const NO_VALUE := Property(Invalid, "", Illegal, 0)

  // ----- one key or value

  /** The text a std::string made from a char pointer has. */
  function CString(s: string): (r: string)
    ensures |r| <= |s| && r == s[..|r|] && '\0' !in r
  {
    if s == "" || s[0] == '\0' then "" else [s[0]] + CString(s[1..])
  }

  function ParseString(s: string): (r: string)
    ensures |r| < |s| || s == ""
  {
    match FindClosingQuote(s)
    case None => ""
    case Some(i) => if i < 3 then "" else s[1..i - 1]
  }

  function ParseNaked(s: string): (r: string)
    ensures |r| <= |s| && r == s[..|r|] && Naked(r)
    ensures |r| < |s| ==> !NakedChar(s[|r|])
  {
    if s == "" || !NakedChar(s[0]) then "" else [s[0]] + ParseNaked(s[1..])
  }

  function GetValue(s: string): (p: Property)
    ensures p.kind == Object || p.kind == List ==> |p.value| <= |s|
  {
    if s == "" then NO_VALUE
    else if s[0] == '{' then Container(Object, CURLY, s)
    else if s[0] == '[' then Container(List, SQUARE, s)
    else if s[0] == '"' then
      var value := ParseString(s);
      Property(Value, value, String, |value| + 2)
    else if NakedChar(s[0]) then
      var text := ParseNaked(s);
      var nrv := Validate(text);
      Property(Value, if nrv == Illegal then "{illegal}" else text, nrv, |text|)
    else NO_VALUE
  }

  function Container(kind: Kind, b: Brackets, s: string): (p: Property)
    ensures p.kind == Object || p.kind == List ==> |p.value| <= |s|
  {
    FindClosingInside(b, s);
    match FindClosing(b, s)
    case None => NO_VALUE
    case Some(i) => Property(kind, s[..i], Illegal, i)
  }

  lemma FindClosingInside(b: Brackets, s: string)
    ensures FindClosing(b, s).Some? ==> FindClosing(b, s).value <= |s|
  {
    if s != "" && s[0] == b.open { ScanInside(b, s[1..], 1); }
  }

  function GetPair(s: string): (p: Pair)
    ensures p.val.kind == Object || p.val.kind == List ==> |p.val.value| < |s|
  {
    var key := ParseString(s);
    if key == "" then Pair("", NO_VALUE, 0)
    else
      var size := |key| + 2;
      if At(s, size) != ':' then Pair(key, NO_VALUE, size)
      else
        var val := GetValue(CString(Drop(s, size + 1)));
        Pair(key, val, size + 1 + val.size)
  }

  // ----- the same, as the parser computes it

  lemma ParseNakedOfNone()
    ensures forall s: string :: (s == "" || !NakedChar(s[0])) ==> ParseNaked(s) == ""
  {
  }

  lemma NakedUnfolds(s: string, i: nat)
    requires NakedChar(At(s, i))
    ensures i < |s| && ParseNaked(s[i..]) == [s[i]] + ParseNaked(s[i + 1..])
  {
    assert s[i..][1..] == s[i + 1..];
  }

  method ParseNakedValue(str: string) returns (ret: string)
    ensures ret == ParseNaked(str)
  {
    if |str| < 1 {
      return "";
    }
    hide NakedChar, ParseNaked;
    ParseNakedOfNone();
    ret := "";
    var i := 0;
    while NakedChar(At(str, i))
      invariant i <= |str| && ret + ParseNaked(str[i..]) == ParseNaked(str)
      decreases |str| - i
    {
      NakedUnfolds(str, i);
      Regroup(ret, [str[i]], ParseNaked(str[i + 1..]));
      ret := ret + [str[i]];
      i := i + 1;
      if i >= |str| {
        break;
      }
    }
  }

  method ParseStringCall(str: string) returns (ret: string)
    ensures ret == ParseString(str)
  {
    if |str| < 1 {
      return "";
    }
    if str[0] != '"' {
      return "";
    }
    var i := FindClosingQuoteLoop(str);
    if i.None? || i.value < 3 {
      return "";
    }
    return str[1..i.value - 1];
  }

  method GetValueCall(str: string) returns (val: Property)
    ensures val == GetValue(str)
  {
    hide FindClosing, FindClosingQuote, Check;
    if |str| < 1 {
      return NO_VALUE;
    }
    if str[0] == '{' {
      var i := FindClosingLoop(CURLY, str);
      if i.None? {
        return NO_VALUE;
      }
      FindClosingInside(CURLY, str);
      return Property(Object, str[..i.value], Illegal, i.value);
    } else if str[0] == '[' {
      var i := FindClosingLoop(SQUARE, str);
      if i.None? {
        return NO_VALUE;
      }
      FindClosingInside(SQUARE, str);
      return Property(List, str[..i.value], Illegal, i.value);
    } else if str[0] == '"' {
      var value := ParseStringCall(str);
      return Property(Value, value, String, |value| + 2);
    } else if NakedChar(str[0]) {
      var tmp := ParseNakedValue(str);
      var nrv := ValidateNakedValue(tmp);
      if nrv == Illegal {
        return Property(Value, "{illegal}", nrv, |tmp|);
      }
      return Property(Value, tmp, nrv, |tmp|);
    }
    return NO_VALUE;
  }

  method GetPairCall(str: string) returns (p: Pair)
    ensures p == GetPair(str)
  {
    hide GetValue, ParseString, CString, Drop;
    var key := ParseStringCall(str);
    if key == "" {
      return Pair("", NO_VALUE, 0);
    }
    var size := |key| + 2;
    if At(str, size) != ':' {
      return Pair(key, NO_VALUE, size);
    }
    size := size + 1;
    var val := GetValueCall(CString(Drop(str, size)));
    return Pair(key, val, size + val.size);
  }

  // ----- trees

  /** Value's constructor. */
  function MakeValue(value: string, subType: SubType): Tree {
    ValT(if subType == Bool then LowerAll(value) else Unescape(value), subType)
  }

  function MakeTree(p: Property): Tree
    decreases if p.kind == Object || p.kind == List then |p.value| else 0, 1
  {
    match p.kind
    case Object => ObjT(ParseObject(p.value))
    case List => LstT(ParseList(p.value))
    case _ => MakeValue(p.value, p.subType)
  }

  /** parseObject; a text that does not start like an object gives no members. */
  function ParseObject(s: string): map<string, Tree>
    decreases |s|, 0
  {
    if s == "" || s[0] != '{' then map[] else ParseMembers(s[1..], map[])
  }

  /** The loop of parseObject from a member on. */
  function ParseMembers(tmp: string, acc: map<string, Tree>): map<string, Tree>
    decreases |tmp|, 2
  {
    if tmp == "" then acc
    else
      var p := GetPair(tmp);
      if p.val.kind == Invalid then acc
      else
        var acc' := acc[p.key := MakeTree(p.val)];
        if At(tmp, p.size) == ',' then ParseMembers(tmp[p.size + 1..], acc') else acc'
  }

  function ParseList(s: string): seq<Tree>
    decreases |s|, 0
  {
    if s == "" || s[0] != '[' then [] else ParseElems(s[1..], [])
  }

  /** The loop of parseList from an element on. */
  function ParseElems(tmp: string, acc: seq<Tree>): seq<Tree>
    decreases |tmp|, 2
  {
    if tmp == "" then acc
    else
      var p := GetValue(tmp);
      if p.kind == Invalid then acc
      else
        var acc' := acc + [MakeTree(p)];
        if At(tmp, p.size) == ',' then ParseElems(tmp[p.size + 1..], acc') else acc'
  }

  /** JSON::parse: the root is always an object. */
  function Parse(json: string): Tree { ObjT(ParseObject(RemoveSpaces(json))) }
}
