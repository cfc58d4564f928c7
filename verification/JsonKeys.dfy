/** What adding to and assigning in a JSON tree means: the add and set methods of json/Object.cpp,
    json/List.cpp and json/Value.cpp, as functions on trees, and Object::generateKey. */
module JsonKeys {
  import opened Common
  import opened JsonText
  import opened JsonDoc
  import opened JsonParse

  // ----- generated keys

  function KeyName(i: nat): string { "key" + Decimal(i) }

  lemma KeyNamesDiffer(i: nat, j: nat)
    requires KeyName(i) == KeyName(j)
    ensures i == j
  {
    assert Decimal(i) == KeyName(i)[3..] && Decimal(j) == KeyName(j)[3..];
    DecimalInjective(i, j);
  }

  /** The number of the first free name from i on. */
  function FreeFrom(keys: set<string>, i: nat): (j: nat)
    ensures i <= j && KeyName(j) !in keys
    ensures forall l :: i <= l < j ==> KeyName(l) in keys
    decreases keys
  {
    if KeyName(i) !in keys then i
    else
      var j := FreeFrom(keys - {KeyName(i)}, i + 1);
      assert KeyName(j) !in keys by { if KeyName(j) == KeyName(i) { KeyNamesDiffer(i, j); } }
      j
  }

  /** generateKey starts at the number of members. */
  function GeneratedKey(keys: set<string>): (k: string)
    ensures k !in keys
  {
    KeyName(FreeFrom(keys, |keys|))
  }

  function KeyFor(keys: set<string>, name: string): string { if name == "" then GeneratedKey(keys) else name }

  method GenerateKey(keys: set<string>) returns (ret: string)
    ensures ret == GeneratedKey(keys)
  {
    var i := |keys|;
    ghost var tried: set<string> := {};
    ret := KeyName(i);
    i := i + 1;
    while ret in keys
      invariant |keys| < i && ret == KeyName(i - 1)
      invariant tried <= keys && forall l: nat :: |keys| <= l < i - 1 ==> KeyName(l) in keys
      invariant forall k :: k in tried ==> exists l: nat :: l < i - 1 && k == KeyName(l)
      decreases keys - tried
    {
      assert ret !in tried by {
        if ret in tried {
          var l: nat :| l < i - 1 && ret == KeyName(l);
          KeyNamesDiffer(l, i - 1);
        }
      }
      tried := tried + {ret};
      ret := KeyName(i);
      i := i + 1;
    }
    var j := FreeFrom(keys, |keys|);
    assert j == i - 1;
  }

  // ----- operations on trees

  /** Adding x under a name; a value ignores it. */
  function AddTo(t: Tree, name: string, x: Tree): Tree {
    match t
    case ObjT(m) => ObjT(m[KeyFor(m.Keys, name) := x])
    case LstT(es) => LstT(es + [x])
    case ValT(_, _) => t
  }

  /** Assigning a leaf; an object or a list ignores it. */
  function SetTo(t: Tree, text: string, subType: SubType): Tree {
    if t.ValT? then ValT(text, subType) else t
  }

  /** What a user does to a node. Texts of numbers and booleans are as an output stream prints them. */
  datatype Op =
    | AddObject(name: string)
    | AddList(name: string)
    | AddString(name: string, value: string)               // addValue(std::string)
    | AddLeaf(name: string, text: string, subType: SubType) // addValue of a number or a bool
    | SetString(value: string)                              // operator= of a string
    | SetLeaf(text: string, subType: SubType)               // operator= of a number or a bool

  function ApplyHere(t: Tree, op: Op): Tree {
    match op
    case AddObject(name) => AddTo(t, name, ObjT(map[]))
    case AddList(name) => AddTo(t, name, LstT([]))
    case AddString(name, value) => AddTo(t, name, MakeValue(value, String))
    case AddLeaf(name, text, subType) => AddTo(t, name, ValT(text, subType))
    case SetString(value) => SetTo(t, Unescape(value), String)
    case SetLeaf(text, subType) => SetTo(t, text, subType)
  }

  /** One operator[]. */
  datatype Hop = Key(key: string) | Index(i: nat)

  /** The operation at the node that the operators lead to; where they lead nowhere nothing changes. */
  function ApplyAt(t: Tree, path: seq<Hop>, op: Op): Tree
    decreases |path|
  {
    if path == [] then ApplyHere(t, op)
    else match path[0]
      case Key(k) => if t.ObjT? && k in t.members then ObjT(t.members[k := ApplyAt(t.members[k], path[1..], op)]) else t
      case Index(i) => if t.LstT? && i < |t.elems| then LstT(t.elems[i := ApplyAt(t.elems[i], path[1..], op)]) else t
  }

  function ApplyAll(t: Tree, ops: seq<(seq<Hop>, Op)>): Tree
    decreases |ops|
  {
    if ops == [] then t else ApplyAll(ApplyAt(t, ops[0].0, ops[0].1), ops[1..])
  }

  /** Adding without a name never replaces a member, and every member stays. */
  lemma UnnamedAddKeepsAll(m: map<string, Tree>, x: Tree)
    ensures var r := AddTo(ObjT(m), "", x).members;
            && |r| == |m| + 1 && (forall k :: k in m ==> k in r && r[k] == m[k])
            && (exists k :: k in r && k !in m && r[k] == x)
  {
    var k := GeneratedKey(m.Keys);
    assert k in AddTo(ObjT(m), "", x).members;
  }

  /** A string that is assigned is read back unchanged exactly when it has no escape sequence in it. */
  lemma {:induction false} AssignedStringKept(s: string)
    ensures Unescape(s) == s <==> forall i :: 0 <= i < |s| - 1 && s[i] == '\\' ==> Unescaped(s[i + 1]).None?
  {
    UnescapeShortens(s);
  }

  lemma {:induction false} UnescapeShortens(s: string)
    ensures |Unescape(s)| <= |s|
    ensures Unescape(s) == s <==> forall i :: 0 <= i < |s| - 1 && s[i] == '\\' ==> Unescaped(s[i + 1]).None?
    ensures Unescape(s) != s ==> |Unescape(s)| < |s|
  {
    if s != "" {
      if s[0] == '\\' && |s| > 1 && Unescaped(s[1]).Some? {
        UnescapeShortens(s[2..]);
      } else {
        var t := s[1..];
        UnescapeShortens(t);
        assert s == [s[0]] + t;
        assert forall i :: 0 < i < |s| - 1 ==> s[i] == t[i - 1] && s[i + 1] == t[i];
        if Unescape(s) == s {
          assert Unescape(t) == Unescape(s)[1..] == t;
        }
        if exists i :: 0 <= i < |t| - 1 && t[i] == '\\' && Unescaped(t[i + 1]).Some? {
          var i :| 0 <= i < |t| - 1 && t[i] == '\\' && Unescaped(t[i + 1]).Some?;
          assert s[i + 1] == '\\' && s[i + 1 + 1] == t[i + 1];
        }
      }
    }
  }
}
