/** The tree on the heap: the classes Object, List and Value of the JSON library as one class of nodes,
    with printing, deep copy, adding and assigning. */
module JsonNode {
  import opened Common
  import opened JsonText
  import opened JsonDoc
  import opened JsonParse
  import opened JsonRoundTrip
  import opened JsonKeys

  datatype NodeKind = ObjectNode | ListNode | ValueNode

  class Node {
    const kind: NodeKind
    var members: map<string, Node>
    var elems: seq<Node>
    var mValue: string
    var mSubType: SubType
    ghost var Repr: set<Node>

    ghost predicate Valid()
      reads this, Repr
      ensures Valid() ==> this in Repr
      decreases Repr
    {
      && this in Repr
      && (kind != ObjectNode ==> members == map[]) && (kind != ListNode ==> elems == [])
      && (forall k :: k in members ==>
            members[k] in Repr && members[k].Repr <= Repr && this !in members[k].Repr && members[k].Valid())
      && (forall j, k :: j in members && k in members && j != k ==> members[j].Repr !! members[k].Repr)
      && (forall i :: 0 <= i < |elems| ==>
            elems[i] in Repr && elems[i].Repr <= Repr && this !in elems[i].Repr && elems[i].Valid())
      && (forall i, j :: 0 <= i < j < |elems| ==> elems[i].Repr !! elems[j].Repr)
    }

    /** The tree this node is the root of. */
    ghost function Tree(): Tree
      requires Valid()
      reads this, Repr
      decreases Repr
    {
      match kind
      case ObjectNode => ObjT(map k | k in members :: members[k].Tree())
      case ListNode => LstT(seq(|elems|, i requires 0 <= i < |elems| && Valid() reads this, Repr => elems[i].Tree()))
      case ValueNode => ValT(mValue, mSubType)
    }

    lemma MemberOk(k: string)
      requires Valid() && k in members
      ensures members[k].Valid() && members[k].Repr <= Repr - {this} && members[k] in Repr
    {
    }

    lemma ElemOk(i: nat)
      requires Valid() && i < |elems|
      ensures elems[i].Valid() && elems[i].Repr <= Repr - {this} && elems[i] in Repr
    {
    }

    lemma TreeOfObject()
      requires Valid() && kind == ObjectNode
      ensures Tree().ObjT? && Tree().members.Keys == members.Keys
      ensures forall k :: k in members ==> members[k].Valid() && Tree().members[k] == members[k].Tree()
    {
    }

    lemma TreeOfList()
      requires Valid() && kind == ListNode
      ensures Tree().LstT? && |Tree().elems| == |elems|
      ensures forall i :: 0 <= i < |elems| ==> elems[i].Valid() && Tree().elems[i] == elems[i].Tree()
    {
    }

    lemma TreeOfValue()
      requires Valid() && kind == ValueNode
      ensures Tree() == ValT(mValue, mSubType)
    {
    }

    constructor Container(kind: NodeKind)
      requires kind != ValueNode
      ensures Valid() && fresh(Repr) && this.kind == kind
      ensures Tree() == if kind == ObjectNode then ObjT(map[]) else LstT([])
    {
      this.kind, members, elems, mValue, mSubType := kind, map[], [], "", String;
      Repr := {this};
    }

    constructor Leaf(value: string, subType: SubType)
      ensures Valid() && fresh(Repr) && Tree() == ValT(value, subType)
    {
      kind, members, elems, mValue, mSubType := ValueNode, map[], [], value, subType;
      Repr := {this};
    }

    /** The assignment itself: the node stays a tree. */
    method Link(key: string, item: Node)
      requires Valid() && kind == ObjectNode && item.Valid() && item.Repr !! Repr
      modifies this
      ensures Valid() && Repr == old(Repr) + item.Repr && members == old(members)[key := item]
    {
      hide Tree;
      ghost var ms := members;
      members := members[key := item];
      Repr := Repr + item.Repr;
      forall k | k in members
        ensures members[k] in Repr && members[k].Repr <= Repr && this !in members[k].Repr && members[k].Valid()
      {
        if k != key { assert k in ms && members[k] == ms[k]; }
      }
    }

    /** mMembers[key] = item; the node that was there, if any, is dropped. */
    method SetMember(key: string, item: Node)
      requires Valid() && kind == ObjectNode && item.Valid() && item.Repr !! Repr
      modifies this
      ensures Valid() && Repr == old(Repr) + item.Repr
      ensures Tree() == ObjT(old(Tree()).members[key := item.Tree()])
    {
      hide Tree, Valid;
      TreeOfObject();
      ghost var was, ms := Tree(), members;
      forall k | k in ms ensures ms[k].Valid() && this !in ms[k].Repr { MemberOk(k); }
      DisjointFromThis(item);
      Link(key, item);
      TreeOfObject();
      forall k | k in members && k != key ensures members[k].Tree() == was.members[k] {
        assert k in ms && members[k] == ms[k];
      }
      assert Tree().members == was.members[key := item.Tree()];
    }

    lemma DisjointFromThis(item: Node)
      requires Valid() && item.Repr !! Repr
      ensures this !in item.Repr
    {
    }

    method PushBack(item: Node)
      requires Valid() && kind == ListNode && item.Valid() && item.Repr !! Repr
      modifies this
      ensures Valid() && Repr == old(Repr) + item.Repr
      ensures Tree() == LstT(old(Tree()).elems + [item.Tree()])
    {
      hide Tree;
      TreeOfList();
      ghost var was := Tree();
      elems := elems + [item];
      Repr := Repr + item.Repr;
      assert Valid();
      TreeOfList();
      assert Tree().elems == was.elems + [item.Tree()];
    }

    /** The add methods: objects take the name or generate one, lists ignore it, values refuse. */
    method Add(name: string, item: Node)
      requires Valid() && item.Valid() && item.Repr !! Repr
      modifies this
      ensures Valid() && Repr <= old(Repr) + item.Repr
      ensures Tree() == AddTo(old(Tree()), name, item.Tree())
    {
      hide GeneratedKey, Valid, Tree;
      match kind {
        case ObjectNode =>
          TreeOfObject();
          var key := name;
          if name == "" {
            key := GenerateKey(members.Keys);
          }
          SetMember(key, item);
        case ListNode => TreeOfList(); PushBack(item);
        case ValueNode => TreeOfValue();
      }
    }

    method Assign(text: string, subType: SubType)
      requires Valid()
      modifies this
      ensures Valid() && Repr == old(Repr) && Tree() == SetTo(old(Tree()), text, subType)
    {
      if kind == ValueNode {
        mValue, mSubType := text, subType;
      }
    }

    method ApplyOp(op: Op)
      requires Valid()
      modifies this
      ensures Valid() && fresh(Repr - old(Repr)) && Tree() == ApplyHere(old(Tree()), op)
    {
      hide Valid, Tree, AddTo, SetTo, Unescape;
      if op.AddObject? {
        var item := new Node.Container(ObjectNode);
        Add(op.name, item);
      } else if op.AddList? {
        var item := new Node.Container(ListNode);
        Add(op.name, item);
      } else if op.AddString? {
        var item := new Node.Leaf(Unescape(op.value), String);
        Add(op.name, item);
      } else if op.AddLeaf? {
        var item := new Node.Leaf(op.text, op.subType);
        Add(op.name, item);
      } else if op.SetString? {
        Assign(Unescape(op.value), String);
      } else {
        Assign(op.text, op.subType);
      }
    }

    /** A chain of operator[] and then an operation on the node it leads to. */
    method Apply(path: seq<Hop>, op: Op)
      requires Valid()
      modifies Repr
      ensures Valid() && fresh(Repr - old(Repr)) && Tree() == ApplyAt(old(Tree()), path, op)
      decreases |path|, 0
    {
      hide Valid, Tree;
      if path == [] {
        ApplyOp(op);
        return;
      }
      match path[0] {
        case Key(k) =>
          if kind == ObjectNode {
            TreeOfObject();
            if k in members { ApplyToMember(k, path[1..], op); }
          } else { NotObject(); }
        case Index(i) =>
          if kind == ListNode {
            TreeOfList();
            if i < |elems| { ApplyToElem(i, path[1..], op); }
          } else { NotList(); }
      }
    }

    lemma NotObject()
      requires Valid() && kind != ObjectNode
      ensures !Tree().ObjT?
    {
    }

    lemma NotList()
      requires Valid() && kind != ListNode
      ensures !Tree().LstT?
    {
    }

    /** A change below one member leaves the node a tree and the other members as they were. */
    method ApplyBelow(k: string, path: seq<Hop>, op: Op)
      requires Valid() && kind == ObjectNode && k in members
      modifies Repr
      ensures Valid() && fresh(Repr - old(Repr)) && members == old(members)
      ensures forall j :: j in members && j != k ==> members[j].Valid() && old(members[j].Valid())
                                                     && members[j].Tree() == old(members[j].Tree())
      ensures old(members[k].Valid()) && members[k].Valid()
      ensures members[k].Tree() == ApplyAt(old(members[k].Tree()), path, op)
      decreases |path|, 1
    {
      hide Tree, ApplyAt, Valid;
      ShapeOf();
      var c := members[k];
      c.Apply(path, op);
      Repr := Repr + c.Repr;
      assert forall j :: j in members && j != k ==> members[j].Repr !! c.Repr;
      ShapeIsValid();
    }

    /** Valid() of an object, spelled out. */
    ghost predicate ObjectShape()
      reads this, Repr
    {
      && this in Repr && elems == []
      && (forall k :: k in members ==>
            members[k] in Repr && members[k].Repr <= Repr && this !in members[k].Repr && members[k].Valid())
      && (forall j, k :: j in members && k in members && j != k ==> members[j].Repr !! members[k].Repr)
    }

    lemma ShapeOf()
      requires Valid() && kind == ObjectNode
      ensures ObjectShape()
    {
    }

    lemma ShapeIsValid()
      requires ObjectShape() && kind == ObjectNode
      ensures Valid()
    {
    }

    method ApplyToMember(k: string, path: seq<Hop>, op: Op)
      requires Valid() && kind == ObjectNode && k in members
      requires Tree().ObjT? && k in Tree().members
      modifies Repr
      ensures Valid() && fresh(Repr - old(Repr))
      ensures Tree() == ObjT(old(Tree()).members[k := ApplyAt(old(Tree()).members[k], path, op)])
      decreases |path|, 2
    {
      hide Tree, ApplyAt, Valid;
      ghost var was := Tree();
      TreeOfObject();
      ApplyBelow(k, path, op);
      TreeOfObject();
      assert Tree().members == was.members[k := members[k].Tree()];
    }

    method ApplyToElem(i: nat, path: seq<Hop>, op: Op)
      requires Valid() && kind == ListNode && i < |elems|
      requires Tree().LstT? && i < |Tree().elems|
      modifies Repr
      ensures Valid() && fresh(Repr - old(Repr))
      ensures Tree() == LstT(old(Tree()).elems[i := ApplyAt(old(Tree()).elems[i], path, op)])
      decreases |path|, 1
    {
      hide Tree, ApplyAt;
      ghost var was := Tree();
      TreeOfList();
      var c := elems[i];
      c.Apply(path, op);
      Repr := Repr + c.Repr;
      assert Valid();
      TreeOfList();
      assert forall j :: 0 <= j < |elems| && j != i ==> elems[j].Tree() == was.elems[j];
      assert Tree().elems == was.elems[i := c.Tree()];
    }

    /** copy(): a tree of new nodes. */
    method Copy() returns (r: Node)
      requires Valid()
      ensures r.Valid() && fresh(r.Repr) && r.Tree() == Tree()
      decreases Repr, 1
    {
      if kind == ValueNode {
        r := new Node.Leaf(mValue, mSubType);
      } else if kind == ListNode {
        r := CopyList();
      } else {
        r := CopyObject();
      }
    }

    method CopyList() returns (r: Node)
      requires Valid() && kind == ListNode
      ensures r.Valid() && fresh(r.Repr) && r.Tree() == Tree()
      decreases Repr, 0
    {
      hide Valid, Tree;
      r := new Node.Container(ListNode);
      TreeOfList();
      for i := 0 to |elems|
        invariant Valid() && r.Valid() && fresh(r.Repr) && r.kind == ListNode
        invariant r.Tree() == LstT(Tree().elems[..i])
      {
        TreeOfList();
        ElemOk(i);
        ghost var t := elems[i].Tree();
        var p := elems[i].Copy();
        r.PushBack(p);
        assert Tree().elems[..i] + [t] == Tree().elems[..i + 1];
      }
      assert Tree().elems[..|elems|] == Tree().elems;
    }

    method CopyObject() returns (r: Node)
      requires Valid() && kind == ObjectNode
      ensures r.Valid() && fresh(r.Repr) && r.Tree() == Tree()
      decreases Repr, 0
    {
      hide Valid, Tree;
      r := new Node.Container(ObjectNode);
      var keys := members.Keys;
      TreeOfObject();
      ghost var m := Tree().members;
      while keys != {}
        invariant keys <= members.Keys
        invariant Valid() && Tree() == ObjT(m)
        invariant r.Valid() && fresh(r.Repr) && r.kind == ObjectNode
        invariant r.Tree() == ObjT(m - keys)
        decreases keys
      {
        var k :| k in keys;
        TreeOfObject();
        MemberOk(k);
        var p := members[k].Copy();
        r.SetMember(k, p);
        assert (m - keys)[k := m[k]] == m - (keys - {k});
        keys := keys - {k};
      }
      assert m - {} == m;
    }

    /** stringify: the members come in whatever order the hash map has. */
    method Stringify(level: int) returns (ss: string)
      requires Valid() && -1 <= level
      ensures IsPrint(ss, Tree(), StyleOf(level))
      decreases Repr, 1
    {
      if kind == ValueNode {
        TreeOfValue();
        ghost var d := Val(mValue, mSubType);
        assert DistinctKeys(d) && Meaning(d) == Tree();
        if mSubType == Illegal || mSubType == String {
          var e := EscapeLoop(mValue);
          ss := "\"" + e + "\"";
        } else {
          ss := mValue;
        }
      } else if kind == ListNode {
        ss := StringifyList(level);
      } else {
        ss := StringifyObject(level);
      }
    }

    method StringifyObject(level: int) returns (ss: string)
      requires Valid() && kind == ObjectNode && -1 <= level
      ensures IsPrint(ss, Tree(), StyleOf(level))
      decreases Repr, 0
    {
      hide Valid, Tree, Print, Meaning, Quoted, Join, Pad, EndPad, Newline, MeaningMembers, MemberTexts, PrintMembers;
      NoMembers(StyleOf(level));
      ghost var st := StyleOf(level);
      ghost var ms: seq<Member>, items: seq<string> := [], [];
      TreeOfObject();
      ghost var m := Tree().members;
      ss := "{" + WriteNewline(level);
      assert Join([], st, false) == "" by { JoinNone(st, false); JoinNone(st, true); }
      var keys := members.Keys;
      ghost var body := "";
      JoinNone(st, keys != {});
      while keys != {}
        invariant keys <= members.Keys && Valid() && Tree() == ObjT(m) && m.Keys == members.Keys
        invariant MeaningMembers(ms) == m - keys
        invariant forall i :: 0 <= i < |ms| ==> ms[i].key !in keys && DistinctKeys(ms[i].value)
        invariant forall i, j :: 0 <= i < j < |ms| ==> ms[i].key != ms[j].key
        invariant items == MemberTexts(ms, st)
        invariant body == Join(items, st, keys != {})
        invariant ss == "{" + Newline(st) + body
        decreases keys
      {
        var k :| k in keys;
        TreeOfObject();
        MemberOk(k);
        keys := keys - {k};
        var v := members[k].Stringify(if level == -1 then -1 else level + 1);
        ghost var dv := Printed(v, m[k], StyleOf(if level == -1 then -1 else level + 1));
        var item := "\"" + k + "\" : " + v;
        ghost var member := Member(k, dv);
        PrintedMember(member, level, v);
        MemberTextsAppend(ms, member, st);
        JoinAppend(items, item, st, keys != {});
        MeaningAppend(ms, member);
        TakeKey(m, keys, k);
        ghost var piece := Pad(st) + item + (Comma(keys != {}) + Newline(st));
        var text := WriteTabs(level) + item + ((if keys != {} then "," else "") + WriteNewline(level));
        assert text == piece;
        ss := ss + text;
        Regroup("{" + Newline(st), body, piece);
        body := body + piece;
        ms, items := ms + [member], items + [item];
      }
      assert m - {} == m;
      MembersAreJoined(ms, st);
      MeaningOfObj(ms);
      ss := ss + (WriteTabs(level - 1) + "}");
      PrintedObject(ms, level, body);
      assert DistinctKeys(Obj(ms));
    }

    method StringifyList(level: int) returns (ss: string)
      requires Valid() && kind == ListNode && -1 <= level
      ensures IsPrint(ss, Tree(), StyleOf(level))
      decreases Repr, 0
    {
      hide Valid, Tree, Print, Meaning, Quoted, Join, Pad, EndPad, Newline, MeaningElems, ElemTexts;
      ghost var st := StyleOf(level);
      ghost var es: seq<Doc>, items: seq<string> := [], [];
      TreeOfList();
      ghost var t := Tree().elems;
      NoElems(st);
      ss := "[" + WriteNewline(level);
      ghost var body := "";
      JoinNone(st, |elems| > 0);
      for i := 0 to |elems|
        invariant Valid() && Tree() == LstT(t) && |t| == |elems|
        invariant MeaningElems(es) == t[..i]
        invariant forall j :: 0 <= j < |es| ==> DistinctKeys(es[j])
        invariant items == ElemTexts(es, st)
        invariant body == Join(items, st, i < |elems|)
        invariant ss == "[" + Newline(st) + body
      {
        TreeOfList();
        ElemOk(i);
        var v := elems[i].Stringify(if level == -1 then -1 else level + 1);
        ghost var dv := Printed(v, t[i], StyleOf(if level == -1 then -1 else level + 1));
        PaddedAt(level);
        ElemTextsAppend(es, dv, st);
        JoinAppend(items, v, st, i + 1 < |elems|);
        MeaningElemsAppend(es, dv);
        assert t[..i] + [t[i]] == t[..i + 1];
        ghost var piece := Pad(st) + v + (Comma(i + 1 < |elems|) + Newline(st));
        var text := WriteTabs(level) + v + ((if i + 1 < |elems| then "," else "") + WriteNewline(level));
        assert text == piece;
        ss := ss + text;
        Regroup("[" + Newline(st), body, piece);
        body := body + piece;
        es, items := es + [dv], items + [v];
      }
      assert t[..|elems|] == t;
      ElemsAreJoined(es, st);
      MeaningOfLst(es);
      ss := ss + (WriteTabs(level - 1) + "]");
      PrintedList(es, level, body);
      assert DistinctKeys(Lst(es));
    }
  }

  // ----- nodes made from a text

  /** The node of one parsed value. */
  method NewItem(p: Property) returns (n: Node)
    requires p.kind != Invalid
    ensures n.Valid() && fresh(n.Repr) && n.Tree() == MakeTree(p)
    decreases if p.kind == Object || p.kind == List then |p.value| else 0, 1
  {
    hide ParseObject, ParseList, Unescape;
    if p.kind == Object {
      n := NewObject(p.value);
    } else if p.kind == List {
      n := NewList(p.value);
    } else if p.subType == Bool {
      n := new Node.Leaf(LowerAll(p.value), p.subType);
    } else {
      var text := UnescapeLoop(p.value);
      n := new Node.Leaf(text, p.subType);
    }
  }

  /** Object's constructor: parseObject on a node without members. */
  method NewObject(str: string) returns (n: Node)
    ensures n.Valid() && fresh(n.Repr) && n.kind == ObjectNode && n.Tree() == ObjT(ParseObject(str))
    decreases |str|, 0
  {
    hide GetPair, MakeTree, Node.Valid, Node.Tree;
    n := new Node.Container(ObjectNode);
    if |str| < 1 {
      return;
    }
    if str[0] != '{' {
      return;
    }
    var tmp := str[1..];
    var i := 1;
    ghost var m: map<string, Tree> := map[];
    while i < |str|
      invariant 1 <= i <= |str| && tmp == str[i..]
      invariant n.Valid() && fresh(n.Repr) && n.kind == ObjectNode && n.Tree() == ObjT(m)
      invariant ParseMembers(tmp, m) == ParseObject(str)
      decreases |str| - i
    {
      var p := GetPairCall(tmp);
      if p.val.kind == Invalid {
        return;
      }
      var item := NewItem(p.val);
      n.SetMember(p.key, item);
      m := m[p.key := MakeTree(p.val)];
      if At(tmp, p.size) != ',' {
        return;
      }
      assert tmp[p.size + 1..] == str[i + p.size + 1..];
      i := i + p.size + 1;
      tmp := str[i..];
    }
  }

  /** List's constructor. */
  method NewList(str: string) returns (n: Node)
    ensures n.Valid() && fresh(n.Repr) && n.kind == ListNode && n.Tree() == LstT(ParseList(str))
    decreases |str|, 0
  {
    hide GetValue, MakeTree, Node.Valid, Node.Tree;
    n := new Node.Container(ListNode);
    if |str| < 1 {
      return;
    }
    if str[0] != '[' {
      return;
    }
    var tmp := str[1..];
    var i := 1;
    ghost var es: seq<Tree> := [];
    while i < |str|
      invariant 1 <= i <= |str| && tmp == str[i..]
      invariant n.Valid() && fresh(n.Repr) && n.kind == ListNode && n.Tree() == LstT(es)
      invariant ParseElems(tmp, es) == ParseList(str)
      decreases |str| - i
    {
      var p := GetValueCall(tmp);
      if p.kind == Invalid {
        return;
      }
      var item := NewItem(p);
      n.PushBack(item);
      es := es + [MakeTree(p)];
      if At(tmp, p.size) != ',' {
        return;
      }
      assert tmp[p.size + 1..] == str[i + p.size + 1..];
      i := i + p.size + 1;
      tmp := str[i..];
    }
  }

  // ----- what the print loops write

  function StyleOf(level: int): Style
    requires -1 <= level
  {
    if level == -1 then Plain else Indented(level)
  }

  function WriteTabs(n: int): string { if n > 0 then Tabs(n) else "" }

  function WriteNewline(level: int): (s: string)
    requires -1 <= level
    ensures s == Newline(StyleOf(level))
  {
    if level != -1 then "\r\n" else ""
  }

  lemma JoinNone(st: Style, more: bool)
    ensures Join([], st, more) == ""
  {
  }

  lemma TakeKey(m: map<string, Tree>, keys: set<string>, k: string)
    requires k in m && k !in keys
    ensures (m - (keys + {k}))[k := m[k]] == m - keys
  {
  }

  lemma NoMembers(st: Style)
    ensures MeaningMembers([]) == map[] && MemberTexts([], st) == []
  {
  }

  lemma NoElems(st: Style)
    ensures MeaningElems([]) == [] && ElemTexts([], st) == []
  {
  }

  lemma MeaningOfObj(ms: seq<Member>)
    ensures Meaning(Obj(ms)) == ObjT(MeaningMembers(ms))
  {
  }

  lemma MeaningOfLst(es: seq<Doc>)
    ensures Meaning(Lst(es)) == LstT(MeaningElems(es))
  {
  }

  lemma PaddedAt(level: int)
    requires -1 <= level
    ensures WriteTabs(level) == Pad(StyleOf(level))
    ensures StyleOf(if level == -1 then -1 else level + 1) == Deeper(StyleOf(level))
  {
    if level == 0 { assert Tabs(0) == ""; }
  }

  lemma PrintedList(es: seq<Doc>, level: int, body: string)
    requires -1 <= level && body == PrintElems(es, StyleOf(level))
    ensures "[" + Newline(StyleOf(level)) + body + (WriteTabs(level - 1) + "]") == Print(Lst(es), StyleOf(level))
  {
    hide PrintElems;
  }

  lemma PrintedMember(m: Member, level: int, v: string)
    requires -1 <= level && v == Print(m.value, StyleOf(if level == -1 then -1 else level + 1))
    ensures PrintMember(m, StyleOf(level)) == "\"" + m.key + "\" : " + v
    ensures WriteTabs(level) == Pad(StyleOf(level))
  {
    hide Print;
    assert Quoted(m.key) + " : " == "\"" + m.key + "\" : ";
    if level == 0 { assert Tabs(0) == ""; }
  }

  lemma PrintedObject(ms: seq<Member>, level: int, body: string)
    requires -1 <= level && body == PrintMembers(ms, StyleOf(level))
    ensures "{" + Newline(StyleOf(level)) + body + (WriteTabs(level - 1) + "}") == Print(Obj(ms), StyleOf(level))
  {
    hide PrintMembers;
  }
}
