/** Where the changes of JsonKeys show up: what operator[] of json/Object.cpp and json/List.cpp finds after
    an add or a set, under the same path and under every other one. */
module JsonLookup {
  import opened Common
  import opened JsonText
  import opened JsonDoc
  import opened JsonParse
  import opened JsonKeys

  /** What a chain of operator[] leads to. */
  function Lookup(t: Tree, path: seq<Hop>): Option<Tree>
    decreases |path|
  {
    if path == [] then Some(t)
    else match path[0]
      case Key(k) => if t.ObjT? && k in t.members then Lookup(t.members[k], path[1..]) else None
      case Index(i) => if t.LstT? && i < |t.elems| then Lookup(t.elems[i], path[1..]) else None
  }

  /** What is found under the same path is the node that was there, changed; a path that leads nowhere
      changes nothing. */
  lemma {:induction false} FoundChanged(t: Tree, path: seq<Hop>, op: Op)
    ensures match Lookup(t, path)
            case Some(u) => Lookup(ApplyAt(t, path, op), path) == Some(ApplyHere(u, op))
            case None => ApplyAt(t, path, op) == t
    decreases |path|
  {
    hide ApplyHere;
    if path != [] {
      match path[0]
      case Key(k) =>
        if t.ObjT? && k in t.members {
          FoundChanged(t.members[k], path[1..], op);
          if Lookup(t, path).None? { assert t.members[k := t.members[k]] == t.members; }
        }
      case Index(i) =>
        if t.LstT? && i < |t.elems| {
          FoundChanged(t.elems[i], path[1..], op);
        }
    }
  }

  predicate Apart(p: seq<Hop>, q: seq<Hop>) { exists i :: 0 <= i < |p| && i < |q| && p[i] != q[i] }

  /** Under a path that parts from the one of the operation nothing changes. */
  lemma {:induction false} ElsewhereSame(t: Tree, path: seq<Hop>, op: Op, q: seq<Hop>)
    requires Apart(path, q)
    ensures Lookup(ApplyAt(t, path, op), q) == Lookup(t, q)
    decreases |path|
  {
    hide ApplyHere;
    if path[0] == q[0] {
      var i :| 0 <= i < |path| && i < |q| && path[i] != q[i];
      assert path[1..][i - 1] != q[1..][i - 1];
      match path[0]
      case Key(k) =>
        if t.ObjT? && k in t.members { ElsewhereSame(t.members[k], path[1..], op, q[1..]); }
      case Index(j) =>
        if t.LstT? && j < |t.elems| { ElsewhereSame(t.elems[j], path[1..], op, q[1..]); }
    }
  }

  lemma {:induction false} LookupFurther(t: Tree, path: seq<Hop>, hop: Hop)
    ensures Lookup(t, path + [hop]) == match Lookup(t, path)
                                       case Some(u) => Lookup(u, [hop])
                                       case None => None
    decreases |path|
  {
    if path == [] {
      assert path + [hop] == [hop];
    } else {
      assert (path + [hop])[1..] == path[1..] + [hop];
      match path[0]
      case Key(k) =>
        if t.ObjT? && k in t.members { LookupFurther(t.members[k], path[1..], hop); }
      case Index(i) =>
        if t.LstT? && i < |t.elems| { LookupFurther(t.elems[i], path[1..], hop); }
    }
  }

  /** x is found under the name in an object and behind all others in a list; the other children are the ones
      that were there, and a value is as before. */
  ghost predicate AddedAt(t: Tree, path: seq<Hop>, name: string, x: Tree, after: Tree) {
    match Lookup(t, path)
    case None => after == t
    case Some(ValT(_, _)) => after == t
    case Some(ObjT(_)) =>
      && Lookup(after, path + [Key(name)]) == Some(x)
      && forall k :: k != name ==> Lookup(after, path + [Key(k)]) == Lookup(t, path + [Key(k)])
    case Some(LstT(es)) =>
      && Lookup(after, path + [Index(|es|)]) == Some(x)
      && forall i: nat :: i != |es| ==> Lookup(after, path + [Index(i)]) == Lookup(t, path + [Index(i)])
  }

  lemma AddedHere(u: Tree, name: string, x: Tree)
    requires name != ""
    ensures AddedAt(u, [], name, x, AddTo(u, name, x))
  {
    forall h: Hop ensures [] + [h] == [h] {
    }
  }

  lemma Lifted(t: Tree, path: seq<Hop>, op: Op, name: string, x: Tree)
    requires Lookup(t, path).Some?
    requires AddedAt(Lookup(t, path).value, [], name, x, ApplyHere(Lookup(t, path).value, op))
    ensures AddedAt(t, path, name, x, ApplyAt(t, path, op))
  {
    hide ApplyHere, ApplyAt;
    var after, u := ApplyAt(t, path, op), Lookup(t, path).value;
    FoundChanged(t, path, op);
    forall h: Hop
      ensures Lookup(after, path + [h]) == Lookup(ApplyHere(u, op), [] + [h])
      ensures Lookup(t, path + [h]) == Lookup(u, [] + [h])
    {
      LookupFurther(after, path, h);
      LookupFurther(t, path, h);
      assert [] + [h] == [h];
    }
    if u.ValT? {
      UnchangedThere(t, path, op);
    }
  }

  lemma {:induction false} UnchangedThere(t: Tree, path: seq<Hop>, op: Op)
    requires Lookup(t, path).Some? && ApplyHere(Lookup(t, path).value, op) == Lookup(t, path).value
    ensures ApplyAt(t, path, op) == t
    decreases |path|
  {
    hide ApplyHere;
    if path != [] {
      match path[0]
      case Key(k) =>
        UnchangedThere(t.members[k], path[1..], op);
        assert t.members[k := t.members[k]] == t.members;
      case Index(i) => UnchangedThere(t.elems[i], path[1..], op);
    }
  }

  /** What each of the add methods puts there. */
  lemma AddFinds(t: Tree, path: seq<Hop>, name: string, s: string, text: string, subType: SubType)
    requires name != ""
    ensures AddedAt(t, path, name, ObjT(map[]), ApplyAt(t, path, AddObject(name)))
    ensures AddedAt(t, path, name, LstT([]), ApplyAt(t, path, AddList(name)))
    ensures AddedAt(t, path, name, ValT(Unescape(s), String), ApplyAt(t, path, AddString(name, s)))
    ensures AddedAt(t, path, name, ValT(text, subType), ApplyAt(t, path, AddLeaf(name, text, subType)))
  {
    hide AddTo, AddedAt;
    AddOne(t, path, name, AddObject(name), ObjT(map[]));
    AddOne(t, path, name, AddList(name), LstT([]));
    AddOne(t, path, name, AddString(name, s), ValT(Unescape(s), String));
    AddOne(t, path, name, AddLeaf(name, text, subType), ValT(text, subType));
  }

  lemma AddOne(t: Tree, path: seq<Hop>, name: string, op: Op, x: Tree)
    requires name != "" && forall u :: ApplyHere(u, op) == AddTo(u, name, x)
    ensures AddedAt(t, path, name, x, ApplyAt(t, path, op))
  {
    hide ApplyHere, AddTo;
    FoundChanged(t, path, op);
    if Lookup(t, path).Some? {
      var u := Lookup(t, path).value;
      AddedHere(u, name, x);
      Lifted(t, path, op, name, x);
    }
  }

  /** A set replaces the text and the tag of a value, and changes nothing anywhere else. */
  lemma SetFinds(t: Tree, path: seq<Hop>, s: string, text: string, subType: SubType)
    ensures var there := Lookup(t, path);
            if there.Some? && there.value.ValT?
            then && Lookup(ApplyAt(t, path, SetString(s)), path) == Some(ValT(Unescape(s), String))
                 && Lookup(ApplyAt(t, path, SetLeaf(text, subType)), path) == Some(ValT(text, subType))
            else ApplyAt(t, path, SetString(s)) == t == ApplyAt(t, path, SetLeaf(text, subType))
  {
    FoundChanged(t, path, SetString(s));
    FoundChanged(t, path, SetLeaf(text, subType));
    if Lookup(t, path).Some? && !Lookup(t, path).value.ValT? {
      UnchangedThere(t, path, SetString(s));
      UnchangedThere(t, path, SetLeaf(text, subType));
    }
  }

  /** Without a name an object takes the first free one of key0, key1, ... from its number of members on. */
  lemma UnnamedTakesFirstFree(m: map<string, Tree>, op: Op) returns (j: nat)
    requires op in {AddObject(""), AddList("")}
    ensures |m| <= j && "key" + Decimal(j) !in m
    ensures forall i: nat :: |m| <= i < j ==> "key" + Decimal(i) in m
    ensures ApplyHere(ObjT(m), op) == ObjT(m["key" + Decimal(j) := if op.AddObject? then ObjT(map[]) else LstT([])])
  {
    hide Decimal;
    j := FreeFrom(m.Keys, |m.Keys|);
    assert |m.Keys| == |m|;
    assert KeyName(j) == "key" + Decimal(j);
    forall i: nat | |m| <= i < j ensures "key" + Decimal(i) in m {
      assert KeyName(i) in m.Keys;
    }
  }

  /** So the first unnamed members of an object are key0 and key1. */
  lemma FirstNames()
    ensures ApplyAll(ObjT(map[]), [([], AddObject("")), ([], AddList(""))])
            == ObjT(map["key0" := ObjT(map[]), "key1" := LstT([])])
  {
    hide Decimal, FreeFrom;
    var m := map["key0" := ObjT(map[])];
    TwoDecimals();
    var i := UnnamedTakesFirstFree(map[], AddObject(""));
    var j := UnnamedTakesFirstFree(m, AddList(""));
    assert m.Keys == {"key0"};
    assert i == 0;
    assert "key1"[3] != "key0"[3];
    assert j == 1;
    TwoOps(ObjT(map[]), AddObject(""), AddList(""));
  }

  lemma TwoDecimals()
    ensures Decimal(0) == "0" && Decimal(1) == "1" && "key" + "0" == "key0" && "key" + "1" == "key1"
  {
  }

  lemma TwoOps(t: Tree, a: Op, b: Op)
    ensures ApplyAll(t, [([], a), ([], b)]) == ApplyHere(ApplyHere(t, a), b)
  {
    var ops: seq<(seq<Hop>, Op)> := [([], a), ([], b)];
    var t1 := ApplyAt(t, [], a);
    assert ApplyAll(t, ops) == ApplyAll(t1, ops[1..]);
    assert ops[1..][0] == ([], b);
    assert ApplyAll(t1, ops[1..]) == ApplyAll(ApplyAt(t1, [], b), ops[1..][1..]);
  }
}
