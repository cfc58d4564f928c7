/** The root object of a JSON tree: json/JSON.cpp. */
module JsonRoot {
  import opened Common
  import opened JsonScan
  import opened JsonDoc
  import opened JsonParse
  import opened JsonRoundTrip
  import opened JsonKeys
  import opened JsonNode

  // ----- two prints of one tree

  /** The same document but for the order of the members. */
  ghost predicate SameUpToOrder(d: Doc, e: Doc)
    decreases d
  {
    match d
    case Obj(ms) =>
      && e.Obj?
      && (forall m <- ms :: exists n <- e.members :: m.key == n.key && SameUpToOrder(m.value, n.value))
      && (forall n <- e.members :: exists m <- ms :: m.key == n.key && SameUpToOrder(m.value, n.value))
    case Lst(es) =>
      e.Lst? && |es| == |e.elems| && forall i :: 0 <= i < |es| ==> SameUpToOrder(es[i], e.elems[i])
    case Val(_, _) => e == d
  }

  /** Two prints stand for one tree exactly when they differ only in the order of members. */
  lemma {:induction false} SameTreeExactly(d: Doc, e: Doc)
    requires DistinctKeys(d) && DistinctKeys(e)
    ensures Meaning(d) == Meaning(e) <==> SameUpToOrder(d, e)
    decreases d
  {
    match d
    case Obj(ms) => if e.Obj? { SameMembersExactly(ms, e.members); }
    case Lst(es) => if e.Lst? { SameElemsExactly(es, e.elems); }
    case Val(_, _) =>
  }

  lemma {:induction false} SameElemsExactly(es: seq<Doc>, fs: seq<Doc>)
    requires DistinctKeys(Lst(es)) && DistinctKeys(Lst(fs))
    ensures Meaning(Lst(es)) == Meaning(Lst(fs)) <==> SameUpToOrder(Lst(es), Lst(fs))
    decreases es
  {
    hide Meaning, DistinctKeys;
    MeaningOfLst(es);
    MeaningOfLst(fs);
    MeaningElemsAt(es);
    MeaningElemsAt(fs);
    if |es| == |fs| {
      forall i | 0 <= i < |es| ensures Meaning(es[i]) == Meaning(fs[i]) <==> SameUpToOrder(es[i], fs[i]) {
        DistinctInside(Lst(es));
        DistinctInside(Lst(fs));
        SameTreeExactly(es[i], fs[i]);
      }
      var x, y := MeaningElems(es), MeaningElems(fs);
      assert x == y <==> forall i :: 0 <= i < |es| ==> x[i] == y[i];
    }
  }

  lemma DistinctInside(d: Doc)
    requires DistinctKeys(d)
    ensures d.Lst? ==> forall i :: 0 <= i < |d.elems| ==> DistinctKeys(d.elems[i])
    ensures d.Obj? ==> forall i :: 0 <= i < |d.members| ==> DistinctKeys(d.members[i].value)
    ensures d.Obj? ==> forall i, j :: 0 <= i < j < |d.members| ==> d.members[i].key != d.members[j].key
  {
  }

  lemma {:induction false} SameMembersExactly(ms: seq<Member>, ns: seq<Member>)
    requires DistinctKeys(Obj(ms)) && DistinctKeys(Obj(ns))
    ensures Meaning(Obj(ms)) == Meaning(Obj(ns)) <==> SameUpToOrder(Obj(ms), Obj(ns))
    decreases ms
  {
    hide Meaning, DistinctKeys, MeaningMembers;
    MeaningOfObj(ms);
    MeaningOfObj(ns);
    DistinctInside(Obj(ms));
    DistinctInside(Obj(ns));
    MapsEqualExactly(ms, ns);
    forall m, n | m in ms && n in ns
      ensures SameUpToOrder(m.value, n.value) <==> Meaning(m.value) == Meaning(n.value)
    {
      SameTreeExactly(m.value, n.value);
    }
  }

  predicate DifferentKeys(ms: seq<Member>) { forall i, j :: 0 <= i < j < |ms| ==> ms[i].key != ms[j].key }

  /** Every member of the first has a member of the second with its key and its meaning. */
  ghost predicate FoundIn(ms: seq<Member>, ns: seq<Member>) {
    forall m <- ms :: exists n <- ns :: m.key == n.key && Meaning(m.value) == Meaning(n.value)
  }

  lemma MapsEqualExactly(ms: seq<Member>, ns: seq<Member>)
    requires DifferentKeys(ms) && DifferentKeys(ns)
    ensures MeaningMembers(ms) == MeaningMembers(ns) <==> FoundIn(ms, ns) && FoundIn(ns, ms)
  {
    hide Meaning, MeaningMembers, FoundIn, DifferentKeys;
    var x, y := MeaningMembers(ms), MeaningMembers(ns);
    if x == y {
      EqualIsFound(ms, ns);
      EqualIsFound(ns, ms);
    }
    if FoundIn(ms, ns) && FoundIn(ns, ms) {
      FoundIsIncluded(ms, ns);
      FoundIsIncluded(ns, ms);
      assert x == y;
    }
  }

  lemma FoundIsIncluded(ms: seq<Member>, ns: seq<Member>)
    requires DifferentKeys(ms) && DifferentKeys(ns) && FoundIn(ms, ns)
    ensures forall k :: k in MeaningMembers(ms) ==>
              k in MeaningMembers(ns) && MeaningMembers(ms)[k] == MeaningMembers(ns)[k]
  {
    hide Meaning, MeaningMembers;
    MeaningHas(ms);
    MeaningHas(ns);
    var x, y := MeaningMembers(ms), MeaningMembers(ns);
    forall k | k in x ensures k in y && x[k] == y[k] {
      var i :| 0 <= i < |ms| && ms[i].key == k;
      var n :| n in ns && ms[i].key == n.key && Meaning(ms[i].value) == Meaning(n.value);
    }
  }

  lemma EqualIsFound(ms: seq<Member>, ns: seq<Member>)
    requires DifferentKeys(ms) && DifferentKeys(ns) && MeaningMembers(ms) == MeaningMembers(ns)
    ensures FoundIn(ms, ns)
  {
    hide Meaning, MeaningMembers;
    MeaningHas(ms);
    MeaningHas(ns);
    forall m <- ms ensures exists n <- ns :: m.key == n.key && Meaning(m.value) == Meaning(n.value) {
      assert m.key in MeaningMembers(ns);
      var n :| n in ns && n.key == m.key;
      assert Meaning(m.value) == Meaning(n.value);
    }
  }

  // ----- the root

  /** An operation on a root. A pure one gives itself for every operator[], becomes an object when
      something is added, and ignores assigned leaves. */
  function ApplyRoot(t: Option<Tree>, path: seq<Hop>, op: Op): Option<Tree> {
    match t
    case Some(tree) => Some(ApplyAt(tree, path, op))
    case None => if op.SetString? || op.SetLeaf? then None else Some(ApplyHere(ObjT(map[]), op))
  }

  class JSON {
    var mRoot: Node?  // null where the source has `this`: a pure instance

    constructor ()
      ensures Valid() && Root() == None && Nodes() == {}
    {
      mRoot := null;
    }

    ghost function Nodes(): set<Node>
      reads this, mRoot
    {
      if mRoot == null then {} else mRoot.Repr
    }

    ghost predicate Valid()
      reads this, mRoot, Nodes()
    {
      mRoot != null ==> mRoot.Valid()
    }

    ghost function Root(): Option<Tree>
      requires Valid()
      reads this, mRoot, Nodes()
    {
      if mRoot == null then None else Some(mRoot.Tree())
    }

    /** The part of assign() that follows the call of copy() on some node; it may be one of this tree. */
    method AssignNode(node: Node)
      requires Valid() && node.Valid()
      modifies this
      ensures Valid() && fresh(Nodes()) && Root() == Some(old(node.Tree()))
    {
      hide Node.Tree;
      mRoot := node.Copy();
    }

    /** Assigning one root to another: the copy has only new nodes. */
    method Assign(json: JSON)
      requires Valid() && json.Valid()
      modifies this
      ensures Valid() && Root() == old(json.Root())
      ensures if this == json then mRoot == old(mRoot) else fresh(Nodes())
    {
      if this == json {
        return;
      }
      if json.mRoot == null {
        mRoot := null;
      } else {
        AssignNode(json.mRoot);
      }
    }

    /** parse(): it also leaves the text without its spaces to the caller. */
    method Parse(json: string) returns (stripped: string)
      modifies this
      ensures Valid() && fresh(Nodes())
      ensures stripped == RemoveSpaces(json) && Root() == Some(JsonParse.Parse(json))
    {
      hide RemoveSpaces, ParseObject, Node.Tree;
      stripped := RemoveSpacesLoop(json);
      mRoot := NewObject(stripped);
    }

    method Stringify(formatted: bool) returns (ss: string)
      requires Valid()
      ensures Root().None? ==> ss == "{}"
      ensures Root().Some? ==> IsPrint(ss, Root().value, if formatted then Indented(1) else Plain)
    {
      if mRoot == null {
        return "{}";
      }
      ss := mRoot.Stringify(if formatted then 1 else -1);
    }

    /** operator[] along a path, then an operation. */
    method Apply(path: seq<Hop>, op: Op)
      requires Valid()
      modifies this, Nodes()
      ensures Valid() && fresh(Nodes() - old(Nodes()))
      ensures Root() == ApplyRoot(old(Root()), path, op)
    {
      if mRoot == null {
        if !op.SetString? && !op.SetLeaf? {
          mRoot := new Node.Container(ObjectNode);
          mRoot.ApplyOp(op);
        }
      } else {
        mRoot.Apply(path, op);
      }
    }
  }

  // ----- a copy and what it was copied from never influence each other

  /** An operation on one of two trees: on the copy, or on the original. */
  datatype Action = Action(onCopy: bool, path: seq<Hop>, op: Op)

  /** What the actions on one of the trees make of it, the others left out. */
  function Outcome(t: Option<Tree>, script: seq<Action>, onCopy: bool): Option<Tree>
    decreases |script|
  {
    if script == [] then t
    else
      var a := script[0];
      Outcome(if a.onCopy == onCopy then ApplyRoot(t, a.path, a.op) else t, script[1..], onCopy)
  }

  /** After an assignment, any sequence of adds and assignments on the two leaves in each what its own
      actions make of the common tree. */
  method AssignThenChange(original: JSON, copy: JSON, script: seq<Action>)
    requires original != copy && original.Valid() && copy.Valid()
    modifies original, original.Nodes(), copy
    ensures original.Valid() && copy.Valid() && original.Nodes() !! copy.Nodes()
    ensures original.Root() == Outcome(old(original.Root()), script, false)
    ensures copy.Root() == Outcome(old(original.Root()), script, true)
  {
    hide ApplyRoot, Outcome;
    copy.Assign(original);
    ghost var t := original.Root();
    assert script[0..] == script;
    for i := 0 to |script|
      invariant original.Valid() && copy.Valid() && original.Nodes() !! copy.Nodes()
      invariant fresh(copy.Nodes()) && fresh(original.Nodes() - old(original.Nodes()))
      invariant Outcome(original.Root(), script[i..], false) == Outcome(t, script, false)
      invariant Outcome(copy.Root(), script[i..], true) == Outcome(t, script, true)
    {
      OutcomeStep(original.Root(), script, i, false);
      OutcomeStep(copy.Root(), script, i, true);
      var a := script[i];
      if a.onCopy {
        copy.Apply(a.path, a.op);
      } else {
        original.Apply(a.path, a.op);
      }
    }
    OutcomeEnds(original.Root(), script, false);
    OutcomeEnds(copy.Root(), script, true);
  }

  lemma OutcomeStep(t: Option<Tree>, script: seq<Action>, i: nat, onCopy: bool)
    requires i < |script|
    ensures var a := script[i];
            Outcome(t, script[i..], onCopy)
            == Outcome(if a.onCopy == onCopy then ApplyRoot(t, a.path, a.op) else t, script[i + 1..], onCopy)
  {
    hide ApplyRoot;
    assert script[i..][1..] == script[i + 1..];
  }

  lemma OutcomeEnds(t: Option<Tree>, script: seq<Action>, onCopy: bool)
    ensures Outcome(t, script[|script|..], onCopy) == t
  {
  }
}
