/** The streaming validator checks what a check on the tree would. */
module ValidationTheorems {
  import opened Results
  import opened Wire
  import opened Codec
  import opened CodecTheorems
  import opened Validation

  /** A piece of a document: an element, an empty element, or something that is neither. */
  datatype Node =
    | Element(name: string, attrs: seq<Attr>, children: seq<Node>)
    | Bare(name: string, attrs: seq<Attr>)
    | Loose(e: Event)

  predicate IsText(e: Event) {
    e.Chars? || e.Garbled? || e.Other?
  }

  predicate WellFormed(nodes: seq<Node>) {
    forall i :: 0 <= i < |nodes| ==>
      (nodes[i].Loose? ==> IsText(nodes[i].e)) && (nodes[i].Element? ==> WellFormed(nodes[i].children))
  }

  function FlatNode(n: Node): seq<Event>
    decreases n, 0
  {
    match n
    case Element(name, attrs, children) => [Start(name, attrs)] + Flatten(children) + [End(name)]
    case Bare(name, attrs) => [Void(name, attrs)]
    case Loose(e) => [e]
  }

  /** The events of a well-nested piece of a document. */
  function Flatten(nodes: seq<Node>): seq<Event>
    decreases nodes, 1
  {
    if nodes == [] then [] else FlatNode(nodes[0]) + Flatten(nodes[1..])
  }

  function Max(a: nat, b: nat): nat {
    if a < b then b else a
  }

  function HeightOf(n: Node): nat
    decreases n, 0
  {
    match n
    case Element(_, _, children) => 1 + Height(children)
    case Bare(_, _) => 1
    case Loose(_) => 0
  }

  function Height(nodes: seq<Node>): nat
    decreases nodes, 1
  {
    if nodes == [] then 0 else Max(HeightOf(nodes[0]), Height(nodes[1..]))
  }

  /** The local names of the elements among `nodes`. */
  function Names(nodes: seq<Node>): set<string> {
    if nodes == [] then {}
    else (if nodes[0].Loose? then {} else {LocalName(nodes[0].name)}) + Names(nodes[1..])
  }

  /** The local names of the children of the elements among `nodes`. */
  function ChildNames(nodes: seq<Node>): set<string> {
    if nodes == [] then {}
    else (if nodes[0].Element? then Names(nodes[0].children) else {}) + ChildNames(nodes[1..])
  }

  function Kids(nodes: seq<Node>): seq<Node> {
    if nodes == [] then [] else (if nodes[0].Element? then nodes[0].children else []) + Kids(nodes[1..])
  }

  lemma {:induction false} NamesConcat(a: seq<Node>, b: seq<Node>)
    ensures Names(a + b) == Names(a) + Names(b)
  {
    if a == [] {
      assert a + b == b;
    } else {
      NamesConcat(a[1..], b);
      assert (a + b)[1..] == a[1..] + b;
    }
  }

  lemma {:induction false} KidsNames(nodes: seq<Node>)
    ensures Names(Kids(nodes)) == ChildNames(nodes)
  {
    if nodes != [] {
      KidsNames(nodes[1..]);
      NamesConcat(if nodes[0].Element? then nodes[0].children else [], Kids(nodes[1..]));
    }
  }

  /** The children as a decoded record would have them. */
  function AsFields(nodes: seq<Node>): seq<Field> {
    if nodes == [] then []
    else (if nodes[0].Loose? then [] else [Field(LocalName(nodes[0].name), Nil)]) + AsFields(nodes[1..])
  }

  lemma {:induction false} AsFieldsNames(nodes: seq<Node>)
    ensures FieldNames(AsFields(nodes)) == Names(nodes)
  {
    if nodes != [] {
      AsFieldsNames(nodes[1..]);
      var rest := AsFields(nodes[1..]);
      if !nodes[0].Loose? {
        var f := Field(LocalName(nodes[0].name), Nil);
        assert AsFields(nodes) == [f] + rest;
        forall name ensures name in FieldNames([f] + rest) <==> name == f.name || name in FieldNames(rest) {
          if name in FieldNames(rest) {
            var i :| 0 <= i < |rest| && rest[i].name == name;
            assert ([f] + rest)[i + 1].name == name;
          }
          assert ([f] + rest)[0].name == f.name;
        }
      } else {
        assert AsFields(nodes) == rest;
      }
    }
  }

  // ---- One step over a node ----

  lemma FlattenStep(nodes: seq<Node>, evs: seq<Event>, i: nat)
    requires nodes != [] && Here(evs, i, Flatten(nodes))
    ensures Here(evs, i, FlatNode(nodes[0])) && Here(evs, i + |FlatNode(nodes[0])|, Flatten(nodes[1..]))
    ensures |Flatten(nodes)| == |FlatNode(nodes[0])| + |Flatten(nodes[1..])|
  {
    hide FlatNode, Here;
    HereSplit(evs, i, FlatNode(nodes[0]), Flatten(nodes[1..]));
  }

  lemma ElementParts(n: Node, evs: seq<Event>, i: nat)
    requires n.Element? && Here(evs, i, FlatNode(n))
    ensures At(evs, i) == Start(n.name, n.attrs)
    ensures Here(evs, i + 1, Flatten(n.children))
    ensures At(evs, i + 1 + |Flatten(n.children)|) == End(n.name)
    ensures |FlatNode(n)| == |Flatten(n.children)| + 2
  {
    var open, close := [Start(n.name, n.attrs)], [End(n.name)];
    assert open + Flatten(n.children) + close == open + (Flatten(n.children) + close);
    HereEnclosed(evs, i, open[0], Flatten(n.children), close[0]);
  }

  lemma StartStep(evs: seq<Event>, i: nat, p: Progress, schema: Schema, name: string, attrs: seq<Attr>)
    requires At(evs, i) == Start(name, attrs)
    ensures var q := Entered(p, p.depth + 1, LocalName(name), schema);
      StreamFrom(evs, i, p, schema)
        == if q.Ok? then StreamFrom(evs, i + 1, q.value.(depth := p.depth + 1), schema) else Err(q.error)
  {
  }

  lemma VoidStep(evs: seq<Event>, i: nat, p: Progress, schema: Schema, name: string, attrs: seq<Attr>)
    requires At(evs, i) == Void(name, attrs)
    ensures var q := Entered(p, p.depth + 1, LocalName(name), schema);
      StreamFrom(evs, i, p, schema) == if q.Ok? then StreamFrom(evs, i + 1, q.value, schema) else Err(q.error)
  {
  }

  lemma EndStep(evs: seq<Event>, i: nat, p: Progress, schema: Schema, name: string)
    requires At(evs, i) == End(name) && p.depth > 0
    ensures StreamFrom(evs, i, p, schema) == StreamFrom(evs, i + 1, p.(depth := p.depth - 1), schema)
  {
  }

  lemma TextStep(evs: seq<Event>, i: nat, p: Progress, schema: Schema, e: Event)
    requires IsText(e) && Here(evs, i, [e])
    ensures StreamFrom(evs, i, p, schema) == StreamFrom(evs, i + 1, p, schema)
  {
    HereOne(evs, i, e);
  }

  // ---- Depth two and below: irrelevant ----

  /** Whatever stands inside a child is passed over, if it does not nest too deep. */
  lemma {:induction false} InsideSkipped(nodes: seq<Node>, evs: seq<Event>, i: nat, p: Progress, schema: Schema)
    requires WellFormed(nodes) && 2 <= p.depth <= MAX_DEPTH && Here(evs, i, Flatten(nodes))
    ensures if p.depth + Height(nodes) <= MAX_DEPTH
            then StreamFrom(evs, i, p, schema) == StreamFrom(evs, i + |Flatten(nodes)|, p, schema)
            else StreamFrom(evs, i, p, schema) == Err(Overflow)
    decreases nodes, 1
  {
    hide StreamFrom, Here, FlatNode, HeightOf;
    if nodes != [] {
      FlattenStep(nodes, evs, i);
      NodeSkipped(nodes[0], evs, i, p, schema);
      InsideSkipped(nodes[1..], evs, i + |FlatNode(nodes[0])|, p, schema);
    }
  }

  predicate WellFormedNode(n: Node) {
    (n.Loose? ==> IsText(n.e)) && (n.Element? ==> WellFormed(n.children))
  }

  lemma {:induction false} NodeSkipped(n: Node, evs: seq<Event>, i: nat, p: Progress, schema: Schema)
    requires WellFormedNode(n) && 2 <= p.depth <= MAX_DEPTH && Here(evs, i, FlatNode(n))
    ensures if p.depth + HeightOf(n) <= MAX_DEPTH
            then StreamFrom(evs, i, p, schema) == StreamFrom(evs, i + |FlatNode(n)|, p, schema)
            else StreamFrom(evs, i, p, schema) == Err(Overflow)
    decreases n, 0
  {
    hide StreamFrom, Here, LocalName;
    match n {
      case Loose(e) => TextStep(evs, i, p, schema, e);
      case Bare(name, attrs) =>
        HereOne(evs, i, Void(name, attrs));
        VoidStep(evs, i, p, schema, name, attrs);
      case Element(name, attrs, children) =>
        ElementParts(n, evs, i);
        StartStep(evs, i, p, schema, name, attrs);
        if p.depth + 1 <= MAX_DEPTH {
          var q := p.(depth := p.depth + 1);
          InsideSkipped(children, evs, i + 1, q, schema);
          EndStep(evs, i + 1 + |Flatten(children)|, q, schema, name);
        }
    }
  }

  // ---- Depth one: the children of a root ----

  /** The children are collected, or one of them is unexpected, or they nest too deep. */
  lemma {:induction false} ChildrenSeen(nodes: seq<Node>, evs: seq<Event>, i: nat, p: Progress, schema: Schema)
    requires WellFormed(nodes) && p.depth == 1 && p.foundRoot && Here(evs, i, Flatten(nodes))
    ensures var r := StreamFrom(evs, i, p, schema);
      if 1 + Height(nodes) > MAX_DEPTH then r == Err(Overflow) || r == Err(Unexpected)
      else if HasUnexpected(Names(nodes), schema) then r == Err(Unexpected)
      else r == StreamFrom(evs, i + |Flatten(nodes)|, p.(found := p.found + Names(nodes)), schema)
    decreases nodes
  {
    hide StreamFrom, Here, LocalName;
    if nodes == [] {
      assert p.(found := p.found + {}) == p;
    } else {
      FlattenStep(nodes, evs, i);
      var n := nodes[0];
      var j := i + |FlatNode(n)|;
      if n.Loose? {
        TextStep(evs, i, p, schema, n.e);
        ChildrenSeen(nodes[1..], evs, j, p, schema);
        assert Names(nodes) == Names(nodes[1..]);
      } else {
        var tag := LocalName(n.name);
        var q := p.(found := p.found + {tag});
        ChildSeen(n, evs, i, p, schema);
        ChildrenSeen(nodes[1..], evs, j, q, schema);
        assert Names(nodes) == {tag} + Names(nodes[1..]);
        assert p.found + Names(nodes) == q.found + Names(nodes[1..]);
        UnexpectedSplits({tag}, Names(nodes[1..]), schema);
        assert HasUnexpected({tag}, schema) <==> schema.strict && tag !in schema.fields;
      }
    }
  }

  lemma UnexpectedSplits(a: set<string>, b: set<string>, schema: Schema)
    ensures HasUnexpected(a + b, schema) <==> HasUnexpected(a, schema) || HasUnexpected(b, schema)
  {
  }

  lemma ChildSeen(n: Node, evs: seq<Event>, i: nat, p: Progress, schema: Schema)
    requires !n.Loose? && WellFormedNode(n) && p.depth == 1 && p.foundRoot && Here(evs, i, FlatNode(n))
    ensures var r := StreamFrom(evs, i, p, schema);
      var tag := LocalName(n.name);
      if schema.strict && tag !in schema.fields then r == Err(Unexpected)
      else if 1 + HeightOf(n) > MAX_DEPTH then r == Err(Overflow)
      else r == StreamFrom(evs, i + |FlatNode(n)|, p.(found := p.found + {tag}), schema)
  {
    hide StreamFrom, Here, LocalName;
    if n.Bare? {
      HereOne(evs, i, Void(n.name, n.attrs));
      VoidStep(evs, i, p, schema, n.name, n.attrs);
    } else {
      ElementParts(n, evs, i);
      StartStep(evs, i, p, schema, n.name, n.attrs);
      var q := p.(found := p.found + {LocalName(n.name)}, depth := 2);
      InsideSkipped(n.children, evs, i + 1, q, schema);
      EndStep(evs, i + 1 + |Flatten(n.children)|, q, schema, n.name);
    }
  }

  // ---- Depth zero: roots ----

  function KidNames(n: Node): set<string> {
    if n.Element? then Names(n.children) else {}
  }

  /** One root element: its name is checked, its children are collected. */
  lemma RootSeen(n: Node, evs: seq<Event>, i: nat, p: Progress, schema: Schema)
    requires !n.Loose? && WellFormedNode(n) && p.depth == 0 && Here(evs, i, FlatNode(n))
    ensures var r := StreamFrom(evs, i, p, schema);
      var names := KidNames(n);
      if LocalName(n.name) != schema.rootTag then r == Err(WrongRoot)
      else if HeightOf(n) > MAX_DEPTH then r == Err(Overflow) || r == Err(Unexpected)
      else if HasUnexpected(names, schema) then r == Err(Unexpected)
      else r == StreamFrom(evs, i + |FlatNode(n)|, p.(foundRoot := true, found := p.found + names), schema)
  {
    hide StreamFrom, Here, LocalName;
    if n.Bare? {
      HereOne(evs, i, Void(n.name, n.attrs));
      VoidStep(evs, i, p, schema, n.name, n.attrs);
      assert p.found + {} == p.found;
    } else {
      ElementParts(n, evs, i);
      StartStep(evs, i, p, schema, n.name, n.attrs);
      var q := p.(foundRoot := true, depth := 1);
      ChildrenSeen(n.children, evs, i + 1, q, schema);
      EndStep(evs, i + 1 + |Flatten(n.children)|, q.(found := q.found + Names(n.children)), schema, n.name);
    }
  }

  predicate GoodRoot(n: Node, schema: Schema) {
    n.Loose? || (LocalName(n.name) == schema.rootTag && HeightOf(n) <= MAX_DEPTH && !HasUnexpected(KidNames(n), schema))
  }

  predicate GoodRoots(nodes: seq<Node>, schema: Schema) {
    nodes == [] || (GoodRoot(nodes[0], schema) && GoodRoots(nodes[1..], schema))
  }

  lemma {:induction false} RootsSeen(nodes: seq<Node>, evs: seq<Event>, i: nat, p: Progress, schema: Schema)
    requires WellFormed(nodes) && p.depth == 0 && Here(evs, i, Flatten(nodes))
    ensures var r := StreamFrom(evs, i, p, schema);
      if GoodRoots(nodes, schema)
      then r == StreamFrom(evs, i + |Flatten(nodes)|,
                           p.(foundRoot := p.foundRoot || Names(nodes) != {},
                              found := p.found + ChildNames(nodes)), schema)
      else r.Err? && (Height(nodes) <= MAX_DEPTH ==> r.error == WrongRoot || r.error == Unexpected)
    decreases nodes
  {
    hide StreamFrom, Here, LocalName, HeightOf, FlatNode, HasUnexpected;
    if nodes == [] {
      assert p.(found := p.found + {}) == p;
    } else {
      FlattenStep(nodes, evs, i);
      var n := nodes[0];
      var j := i + |FlatNode(n)|;
      if n.Loose? {
        TextRoot(n, evs, i, p, schema);
        RootsSeen(nodes[1..], evs, j, p, schema);
        assert ChildNames(nodes) == ChildNames(nodes[1..]);
        assert Names(nodes) == Names(nodes[1..]);
      } else {
        var q := p.(foundRoot := true, found := p.found + KidNames(n));
        RootSeen(n, evs, i, p, schema);
        RootsSeen(nodes[1..], evs, j, q, schema);
        assert ChildNames(nodes) == KidNames(n) + ChildNames(nodes[1..]);
        assert p.found + ChildNames(nodes) == q.found + ChildNames(nodes[1..]);
        assert Names(nodes) == {LocalName(n.name)} + Names(nodes[1..]);
      }
    }
  }

  lemma TextRoot(n: Node, evs: seq<Event>, i: nat, p: Progress, schema: Schema)
    requires n.Loose? && IsText(n.e) && Here(evs, i, FlatNode(n))
    ensures StreamFrom(evs, i, p, schema) == StreamFrom(evs, i + |FlatNode(n)|, p, schema)
    ensures HeightOf(n) == 0
  {
    hide StreamFrom, Here;
    TextStep(evs, i, p, schema, n.e);
  }

  lemma {:induction false} GoodRootsMeaning(nodes: seq<Node>, schema: Schema)
    ensures GoodRoots(nodes, schema)
      <==> Names(nodes) <= {schema.rootTag} && Height(nodes) <= MAX_DEPTH && !HasUnexpected(ChildNames(nodes), schema)
  {
    hide LocalName, HasUnexpected;
    if nodes == [] {
      assert !HasUnexpected({}, schema) by {
        NothingUnexpected(schema);
      }
    } else {
      GoodRootsMeaning(nodes[1..], schema);
      var n := nodes[0];
      NothingUnexpected(schema);
      UnexpectedSplits(KidNames(n), ChildNames(nodes[1..]), schema);
      assert ChildNames(nodes) == KidNames(n) + ChildNames(nodes[1..]);
      assert Names(nodes) == (if n.Loose? then {} else {LocalName(n.name)}) + Names(nodes[1..]);
    }
  }

  lemma NothingUnexpected(schema: Schema)
    ensures !HasUnexpected({}, schema)
  {
  }

  // ---- Main results ----

  lemma WholeStream(nodes: seq<Node>)
    ensures Here(Flatten(nodes), 0, Flatten(nodes))
    ensures forall p, schema :: StreamFrom(Flatten(nodes), |Flatten(nodes)|, p, schema) == Ok(p)
  {
  }

  /**
   On every well-nested document the streaming validator accepts exactly if there is an element,
   all top elements have the root's name, nothing nests deeper than the counter goes, every child
   of a top element is declared if the schema is strict, and every required name is the name of
   such a child. The counter never underflows.
   */
  lemma StreamAcceptsForest(nodes: seq<Node>, schema: Schema)
    requires WellFormed(nodes)
    ensures Stream(Flatten(nodes), schema).Ok?
      <==> (&& Names(nodes) == {schema.rootTag}
            && Height(nodes) <= MAX_DEPTH
            && (schema.strict ==> forall name :: name in ChildNames(nodes) ==> name in schema.fields)
            && (forall name :: name in schema.fields && schema.fields[name] ==> name in ChildNames(nodes)))
    ensures Stream(Flatten(nodes), schema).Ok?
      <==> (Names(nodes) == {schema.rootTag} && Height(nodes) <= MAX_DEPTH
            && ValidateValue(Rec(AsFields(Kids(nodes))), schema).Ok?)
    ensures Names(nodes) == {} ==> Stream(Flatten(nodes), schema) == Err(NoRoot)
    ensures Height(nodes) <= MAX_DEPTH ==> Stream(Flatten(nodes), schema) != Err(Overflow)
  {
    hide StreamFrom, Here, LocalName;
    if Names(nodes) == {} {
      NoElements(nodes);
      NothingUnexpected(schema);
    }
    WholeStream(nodes);
    RootsSeen(nodes, Flatten(nodes), 0, AT_START, schema);
    GoodRootsMeaning(nodes, schema);
    KidsNames(nodes);
    AsFieldsNames(Kids(nodes));
    assert {} + ChildNames(nodes) == ChildNames(nodes);
  }

  lemma {:induction false} NoElements(nodes: seq<Node>)
    requires Names(nodes) == {}
    ensures Height(nodes) == 0 && ChildNames(nodes) == {}
  {
    if nodes != [] {
      assert nodes[0].Loose?;
      NoElements(nodes[1..]);
    }
  }

  lemma JustOne(n: Node)
    ensures Flatten([n]) == FlatNode(n) && Height([n]) == HeightOf(n)
  {
    assert [n][1..] == [];
  }

  function ChildrenOf(n: Node): seq<Node> {
    if n.Element? then n.children else []
  }

  lemma KidsOfRoot(root: Node)
    ensures FieldNames(AsFields(ChildrenOf(root))) == KidNames(root)
  {
    AsFieldsNames(ChildrenOf(root));
  }

  /**
   On one root element, self-closing or not, the verdict is exactly that of the check on the tree,
   errors included.
   */
  lemma StreamRefinesTreeCheck(root: Node, schema: Schema)
    requires !root.Loose? && WellFormedNode(root) && Height([root]) <= MAX_DEPTH
    ensures Stream(Flatten([root]), schema)
      == if LocalName(root.name) != schema.rootTag then Err(WrongRoot)
         else ValidateValue(Rec(AsFields(ChildrenOf(root))), schema)
  {
    hide StreamFrom, Here, LocalName, FlatNode, Flatten, HeightOf, Height, Names, HasUnexpected,
      LacksRequired, FieldNames,
      AsFields, WellFormedNode, KidNames, ChildrenOf;
    JustOne(root);
    KidsOfRoot(root);
    var evs, names := Flatten([root]), KidNames(root);
    WholeStream([root]);
    RootSeen(root, evs, 0, AT_START, schema);
    assert {} + names == names;
    var fields := AsFields(ChildrenOf(root));
    assert Present(Rec(fields)) == names;
    if LocalName(root.name) == schema.rootTag && !HasUnexpected(names, schema) {
      assert StreamFrom(evs, 0, AT_START, schema) == StreamFrom(evs, |evs|, Progress(0, true, names), schema);
    }
  }

  /** The same document with every child emptied. */
  function Shallow(nodes: seq<Node>): (r: seq<Node>)
    ensures |r| == |nodes|
  {
    if nodes == [] then []
    else [if nodes[0].Element? then Bare(nodes[0].name, nodes[0].attrs) else nodes[0]] + Shallow(nodes[1..])
  }

  lemma {:induction false} ShallowNames(nodes: seq<Node>)
    requires WellFormed(nodes)
    ensures Names(Shallow(nodes)) == Names(nodes) && Height(Shallow(nodes)) <= 1 && WellFormed(Shallow(nodes))
    ensures AsFields(Shallow(nodes)) == AsFields(nodes)
  {
    if nodes != [] {
      ShallowNames(nodes[1..]);
      var first := Shallow(nodes)[0];
      assert Shallow(nodes)[1..] == Shallow(nodes[1..]);
    }
  }

  /** Nothing below the children of the root makes a difference. */
  lemma InsideIsIrrelevant(root: Node, schema: Schema)
    requires root.Element? && WellFormedNode(root) && Height([root]) <= MAX_DEPTH
    ensures Stream(Flatten([root]), schema) == Stream(Flatten([root.(children := Shallow(root.children))]), schema)
  {
    hide Stream, LocalName;
    var root' := root.(children := Shallow(root.children));
    assert [root][0] == root && [root'][0] == root';
    ShallowNames(root.children);
    StreamRefinesTreeCheck(root, schema);
    StreamRefinesTreeCheck(root', schema);
  }

  // ---- What the verdicts mean ----

  /** A record with a field of this name. */
  predicate HasField(v: Value, name: string) {
    v.Rec? && exists i :: 0 <= i < |v.fields| && v.fields[i].name == name
  }

  /**
   A value is accepted exactly if all its fields are declared, where the schema is strict, and
   every required one is there. An undeclared field is reported before a missing one.
   */
  lemma ValueVerdict(v: Value, schema: Schema)
    ensures var undeclared := schema.strict && exists name :: HasField(v, name) && name !in schema.fields;
      var missing := exists name :: name in schema.fields && schema.fields[name] && !HasField(v, name);
      ValidateValue(v, schema)
        == if undeclared then Err(Unexpected) else if missing then Err(MissingRequired) else Ok(())
  {
    assert forall name :: name in Present(v) <==> HasField(v, name);
  }

  /** The required fields alone make an acceptable record. */
  lemma RequiredFieldsSuffice(fields: seq<Field>, schema: Schema)
    requires forall name :: HasField(Rec(fields), name) <==> name in schema.fields && schema.fields[name]
    ensures ValidateValue(Rec(fields), schema) == Ok(())
  {
    ValueVerdict(Rec(fields), schema);
  }

  /** An accepted record stays accepted without a field that is not required. */
  lemma OptionalMayBeLeftOut(before: seq<Field>, f: Field, after: seq<Field>, schema: Schema)
    requires ValidateValue(Rec(before + [f] + after), schema) == Ok(())
    requires !(f.name in schema.fields && schema.fields[f.name])
    ensures ValidateValue(Rec(before + after), schema) == Ok(())
  {
    hide ValidateValue, HasField;
    var all, rest := Rec(before + [f] + after), Rec(before + after);
    ValueVerdict(all, schema);
    ValueVerdict(rest, schema);
    forall name ensures HasField(all, name) <==> HasField(rest, name) || name == f.name {
      OneFieldMore(before, f, after, name);
    }
  }

  lemma OneFieldMore(before: seq<Field>, f: Field, after: seq<Field>, name: string)
    ensures HasField(Rec(before + [f] + after), name) <==> HasField(Rec(before + after), name) || name == f.name
  {
    var all, rest := before + [f] + after, before + after;
    assert all[|before|] == f;
    assert forall i :: 0 <= i < |before| ==> all[i] == rest[i];
    assert forall i :: |before| <= i < |rest| ==> all[i + 1] == rest[i];
    if i :| 0 <= i < |all| && all[i].name == name && i != |before| {
      assert rest[if i < |before| then i else i - 1] == all[i];
    }
  }

  function Without(fields: seq<Field>, name: string): seq<Field> {
    if fields == [] then []
    else (if fields[0].name == name then [] else [fields[0]]) + Without(fields[1..], name)
  }

  lemma {:induction false} WithoutLacks(fields: seq<Field>, name: string, other: string)
    ensures HasField(Rec(Without(fields, name)), other) <==> HasField(Rec(fields), other) && other != name
  {
    if fields != [] {
      WithoutLacks(fields[1..], name, other);
      OneFieldMore([], fields[0], fields[1..], other);
      assert [] + [fields[0]] + fields[1..] == fields && [] + fields[1..] == fields[1..];
      if fields[0].name != name {
        var rest := Without(fields[1..], name);
        OneFieldMore([], fields[0], rest, other);
        assert [] + [fields[0]] + rest == Without(fields, name) && [] + rest == rest;
      } else {
        assert Without(fields, name) == Without(fields[1..], name);
      }
    }
  }

  /** An accepted record without any occurrence of a required field lacks a required field. */
  lemma RequiredMayNotBeLeftOut(fields: seq<Field>, name: string, schema: Schema)
    requires ValidateValue(Rec(fields), schema) == Ok(())
    requires name in schema.fields && schema.fields[name]
    ensures ValidateValue(Rec(Without(fields, name)), schema) == Err(MissingRequired)
  {
    hide ValidateValue, HasField, Without;
    ValueVerdict(Rec(fields), schema);
    ValueVerdict(Rec(Without(fields, name)), schema);
    forall other
      ensures HasField(Rec(Without(fields, name)), other) <==> HasField(Rec(fields), other) && other != name
    {
      WithoutLacks(fields, name, other);
    }
  }

  /** An undeclared field more is refused by a strict schema, and by no other. */
  lemma StrictForbidsMore(before: seq<Field>, f: Field, after: seq<Field>, schema: Schema)
    requires ValidateValue(Rec(before + after), schema) == Ok(()) && f.name !in schema.fields
    ensures ValidateValue(Rec(before + [f] + after), schema) == if schema.strict then Err(Unexpected) else Ok(())
  {
    hide ValidateValue, HasField;
    var all, rest := Rec(before + [f] + after), Rec(before + after);
    ValueVerdict(all, schema);
    ValueVerdict(rest, schema);
    forall name ensures HasField(all, name) <==> HasField(rest, name) || name == f.name {
      OneFieldMore(before, f, after, name);
    }
  }

  /** The last schema registered under a tag decides; a tag without a schema accepts anything. */
  lemma TagSelectsSchema(schemas: map<string, Schema>, schema: Schema, tag: string, v: Value)
    ensures ValidateTagged(schemas[schema.rootTag := schema], tag, v)
      == if tag == schema.rootTag then ValidateValue(v, schema) else ValidateTagged(schemas, tag, v)
    ensures tag !in schemas ==> ValidateTagged(schemas, tag, v) == Ok(())
  {
    hide ValidateValue;
    ValueVerdict(v, Permissive(tag));
  }

  /** A prefix of a tag, up to its last colon, does not count. */
  lemma {:induction false} LocalNameExact(prefix: string, name: string)
    requires ':' !in name
    ensures LocalName(name) == name && LocalName(prefix + ":" + name) == name
    decreases |prefix|
  {
    var s := prefix + ":" + name;
    var i := Find(s, ':');
    assert s[|prefix|] == ':';
    assert forall k :: 0 <= k < i ==> s[..i][k] == s[k];
    if i == |prefix| {
      assert s[i + 1..] == name;
    } else {
      assert s[i + 1..] == prefix[i + 1..] + ":" + name;
      LocalNameExact(prefix[i + 1..], name);
    }
  }

  // ---- The schema of the program's own tests ----

  const GREETING := Schema("Greeting", map["text" := true, "name" := false], true)

  /** Children with these names, each with a text inside. */
  function Leaves(names: seq<string>): seq<Node> {
    if names == [] then [] else [Element(names[0], [], [Loose(Chars("hi"))])] + Leaves(names[1..])
  }

  function Named(names: seq<string>): seq<Field> {
    if names == [] then [] else [Field(names[0], Nil)] + Named(names[1..])
  }

  ghost predicate Unprefixed(names: seq<string>) {
    forall i :: 0 <= i < |names| ==> LocalName(names[i]) == names[i]
  }

  lemma {:induction false} LeavesNamed(names: seq<string>)
    requires Unprefixed(names)
    ensures AsFields(Leaves(names)) == Named(names) && WellFormed(Leaves(names)) && Height(Leaves(names)) <= 1
  {
    hide LocalName;
    if names != [] {
      LeavesNamed(names[1..]);
      JustOne(Loose(Chars("hi")));
      assert Leaves(names)[0].children == [Loose(Chars("hi"))];
      assert Leaves(names)[1..] == Leaves(names[1..]);
    }
  }

  function Document(root: string, names: seq<string>): seq<Event> {
    Flatten([Element(root, [], Leaves(names))])
  }

  lemma {:induction false} NamedHas(names: seq<string>, name: string)
    ensures HasField(Rec(Named(names)), name) <==> name in names
  {
    hide HasField;
    if names == [] {
      assert !HasField(Rec([]), name) by {
        NoFields(name);
      }
    } else {
      var f, rest := Field(names[0], Nil), Named(names[1..]);
      NamedHas(names[1..], name);
      OneFieldMore([], f, rest, name);
      assert [] + [f] + rest == Named(names) && [] + rest == rest;
      assert names == [names[0]] + names[1..];
    }
  }

  lemma NoFields(name: string)
    ensures !HasField(Rec([]), name)
  {
  }

  /** The verdict on a root with children of these names. */
  lemma DocumentVerdict(root: string, names: seq<string>, schema: Schema)
    requires LocalName(root) == root && Unprefixed(names)
    ensures var undeclared := schema.strict && exists name :: name in names && name !in schema.fields;
      var missing := exists name :: name in schema.fields && schema.fields[name] && name !in names;
      Stream(Document(root, names), schema)
        == if root != schema.rootTag then Err(WrongRoot)
           else if undeclared then Err(Unexpected) else if missing then Err(MissingRequired) else Ok(())
  {
    hide Stream, LocalName, ValidateValue, AsFields, Leaves, Named, HasField;
    var n := Element(root, [], Leaves(names));
    LeavesNamed(names);
    JustOne(n);
    StreamRefinesTreeCheck(n, schema);
    ValueVerdict(Rec(Named(names)), schema);
    forall name ensures HasField(Rec(Named(names)), name) <==> name in names {
      NamedHas(names, name);
    }
  }

  /** The verdicts the program's tests expect. */
  lemma GreetingVerdicts()
    ensures Stream(Document("Greeting", ["text"]), GREETING) == Ok(())
    ensures Stream(Document("Greeting", ["text", "name"]), GREETING) == Ok(())
    ensures Stream(Document("Greeting", ["name"]), GREETING) == Err(MissingRequired)
    ensures Stream(Document("WrongTag", ["text"]), GREETING) == Err(WrongRoot)
    ensures Stream(Document("Greeting", ["text", "secret"]), GREETING) == Err(Unexpected)
    ensures Stream(Document("Greeting", ["text", "secret"]), GREETING.(strict := false)) == Ok(())
  {
    hide Stream, LocalName, Document;
    forall s | s in {"Greeting", "WrongTag", "text", "name", "secret"} ensures LocalName(s) == s {
      LocalNameExact("", s);
    }
    assert "text" in GREETING.fields && GREETING.fields["text"] && !GREETING.fields["name"];
    assert "text" in ["text", "name"] && "text" in ["text", "secret"] && "secret" in ["text", "secret"];
    DocumentVerdict("Greeting", ["text"], GREETING);
    DocumentVerdict("Greeting", ["text", "name"], GREETING);
    DocumentVerdict("Greeting", ["name"], GREETING);
    DocumentVerdict("WrongTag", ["text"], GREETING);
    DocumentVerdict("Greeting", ["text", "secret"], GREETING);
    DocumentVerdict("Greeting", ["text", "secret"], GREETING.(strict := false));
  }
}
