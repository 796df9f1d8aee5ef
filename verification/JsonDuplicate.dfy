/** `cJSON_Duplicate` on linked nodes.

    `Item` is what a node and those below it hold; `Shape` says which nodes these are.  `Content` ties the two together
    through `child` and the fields, `Linked` through `next` and `prev`. */
module JsonDuplicate {
  import opened JsonCompare
  import opened JsonTree
  import opened Wrappers

  datatype Kind = KNull | KFalse | KTrue | KNumber | KString | KArray | KObject

  /** `cJSON`, without flags and without the integer copy of a number. */
  class Node {
    var next: Node?
    var prev: Node?
    var child: Node?
    var kind: Kind
    var valuedouble: real
    var valuestring: Option<string>
    /** `string`: the name of a member. */
    var name: Option<string>

    /** `cJSON_New_Item`. */
    constructor ()
      ensures next == null && prev == null && child == null && valuestring == None && name == None
    {
      next, prev, child := null, null, null;
      kind, valuedouble, valuestring, name := KNull, 0.0, None, None;
    }
  }

  datatype Item = Item(kind: Kind, number: real, text: Option<string>, name: Option<string>, kids: seq<Item>)

  datatype Shape = Shape(node: Node, kids: seq<Shape>)

  // ---------- Trees of nodes ----------

  /** All nodes of a tree. */
  ghost function Nodes(s: Shape): (all: set<Node>)
    ensures s.node in all && AllNodes(s.kids) <= all
    decreases s, 1
  {
    {s.node} + AllNodes(s.kids)
  }

  ghost function AllNodes(kids: seq<Shape>): (all: set<Node>)
    ensures forall i :: 0 <= i < |kids| ==> Nodes(kids[i]) <= all
    decreases kids, 0
  {
    if kids == [] then {} else AllNodes(kids[..|kids| - 1]) + Nodes(kids[|kids| - 1])
  }

  /** The nodes below the roots of some trees. */
  ghost function AllBelow(kids: seq<Shape>): (all: set<Node>)
    ensures forall i :: 0 <= i < |kids| ==> AllNodes(kids[i].kids) <= all
    ensures all <= AllNodes(kids)
  {
    set i, n | 0 <= i < |kids| && n in AllNodes(kids[i].kids) :: n
  }

  ghost function Roots(kids: seq<Shape>): (all: set<Node>)
    ensures forall i :: 0 <= i < |kids| ==> kids[i].node in all
    ensures all <= AllNodes(kids)
  {
    set i | 0 <= i < |kids| :: kids[i].node
  }

  ghost function First(kids: seq<Shape>): Node? {
    if kids == [] then null else kids[0].node
  }

  ghost function Last(kids: seq<Shape>): Node? {
    if kids == [] then null else kids[|kids| - 1].node
  }

  /** The fields of every node, and the way down to the first child. */
  ghost predicate Content(s: Shape, v: Item)
    reads Nodes(s)`kind, Nodes(s)`valuedouble, Nodes(s)`valuestring, Nodes(s)`name, Nodes(s)`child
    decreases s, 1
  {
    && s.node.kind == v.kind && s.node.valuedouble == v.number && s.node.valuestring == v.text && s.node.name == v.name
    && s.node.child == First(s.kids) && |s.kids| == |v.kids| && AllContent(s.kids, v.kids)
  }

  ghost predicate AllContent(kids: seq<Shape>, vs: seq<Item>)
    requires |kids| <= |vs|
    reads AllNodes(kids)`kind, AllNodes(kids)`valuedouble, AllNodes(kids)`valuestring, AllNodes(kids)`name,
          AllNodes(kids)`child
    decreases kids, 0
  {
    forall i :: 0 <= i < |kids| ==> Content(kids[i], vs[i])
  }

  /** Siblings in order along `next`. */
  ghost predicate Forward(kids: seq<Shape>)
    reads Roots(kids)`next
  {
    && (kids != [] ==> kids[|kids| - 1].node.next == null)
    && forall i, j :: 0 <= i < |kids| && i + 1 == j < |kids| ==> kids[i].node.next == kids[j].node
  }

  /** And back along `prev`. */
  ghost predicate Backward(kids: seq<Shape>)
    reads Roots(kids)`prev
  {
    && (kids != [] ==> kids[0].node.prev == null)
    && forall i, j :: 0 <= i < |kids| && i + 1 == j < |kids| ==> kids[j].node.prev == kids[i].node
  }

  /** Every level below the root is linked forward, and backward too where `doubly` asks for it. */
  ghost predicate Linked(s: Shape, doubly: bool)
    reads AllNodes(s.kids)`next, AllNodes(s.kids)`prev
    decreases s, 1
  {
    Forward(s.kids) && (doubly ==> Backward(s.kids)) && AllLinked(s.kids, doubly)
  }

  ghost predicate AllLinked(kids: seq<Shape>, doubly: bool)
    reads AllBelow(kids)`next, AllBelow(kids)`prev
    decreases kids, 0
  {
    forall i :: 0 <= i < |kids| ==> Linked(kids[i], doubly)
  }

  /** No node occurs twice. */
  ghost predicate Separate(s: Shape)
    decreases s, 1
  {
    s.node !in AllNodes(s.kids) && AllSeparate(s.kids)
  }

  ghost predicate AllSeparate(kids: seq<Shape>)
    decreases kids, 0
  {
    && (forall i :: 0 <= i < |kids| ==> Separate(kids[i]))
    && forall i, j :: 0 <= i < j < |kids| ==> Nodes(kids[i]) !! Nodes(kids[j])
  }

  lemma {:induction false} NodesAreAllocated(s: Shape)
    ensures forall n :: n in Nodes(s) ==> allocated(n)
    decreases s, 1
  {
    AllNodesAreAllocated(s.kids);
  }

  lemma {:induction false} AllNodesAreAllocated(kids: seq<Shape>)
    ensures forall n :: n in AllNodes(kids) ==> allocated(n)
    decreases kids, 0
  {
    hide Nodes;
    if kids != [] {
      AllNodesAreAllocated(kids[..|kids| - 1]);
      NodesAreAllocated(kids[|kids| - 1]);
    }
  }

  // ---------- One child more ----------

  lemma NodesSnoc(kids: seq<Shape>, s: Shape)
    ensures AllNodes(kids + [s]) == AllNodes(kids) + Nodes(s)
  {
    hide Nodes;
    assert (kids + [s])[..|kids|] == kids;
  }

  lemma NodesOf(s: Shape)
    ensures Nodes(s) == {s.node} + AllNodes(s.kids)
  {
  }

  lemma NoNodes()
    ensures AllNodes([]) == {}
  {
  }

  lemma SeparateSnoc(kids: seq<Shape>, s: Shape)
    requires AllSeparate(kids) && Separate(s) && AllNodes(kids) !! Nodes(s)
    ensures AllSeparate(kids + [s])
  {
    hide Nodes, AllNodes, Separate;
  }

  lemma ContentSnoc(kids: seq<Shape>, s: Shape, vs: seq<Item>)
    requires |kids| < |vs| && AllContent(kids, vs) && Content(s, vs[|kids|])
    ensures AllContent(kids + [s], vs)
  {
    hide Content;
  }

  lemma LinkedSnoc(kids: seq<Shape>, s: Shape)
    requires AllLinked(kids, true) && Linked(s, true)
    ensures AllLinked(kids + [s], true)
  {
    hide Linked;
  }

  /** The root of a tree is below no root. */
  lemma RootIsNotBelow(kids: seq<Shape>, k: nat)
    requires AllSeparate(kids) && k < |kids|
    ensures kids[k].node !in AllBelow(kids)
  {
    hide Nodes, AllNodes;
    var root := kids[k].node;
    assert root in Nodes(kids[k]);
    forall i | 0 <= i < |kids| ensures root !in AllNodes(kids[i].kids) {
      assert AllNodes(kids[i].kids) <= Nodes(kids[i]);
      assert Separate(kids[k]);
      if i < k {
        assert Nodes(kids[i]) !! Nodes(kids[k]);
      } else if k < i {
        assert Nodes(kids[k]) !! Nodes(kids[i]);
      }
    }
  }

  // ---------- The copy ----------

  /** What a copy without recursion keeps. */
  function Copied(v: Item, recurse: bool): Item {
    if recurse then v else v.(kids := [])
  }

  /** The new child goes behind the last one. */
  method Append(last: Node, newChild: Node, ghost kids: seq<Shape>, ghost s: Shape)
    requires kids != [] && Last(kids) == last && s.node == newChild && newChild.next == null
    requires AllSeparate(kids + [s]) && Forward(kids) && Backward(kids)
    modifies last`next, newChild`prev
    ensures Forward(kids + [s]) && Backward(kids + [s])
  {
    hide Nodes, AllNodes, AllBelow, Separate;
    ghost var all := kids + [s];
    assert forall i, j :: 0 <= i < j < |all| ==> all[i].node != all[j].node;
    assert forall i :: 0 <= i < |kids| ==> all[i] == kids[i];
    assert forall i :: 0 <= i < |kids| ==> all[i].node != all[|kids|].node == newChild;
    last.next := newChild;
    newChild.prev := last;
  }

  /** `cJSON_Duplicate` of a node whose tree can be walked along `child` and `next`. */
  method Duplicate(item: Node, recurse: bool, ghost s: Shape, ghost v: Item) returns (copy: Node, ghost c: Shape)
    requires s.node == item && Content(s, v) && Linked(s, false)
    ensures c.node == copy && fresh(Nodes(c)) && Separate(c)
    ensures Content(c, Copied(v, recurse)) && Linked(c, true)
    ensures if recurse then Content(c, v) else Content(c, Item(v.kind, v.number, v.text, v.name, []))
    ensures copy.next == null && copy.prev == null
    decreases s, 1
  {
    ghost var source := Nodes(s);
    NodesAreAllocated(s);
    hide Nodes, AllNodes, AllBelow;
    copy := new Node();
    copy.kind, copy.valuedouble := item.kind, item.valuedouble;
    copy.valuestring, copy.name := item.valuestring, item.name;
    c := Shape(copy, []);
    NoNodes();
    if recurse {
      c := DuplicateChildren(item, copy, s, v);
    }
    NodesOf(c);
  }

  /** The children copied so far hang on the copy. */
  ghost predicate Built(copy: Node, last: Node?, kids: seq<Shape>, vs: seq<Item>)
    reads copy, AllNodes(kids)
  {
    && |kids| <= |vs| && copy !in AllNodes(kids)
    && AllSeparate(kids) && AllContent(kids, vs) && AllLinked(kids, true) && Forward(kids) && Backward(kids)
    && copy.child == First(kids) && last == Last(kids)
  }

  /** One more child: behind the last one, or as the first. */
  method Attach(copy: Node, last: Node?, newChild: Node, ghost kids: seq<Shape>, ghost s: Shape, ghost vs: seq<Item>)
    requires Built(copy, last, kids, vs) && |kids| < |vs|
    requires s.node == newChild && newChild.next == null && newChild.prev == null
    requires Separate(s) && Content(s, vs[|kids|]) && Linked(s, true)
    requires copy !in Nodes(s) && AllNodes(kids) !! Nodes(s)
    modifies copy`child, (if last == null then {} else {last})`next, newChild`prev
    ensures Built(copy, newChild, kids + [s], vs)
  {
    hide Content, AllContent, Linked, AllLinked, AllSeparate, Separate, Nodes, AllNodes, AllBelow;
    NodesSnoc(kids, s);
    SeparateSnoc(kids, s);
    LinkedSnoc(kids, s);
    ContentSnoc(kids, s, vs);
    RootIsNotBelow(kids + [s], |kids|);
    AllNodesAreAllocated(kids + [s]);
    if last != null {
      assert (kids + [s])[|kids| - 1] == kids[|kids| - 1] && First(kids + [s]) == First(kids);
      RootIsNotBelow(kids + [s], |kids| - 1);
      Append(last, newChild, kids, s);
    } else {
      copy.child := newChild;
    }
  }

  /** The walk along the chain of children. */
  method DuplicateChildren(item: Node, copy: Node, ghost s: Shape, ghost v: Item) returns (ghost c: Shape)
    requires s.node == item && Content(s, v) && Linked(s, false) && copy !in Nodes(s)
    requires copy.child == null
    modifies copy`child
    ensures c.node == copy && fresh(AllNodes(c.kids)) && |c.kids| == |v.kids|
    ensures Built(copy, Last(c.kids), c.kids, v.kids)
    decreases s, 0
  {
    hide Content, Linked, Separate, Nodes, AllNodes, AllBelow, Built;
    ghost var cs: seq<Shape> := [];
    ghost var own: set<Node> := {};
    var child, last: Node? := item.child, null;
    ghost var source := Nodes(s);
    NodesAreAllocated(s);
    Walk(s, v);
    NoNodes();
    BuiltNothing(copy, v.kids);
    while child != null
      invariant |cs| <= |s.kids| && child == (if |cs| < |s.kids| then s.kids[|cs|].node else null)
      invariant fresh(own) && AllNodes(cs) == own && source == Nodes(s)
      invariant Content(s, v) && Linked(s, false) && Built(copy, last, cs, v.kids)
      invariant last != null ==> last in own
      decreases |s.kids| - |cs|
    {
      Walk(s, v);
      var newChild;
      ghost var new_;
      newChild, new_ := Duplicate(child, true, s.kids[|cs|], v.kids[|cs|]);
      NodesSnoc(cs, new_);
      assert newChild in Nodes(new_);
      Attach(copy, last, newChild, cs, new_, v.kids);
      last := newChild;
      own, cs := own + Nodes(new_), cs + [new_];
      Walk(s, v);
      child := child.next;
    }
    c := Shape(copy, cs);
    BuiltLast(copy, last, cs, v.kids);
  }

  lemma BuiltNothing(copy: Node, vs: seq<Item>)
    requires copy.child == null
    ensures Built(copy, null, [], vs)
  {
  }

  lemma BuiltLast(copy: Node, last: Node?, kids: seq<Shape>, vs: seq<Item>)
    requires Built(copy, last, kids, vs)
    ensures last == Last(kids)
  {
  }

  /** The chain of children as the source sees it. */
  lemma Walk(s: Shape, v: Item)
    requires Content(s, v) && Linked(s, false)
    ensures s.node.child == First(s.kids) && |s.kids| == |v.kids| && Forward(s.kids)
    ensures forall i :: 0 <= i < |s.kids| ==> Content(s.kids[i], v.kids[i]) && Linked(s.kids[i], false)
  {
  }

  // ---------- The copy against the original ----------

  /** The tree a node stands for. */
  function Value(v: Item): JSON {
    match v.kind
    case KNull => Null
    case KFalse => False
    case KTrue => True
    case KNumber => Number(v.number)
    case KString => String(Text(v.text))
    case KArray => Array(seq(|v.kids|, i requires 0 <= i < |v.kids| => Value(v.kids[i])))
    case KObject =>
      Object(seq(|v.kids|, i requires 0 <= i < |v.kids| => Member(Text(v.kids[i].name), Value(v.kids[i]))))
  }

  function Text(s: Option<string>): string {
    if s.Some? then s.value else []
  }

  /** A copy compares equal to its source exactly if no children are left behind and members of one name have one
      meaning. */
  lemma CopyComparesEqual(v: Item, recurse: bool, caseSensitive: bool)
    ensures Same(Value(Copied(v, recurse)), Value(v), caseSensitive)
       <==> (recurse || v.kids == [] || (v.kind != KArray && v.kind != KObject)) && Coherent(Value(v), caseSensitive)
  {
    hide SameItems, SameMembers, CoherentItems, CoherentMembers, NamesAgree;
    SameIsMeaning(Value(v), Value(v), caseSensitive);
    if recurse || v.kids == [] {
      assert Copied(v, recurse) == v;
    } else if v.kind == KArray {
      assert Value(Copied(v, recurse)).items == [];
      ItemsDiffer(Value(v).items, caseSensitive);
    } else if v.kind == KObject {
      assert Value(Copied(v, recurse)).members == [];
      MembersDiffer(Value(v).members, caseSensitive);
    }
  }

  lemma ItemsDiffer(items: seq<JSON>, caseSensitive: bool)
    requires items != []
    ensures !SameItems([], items, caseSensitive)
  {
  }

  lemma MembersDiffer(members: seq<Member>, caseSensitive: bool)
    requires members != []
    ensures !SameMembers(members, [], caseSensitive)
  {
  }
}
