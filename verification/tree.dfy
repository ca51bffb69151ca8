/** Parse trees. The parser builds a tagged tree (`Json`), so that the kind
    of every literal stays visible; `ToNode` turns it into the source's
    `ParseTreeNode` shape, a label with ordered children, and `Render` is
    that node's pre-order printing (`print_tree`). */
module Trees {

  /** `ParseTreeNode`: a value (a structural tag or a literal's text) and
      the children in the order `add_child` appended them. */
  datatype Node = Node(value: string, children: seq<Node>)

  /** What the parser recognised. `Literal` is a BOOLEAN or NULL token: its
      text is `str(value)` and its `tag` is the kind the parser reported
      for it, which is the kind of the token after the literal. */
  datatype Json =
    | Object(members: seq<Member>)
    | Array(elements: seq<Json>)
    | Str(text: string)
    | Num(text: string)
    | Literal(kind: string, text: string, tag: string)

  datatype Member = Member(key: string, value: Json)

  /** The kind tag `parse_value` returns beside the node. */
  function Tag(v: Json): (r: string)
    ensures v.Literal? ==> r == v.tag
    ensures !v.Literal? ==> r in {"OBJECT", "ARRAY", "STRING", "NUMBER"}
    ensures !v.Literal? ==>
      && (r == "OBJECT" <==> v.Object?) && (r == "ARRAY" <==> v.Array?)
      && (r == "STRING" <==> v.Str?) && (r == "NUMBER" <==> v.Num?)
  {
    match v
    case Object(_) => "OBJECT"
    case Array(_) => "ARRAY"
    case Str(_) => "STRING"
    case Num(_) => "NUMBER"
    case Literal(_, _, tag) => tag
  }

  /** The `pair` node `parse_pair` builds for one member. */
  function PairNode(m: Member): (r: Node)
    ensures IsPairNode(r) && KeyOf(r) == m.key
    ensures r.children[1].children[0] == ToNode(m.value)
    decreases m, 1
  {
    Node("pair", [Node("key", [Node(m.key, [])]), Node("value", [ToNode(m.value)])])
  }

  /** The `ParseTreeNode` the source builds for a recognised value. */
  function ToNode(v: Json): (r: Node)
    ensures v.Object? ==> r.value == "object" && |r.children| == |v.members|
    ensures v.Array? ==> r.value == "array" && |r.children| == |v.elements|
    ensures !v.Object? && !v.Array? ==> r.value == v.text && r.children == []
    decreases v, 0
  {
    match v
    case Object(ms) => Node("object", PairNodes(ms))
    case Array(es) => Node("array", ElementNodes(es))
    case Str(t) => Node(t, [])
    case Num(t) => Node(t, [])
    case Literal(_, t, _) => Node(t, [])
  }

  function PairNodes(ms: seq<Member>): (r: seq<Node>)
    ensures |r| == |ms|
    decreases ms
  {
    if ms == [] then [] else [PairNode(ms[0])] + PairNodes(ms[1..])
  }

  function ElementNodes(es: seq<Json>): (r: seq<Node>)
    ensures |r| == |es|
    decreases es
  {
    if es == [] then [] else [ToNode(es[0])] + ElementNodes(es[1..])
  }

  /** The shape of a `pair` node: a `key` node over one leaf, then a
      `value` node over one child. */
  predicate IsPairNode(n: Node) {
    && n.value == "pair"
    && |n.children| == 2
    && n.children[0].value == "key"
    && |n.children[0].children| == 1
    && n.children[0].children[0].children == []
    && n.children[1].value == "value"
    && |n.children[1].children| == 1
  }

  /** The text `parse_object` reads back from a pair node as its key. */
  function KeyOf(n: Node): string
    requires IsPairNode(n)
  {
    n.children[0].children[0].value
  }

  lemma {:induction false} PairNodesAt(ms: seq<Member>, i: nat)
    requires i < |ms|
    ensures PairNodes(ms)[i] == PairNode(ms[i])
  {
    if i > 0 {
      PairNodesAt(ms[1..], i - 1);
    }
  }

  lemma {:induction false} ElementNodesAt(es: seq<Json>, i: nat)
    requires i < |es|
    ensures ElementNodes(es)[i] == ToNode(es[i])
  {
    if i > 0 {
      ElementNodesAt(es[1..], i - 1);
    }
  }

  /** Tree shape: an `object` node's children are `pair` nodes in member
      order, each holding its key as the key leaf and the member's value
      as the one child of its `value` node; an `array` node's children are
      its elements in order; a scalar is a leaf holding its text. */
  lemma ToNodeShape(v: Json)
    ensures v.Object? ==>
      && ToNode(v).value == "object"
      && |ToNode(v).children| == |v.members|
      && forall i :: 0 <= i < |v.members| ==>
           && IsPairNode(ToNode(v).children[i])
           && KeyOf(ToNode(v).children[i]) == v.members[i].key
           && ToNode(v).children[i].children[1].children[0] == ToNode(v.members[i].value)
    ensures v.Array? ==>
      && ToNode(v).value == "array"
      && |ToNode(v).children| == |v.elements|
      && forall i :: 0 <= i < |v.elements| ==> ToNode(v).children[i] == ToNode(v.elements[i])
    ensures (v.Str? || v.Num? || v.Literal?) ==> ToNode(v) == Node(v.text, [])
  {
    if v.Object? {
      forall i | 0 <= i < |v.members|
        ensures IsPairNode(ToNode(v).children[i])
        ensures KeyOf(ToNode(v).children[i]) == v.members[i].key
        ensures ToNode(v).children[i].children[1].children[0] == ToNode(v.members[i].value)
      {
        PairNodesAt(v.members, i);
      }
    } else if v.Array? {
      forall i | 0 <= i < |v.elements|
        ensures ToNode(v).children[i] == ToNode(v.elements[i])
      {
        ElementNodesAt(v.elements, i);
      }
    }
  }

  /** Two spaces per level. */
  function Indent(level: nat): (r: string)
    ensures |r| == 2 * level
    ensures forall i :: 0 <= i < |r| ==> r[i] == ' '
  {
    if level == 0 then "" else "  " + Indent(level - 1)
  }

  /** `print_tree(level)`: the node's line, then each child's printing one
      level deeper, in order. */
  function Render(n: Node, level: nat): string
    decreases n, 1
  {
    Indent(level) + n.value + "\n" + RenderAll(n.children, level + 1)
  }

  function RenderAll(ns: seq<Node>, level: nat): string
    decreases ns, 0
  {
    if ns == [] then "" else Render(ns[0], level) + RenderAll(ns[1..], level)
  }

  /** The nodes of a tree in pre-order, each with its depth. */
  function PreOrder(n: Node, level: nat): (r: seq<(nat, string)>)
    ensures |r| >= 1 && r[0] == (level, n.value)
    decreases n, 1
  {
    [(level, n.value)] + PreOrderAll(n.children, level + 1)
  }

  function PreOrderAll(ns: seq<Node>, level: nat): seq<(nat, string)>
    decreases ns, 0
  {
    if ns == [] then [] else PreOrder(ns[0], level) + PreOrderAll(ns[1..], level)
  }

  /** One line per entry: the indentation for its depth, its label, a
      line break. */
  function Lines(entries: seq<(nat, string)>): string {
    if entries == [] then ""
    else Indent(entries[0].0) + entries[0].1 + "\n" + Lines(entries[1..])
  }

  /** The number of nodes of a tree. */
  function Size(n: Node): nat
    decreases n, 1
  {
    1 + SizeAll(n.children)
  }

  function SizeAll(ns: seq<Node>): nat
    decreases ns, 0
  {
    if ns == [] then 0 else Size(ns[0]) + SizeAll(ns[1..])
  }

  lemma {:induction false} LinesAppend(a: seq<(nat, string)>, b: seq<(nat, string)>)
    ensures Lines(a + b) == Lines(a) + Lines(b)
  {
    if a == [] {
      assert a + b == b;
    } else {
      assert (a + b)[0] == a[0];
      assert (a + b)[1..] == a[1..] + b;
      LinesAppend(a[1..], b);
    }
  }

  /** `print_tree` prints the tree in pre-order, one entry per node, each
      indented by two spaces per level of depth. */
  lemma {:induction false} RenderIsPreOrder(n: Node, level: nat)
    ensures Render(n, level) == Lines(PreOrder(n, level))
    ensures |PreOrder(n, level)| == Size(n)
    decreases n, 1
  {
    RenderAllIsPreOrder(n.children, level + 1);
    var rest := PreOrderAll(n.children, level + 1);
    assert ([(level, n.value)] + rest)[1..] == rest;
  }

  lemma {:induction false} RenderAllIsPreOrder(ns: seq<Node>, level: nat)
    ensures RenderAll(ns, level) == Lines(PreOrderAll(ns, level))
    ensures |PreOrderAll(ns, level)| == SizeAll(ns)
    decreases ns, 0
  {
    if ns != [] {
      RenderIsPreOrder(ns[0], level);
      RenderAllIsPreOrder(ns[1..], level);
      LinesAppend(PreOrder(ns[0], level), PreOrderAll(ns[1..], level));
    }
  }

  /** A node's printing starts with its label at its indentation and ends
      with a line break; the printing of a list of siblings is empty
      exactly for no siblings, and otherwise ends with a line break. */
  lemma {:induction false} RenderLine(n: Node, level: nat)
    ensures var r := Render(n, level);
      && |r| > 2 * level + |n.value|
      && r[..2 * level + |n.value|] == Indent(level) + n.value
      && r[|r| - 1] == '\n'
    decreases n, 1
  {
    RenderAllLines(n.children, level + 1);
    var head := Indent(level) + n.value + "\n";
    var rest := RenderAll(n.children, level + 1);
    assert Render(n, level) == head + rest;
    assert (head + rest)[..2 * level + |n.value|] == head[..2 * level + |n.value|];
    if rest != [] {
      assert (head + rest)[|head + rest| - 1] == rest[|rest| - 1];
    }
  }

  lemma {:induction false} RenderAllLines(ns: seq<Node>, level: nat)
    ensures var r := RenderAll(ns, level);
      && (r == [] <==> ns == [])
      && (r != [] ==> r[|r| - 1] == '\n')
    decreases ns, 0
  {
    if ns != [] {
      RenderLine(ns[0], level);
      RenderAllLines(ns[1..], level);
      var a := Render(ns[0], level);
      var b := RenderAll(ns[1..], level);
      if b != [] {
        assert (a + b)[|a + b| - 1] == b[|b| - 1];
      } else {
        assert a + b == a;
      }
    }
  }

  lemma {:induction false} RenderAllAppend(a: seq<Node>, b: seq<Node>, level: nat)
    ensures RenderAll(a + b, level) == RenderAll(a, level) + RenderAll(b, level)
  {
    if a == [] {
      assert a + b == b;
    } else {
      assert (a + b)[0] == a[0];
      assert (a + b)[1..] == a[1..] + b;
      RenderAllAppend(a[1..], b, level);
    }
  }

  /** Rendering one more sibling appends its rendering. */
  lemma RenderAllSnoc(ns: seq<Node>, i: nat, level: nat)
    requires i < |ns|
    ensures RenderAll(ns[..i + 1], level) == RenderAll(ns[..i], level) + Render(ns[i], level)
  {
    assert ns[..i + 1] == ns[..i] + [ns[i]];
    RenderAllAppend(ns[..i], [ns[i]], level);
    assert RenderAll([ns[i]], level) == Render(ns[i], level) + RenderAll([], level);
  }

  /** `print_tree`, with its loop over the children. */
  method PrintTree(n: Node, level: nat) returns (result: string)
    ensures result == Render(n, level)
    decreases n
  {
    ghost var header := Indent(level) + n.value + "\n";
    result := Indent(level) + n.value + "\n";
    for i := 0 to |n.children|
      invariant result == header + RenderAll(n.children[..i], level + 1)
    {
      var child := PrintTree(n.children[i], level + 1);
      RenderAllSnoc(n.children, i, level + 1);
      result := result + child;
    }
    assert n.children[..|n.children|] == n.children;
  }
}
