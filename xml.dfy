/**
 * The XML tree that lxml builds and the parts of lxml the rinse core relies on.
 *
 * An element is a namespace URI, a local name, its unqualified attributes and
 * its children in document order; text is a child of its own.  Parsing,
 * XPath over caller-chosen expressions and XML Schema compilation belong to
 * lxml and are handed in as the function values of an `Lxml` record.  The
 * fixed child paths rinse selects with (`/soapenv:Envelope/soapenv:Body`,
 * `/wsdl:definitions/wsdl:types/xsd:schema`) are evaluated here.
 */
module Xml {
  import opened Base

  newtype byte = x: int | 0 <= x < 256

  datatype Node =
    | Elem(ns: string, local: string, attrs: map<string, string>, children: seq<Node>)
    | Text(text: string)

  /** A namespace-qualified element name, one step of a child path. */
  datatype QName = QName(ns: string, local: string)

  /** What rinse asks of lxml beyond building trees. */
  datatype Lxml = Lxml(
    parsePath: string -> Result<Node>,    // defusedxml parse of a local path or a URL
    parseBytes: seq<byte> -> Result<Node>, // defusedxml fromstring
    xpath: (Node, string) -> seq<Node>,   // doc.xpath(expression) for an expression a caller chose
    compiles: Node -> bool,               // etree.XMLSchema(doc) accepts doc as a schema
    accepts: (Node, Node) -> bool         // the schema compiled from the first node accepts the second
  )

  predicate Matches(n: Node, q: QName)
  {
    n.Elem? && n.ns == q.ns && n.local == q.local
  }

  /** A leaf element holding one text child. */
  function Leaf(ns: string, local: string, text: string): Node
  {
    Elem(ns, local, map[], [Text(text)])
  }

  /** The text of an element whose only child is text. */
  function TextOf(n: Node): (r: Option<string>)
    ensures r.Some? <==> n.Elem? && |n.children| == 1 && n.children[0].Text?
    ensures forall ns, local, s :: n == Leaf(ns, local, s) ==> r == Some(s)
  {
    if n.Elem? && |n.children| == 1 && n.children[0].Text? then Some(n.children[0].text) else None
  }

  /** The members of `kids` named `q`, in order. */
  function Named(kids: seq<Node>, q: QName): (r: seq<Node>)
    ensures forall x :: x in r <==> x in kids && Matches(x, q)
    ensures |r| <= |kids|
  {
    if kids == [] then []
    else (if Matches(kids[0], q) then [kids[0]] else []) + Named(kids[1..], q)
  }

  /** Index of the first member of `kids` named `q`. */
  function FirstNamed(kids: seq<Node>, q: QName): (i: nat)
    requires exists j :: 0 <= j < |kids| && Matches(kids[j], q)
    ensures i < |kids| && Matches(kids[i], q)
    ensures forall j :: 0 <= j < i ==> !Matches(kids[j], q)
  {
    if Matches(kids[0], q) then 0
    else
      assert exists j :: 0 <= j < |kids[1..]| && Matches(kids[1..][j], q) by {
        var j :| 0 <= j < |kids| && Matches(kids[j], q);
        assert j > 0 && kids[1..][j - 1] == kids[j];
      }
      1 + FirstNamed(kids[1..], q)
  }

  /** The head of `Named` is the first member with that name. */
  lemma {:induction false} NamedHead(kids: seq<Node>, q: QName)
    requires Named(kids, q) != []
    ensures exists j :: 0 <= j < |kids| && Matches(kids[j], q)
    ensures Named(kids, q)[0] == kids[FirstNamed(kids, q)]
  {
    var x := Named(kids, q)[0];
    assert x in kids;
    if !Matches(kids[0], q) {
      assert Named(kids, q) == Named(kids[1..], q);
      NamedHead(kids[1..], q);
      var i := FirstNamed(kids[1..], q);
      assert kids[1..][i] == kids[i + 1];
    }
  }

  /** One location step: the children named `q` of each node, in document order. */
  function Step(nodes: seq<Node>, q: QName): (r: seq<Node>)
    ensures forall x :: x in r ==> Matches(x, q)
  {
    if nodes == [] then []
    else (if nodes[0].Elem? then Named(nodes[0].children, q) else []) + Step(nodes[1..], q)
  }

  /** Follow the remaining steps of a path from a set of context nodes. */
  function Walk(nodes: seq<Node>, path: seq<QName>): seq<Node>
    decreases |path|
  {
    if path == [] then nodes else Walk(Step(nodes, path[0]), path[1..])
  }

  /** The absolute child path `/path[0]/path[1]/...` evaluated against a document root. */
  function SelectPath(root: Node, path: seq<QName>): (r: seq<Node>)
    ensures path == [] ==> r == []
    ensures |path| == 1 ==> (r == [root] <==> Matches(root, path[0])) && (r == [] <==> !Matches(root, path[0]))
  {
    if path == [] then []
    else Walk(if Matches(root, path[0]) then [root] else [], path[1..])
  }

  /** Every node a non-empty path selects carries the path's last name. */
  lemma {:induction false} WalkSound(nodes: seq<Node>, path: seq<QName>, last: QName)
    requires forall x :: x in nodes ==> Matches(x, last)
    ensures forall x :: x in Walk(nodes, path) ==>
      Matches(x, if path == [] then last else path[|path| - 1])
    decreases |path|
  {
    if path != [] {
      WalkSound(Step(nodes, path[0]), path[1..], path[0]);
      if |path| > 1 {
        assert path[1..][|path[1..]| - 1] == path[|path| - 1];
      }
    }
  }

  lemma SelectPathSound(root: Node, path: seq<QName>)
    requires path != []
    ensures forall x :: x in SelectPath(root, path) ==> Matches(x, path[|path| - 1])
  {
    WalkSound(if Matches(root, path[0]) then [root] else [], path[1..], path[0]);
    if |path| > 1 {
      assert path[1..][|path[1..]| - 1] == path[|path| - 1];
    }
  }

  /** A two-step absolute path selects the root's children with the second name. */
  lemma TwoStepPath(root: Node, a: QName, b: QName)
    ensures SelectPath(root, [a, b]) == if Matches(root, a) then Named(root.children, b) else []
  {
    assert [a, b][1..] == [b];
    if Matches(root, a) {
      assert [root][1..] == [];
      assert Step([root], b) == Named(root.children, b);
      assert Walk([root], [b]) == Walk(Step([root], b), []);
    } else {
      assert Walk([], [b]) == Walk(Step([], b), []);
    }
  }

  /** A three-step absolute path selects, in order, the `c` children of the root's `b` children. */
  lemma ThreeStepPath(root: Node, a: QName, b: QName, c: QName)
    ensures SelectPath(root, [a, b, c])
         == if Matches(root, a) then Step(Named(root.children, b), c) else []
  {
    assert [a, b, c][1..] == [b, c] && [b, c][1..] == [c];
    if Matches(root, a) {
      assert [root][1..] == [];
      assert Step([root], b) == Named(root.children, b);
      assert Walk([root], [b, c]) == Walk(Step([root], b), [c]);
      assert Walk(Step([root], b), [c]) == Walk(Step(Step([root], b), c), []);
    } else {
      assert Walk([], [b, c]) == Walk(Step([], b), [c]);
      assert Walk([], [c]) == Walk(Step([], c), []);
    }
  }

  /** A step finds something exactly when one of its context nodes has a child of that name. */
  lemma {:induction false} StepNonEmpty(nodes: seq<Node>, q: QName)
    requires forall n :: n in nodes ==> n.Elem?
    ensures Step(nodes, q) != [] <==>
      exists i, j :: 0 <= i < |nodes| && 0 <= j < |nodes[i].children| && Matches(nodes[i].children[j], q)
  {
    if nodes != [] {
      StepNonEmpty(nodes[1..], q);
      if Named(nodes[0].children, q) != [] {
        var x := Named(nodes[0].children, q)[0];
        assert x in nodes[0].children;
      } else {
        assert forall j :: 0 <= j < |nodes[0].children| ==> !Matches(nodes[0].children[j], q) by {
          forall j | 0 <= j < |nodes[0].children| ensures !Matches(nodes[0].children[j], q) {
            assert nodes[0].children[j] in nodes[0].children;
          }
        }
        assert Step(nodes, q) == Step(nodes[1..], q);
        if exists i, j :: 0 <= i < |nodes| && 0 <= j < |nodes[i].children| && Matches(nodes[i].children[j], q) {
          var i, j :| 0 <= i < |nodes| && 0 <= j < |nodes[i].children| && Matches(nodes[i].children[j], q);
          assert i > 0 && nodes[1..][i - 1] == nodes[i];
        }
      }
    }
  }

  /** What a step selects: exactly the children named `q` of the element context nodes. */
  lemma {:induction false} StepMembers(nodes: seq<Node>, q: QName, x: Node)
    ensures x in Step(nodes, q) <==> exists n :: n in nodes && n.Elem? && x in n.children && Matches(x, q)
  {
    if nodes != [] {
      StepMembers(nodes[1..], q, x);
      if exists n :: n in nodes && n.Elem? && x in n.children && Matches(x, q) {
        var n :| n in nodes && n.Elem? && x in n.children && Matches(x, q);
        if n != nodes[0] {
          assert n in nodes[1..];
        }
      }
    }
  }

  /**
   * The first node a step selects is the first named child of the first
   * context node that has one: the context node `i`, when no earlier one has
   * a named child.
   */
  lemma {:induction false} StepHead(nodes: seq<Node>, q: QName, i: nat)
    requires i < |nodes| && nodes[i].Elem? && Named(nodes[i].children, q) != []
    requires forall j :: 0 <= j < i ==> !nodes[j].Elem? || Named(nodes[j].children, q) == []
    ensures Step(nodes, q) != [] && Step(nodes, q)[0] == Named(nodes[i].children, q)[0]
    decreases i
  {
    if i > 0 {
      var rest := nodes[1..];
      assert forall j :: 0 <= j < i - 1 ==> rest[j] == nodes[j + 1];
      StepHead(rest, q, i - 1);
      assert Step(nodes, q) == (if nodes[0].Elem? then Named(nodes[0].children, q) else []) + Step(rest, q);
    }
  }

  /** The element children of a node's content, in order (what iterating an lxml element yields). */
  function ElementsOf(kids: seq<Node>): (r: seq<Node>)
    ensures forall x :: x in r <==> x in kids && x.Elem?
    ensures |r| <= |kids|
  {
    if kids == [] then []
    else (if kids[0].Elem? then [kids[0]] else []) + ElementsOf(kids[1..])
  }

  /** lxml's `.text`: the text before the first element child, None when there is none. */
  function LeadingText(kids: seq<Node>): Option<string>
  {
    if kids == [] || kids[0].Elem? then None
    else match LeadingText(kids[1..])
      case None => Some(kids[0].text)
      case Some(rest) => Some(kids[0].text + rest)
  }

  /** lxml's `.tag` in Clark notation: `{ns}local`, or the bare local name without a namespace. */
  function Tag(ns: string, local: string): (r: string)
    ensures ns == "" ==> r == local
    ensures ns != "" ==>
      && |r| == |ns| + |local| + 2 && r[0] == '{' && r[1..|ns| + 1] == ns
      && r[|ns| + 1] == '}' && r[|ns| + 2..] == local
  {
    if ns == "" then local else "{" + ns + "}" + local
  }
}
