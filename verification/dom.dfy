/** An abstract view of the DOM subtrees menu.js builds: each element is a
    tag, a class name, the value last assigned to its `textContent` (`None`
    when none was), its attributes, and its children in order. A class query
    over a forest stands for `querySelectorAll('.cls')`: every matching
    element, in document (pre-)order. */
module Dom {
  import opened Js

  datatype Node = Node(
    tag: string,
    className: string,
    text: Option<Value>,
    attrs: map<string, Value>,
    children: seq<Node>)

  /** An element with a text and no attributes or children. */
  function Leaf(tag: string, className: string, text: Value): (n: Node)
    ensures n.children == [] && n.text == Some(text) && n.className == className
  {
    Node(tag, className, Some(text), map[], [])
  }

  /** An element with children and no text or attributes. */
  function Box(tag: string, className: string, children: seq<Node>): (n: Node)
    ensures n.children == children && n.text.None? && n.className == className
  {
    Node(tag, className, None, map[], children)
  }

  /** Every element of class `cls` in the forest `ns`, in document order. */
  function Select(ns: seq<Node>, cls: string): seq<Node>
    decreases ns
  {
    if ns == [] then []
    else
      (if ns[0].className == cls then [ns[0]] else [])
      + Select(ns[0].children, cls)
      + Select(ns[1..], cls)
  }

  /** The `textContent` of each element of a query result. */
  function Texts(ns: seq<Node>): (r: seq<Option<Value>>)
    ensures |r| == |ns|
    ensures forall i :: 0 <= i < |ns| ==> r[i] == ns[i].text
  {
    seq(|ns|, i requires 0 <= i < |ns| => ns[i].text)
  }

  /** A query over two adjacent forests is the concatenation of the two. */
  lemma {:induction false} SelectAppend(a: seq<Node>, b: seq<Node>, cls: string)
    ensures Select(a + b, cls) == Select(a, cls) + Select(b, cls)
    decreases a
  {
    if a == [] {
      assert a + b == b;
    } else {
      assert (a + b)[0] == a[0];
      assert (a + b)[1..] == a[1..] + b;
      SelectAppend(a[1..], b, cls);
    }
  }

  /** A query over one element: the element itself if it matches, then its
      descendants. */
  lemma SelectSingle(n: Node, cls: string)
    ensures Select([n], cls) ==
      (if n.className == cls then [n] else []) + Select(n.children, cls)
  {
    assert [n][1..] == [];
  }

  /** When each element of a forest contributes exactly one match, the query
      yields those matches in the forest's order. */
  lemma {:induction false} SelectOnePerTree(ns: seq<Node>, cls: string, picked: seq<Node>)
    requires |picked| == |ns|
    requires forall j :: 0 <= j < |ns| ==> Select([ns[j]], cls) == [picked[j]]
    ensures Select(ns, cls) == picked
    decreases ns
  {
    if ns != [] {
      assert ns == [ns[0]] + ns[1..];
      SelectAppend([ns[0]], ns[1..], cls);
      assert forall j :: 0 <= j < |ns| - 1 ==> ns[1..][j] == ns[j + 1];
      SelectOnePerTree(ns[1..], cls, picked[1..]);
      assert picked == [picked[0]] + picked[1..];
    }
  }

  /** When no element of a forest contains a match, the query is empty. */
  lemma {:induction false} SelectNoneInTrees(ns: seq<Node>, cls: string)
    requires forall j :: 0 <= j < |ns| ==> Select([ns[j]], cls) == []
    ensures Select(ns, cls) == []
    decreases ns
  {
    if ns != [] {
      assert ns == [ns[0]] + ns[1..];
      SelectAppend([ns[0]], ns[1..], cls);
      assert forall j :: 0 <= j < |ns| - 1 ==> ns[1..][j] == ns[j + 1];
      SelectNoneInTrees(ns[1..], cls);
    }
  }
}
