/** The parsed markup the loaders walk: an element tree with the queries the
    loaders make of it (first descendant with a tag, attribute, text, element
    children). A document is given by its root node; the document's own root,
    whose tag name is empty, never matches the non-empty tags the loaders ask for. */
module Xml {
  import opened Wrappers

  /** An element with its tag, attributes and child nodes, or character data. */
  datatype Node =
    | Element(tag: string, attributes: map<string, string>, children: seq<Node>)
    | Text(content: string)

  /** `tag_name()`: empty for a node that is not an element. */
  function TagOf(n: Node): string
  {
    if n.Element? then n.tag else ""
  }

  /** `attribute(name)`. */
  function Attribute(n: Node, name: string): (r: Option<string>)
    ensures r.Some? <==> n.Element? && name in n.attributes
    ensures r.Some? ==> r.value == n.attributes[name]
  {
    if n.Element? && name in n.attributes then Some(n.attributes[name]) else None
  }

  /** `text()`: character data itself, or, for an element, its first child when that is character data. */
  function TextOf(n: Node): Option<string>
  {
    match n
    case Text(t) => Some(t)
    case Element(_, _, cs) => if |cs| > 0 && cs[0].Text? then Some(cs[0].content) else None
  }

  /** `children()`: the child nodes of an element; character data has none. */
  function Children(n: Node): seq<Node>
  {
    if n.Element? then n.children else []
  }

  /** `descendants()`: the node itself, then its subtrees in document order. */
  function Descendants(n: Node): (d: seq<Node>)
    ensures |d| >= 1 && d[0] == n
  {
    match n
    case Text(_) => [n]
    case Element(_, _, cs) => [n] + DescendantsAll(cs)
  }

  function DescendantsAll(ns: seq<Node>): seq<Node>
  {
    if ns == [] then [] else Descendants(ns[0]) + DescendantsAll(ns[1..])
  }

  /** `descendants().find(|d| d.tag_name() == tag)`, written as a depth-first search. */
  function FindDescendant(n: Node, tag: string): Option<Node>
  {
    if TagOf(n) == tag then Some(n)
    else
      match n
      case Text(_) => None
      case Element(_, _, cs) => FindInForest(cs, tag)
  }

  function FindInForest(ns: seq<Node>, tag: string): Option<Node>
  {
    if ns == [] then None
    else
      match FindDescendant(ns[0], tag)
      case Some(d) => Some(d)
      case None => FindInForest(ns[1..], tag)
  }

  /** The search returns the first node of the preorder walk that carries the tag. */
  lemma {:induction false} FindDescendantIsFirstInPreorder(n: Node, tag: string)
    ensures FindDescendant(n, tag) == FirstMatch(Descendants(n), TagOf, tag)
    decreases n
  {
    match n
    case Text(_) =>
      assert FirstIndex(Descendants(n), TagOf, tag) == if TagOf(n) == tag then Some(0) else None;
    case Element(_, _, cs) =>
      FirstMatchAppend([n], DescendantsAll(cs), TagOf, tag);
      assert FirstIndex([n], TagOf, tag) == if TagOf(n) == tag then Some(0) else None;
      FindInForestIsFirstInPreorder(cs, tag);
  }

  lemma {:induction false} FindInForestIsFirstInPreorder(ns: seq<Node>, tag: string)
    ensures FindInForest(ns, tag) == FirstMatch(DescendantsAll(ns), TagOf, tag)
    decreases ns
  {
    if ns == [] {
      assert FirstIndex(DescendantsAll(ns), TagOf, tag) == None;
    } else {
      FirstMatchAppend(Descendants(ns[0]), DescendantsAll(ns[1..]), TagOf, tag);
      FindDescendantIsFirstInPreorder(ns[0], tag);
      FindInForestIsFirstInPreorder(ns[1..], tag);
    }
  }

  /** What the search finds carries the tag and lies in the subtree. */
  lemma FindDescendantFound(n: Node, tag: string)
    ensures FindDescendant(n, tag).Some? ==>
      TagOf(FindDescendant(n, tag).value) == tag && FindDescendant(n, tag).value in Descendants(n)
    ensures FindDescendant(n, tag).None? <==> forall d :: d in Descendants(n) ==> TagOf(d) != tag
  {
    FindDescendantIsFirstInPreorder(n, tag);
    var ds := Descendants(n);
    if FirstIndex(ds, TagOf, tag).None? {
      forall d | d in ds ensures TagOf(d) != tag {
        var j :| 0 <= j < |ds| && ds[j] == d;
      }
    }
  }

  /** The element children of a node list, in document order (`children()` filtered by `is_element()`). */
  function Elements(ns: seq<Node>): (es: seq<Node>)
    ensures forall k :: 0 <= k < |es| ==> es[k].Element? && es[k] in ns
    ensures forall k :: 0 <= k < |ns| && ns[k].Element? ==> ns[k] in es
    ensures |es| <= |ns|
  {
    if ns == [] then []
    else
      var init := ns[..|ns| - 1];
      var last := ns[|ns| - 1];
      assert forall k :: 0 <= k < |init| ==> ns[k] == init[k];
      Elements(init) + (if last.Element? then [last] else [])
  }

  /** Filtering a concatenation filters each part, keeping their order. */
  lemma {:induction false} ElementsAppend(a: seq<Node>, b: seq<Node>)
    ensures Elements(a + b) == Elements(a) + Elements(b)
  {
    if b == [] {
      assert a + b == a;
    } else {
      var init := b[..|b| - 1];
      ElementsAppend(a, init);
      assert (a + b)[..|a + b| - 1] == a + init;
      assert (a + b)[|a + b| - 1] == b[|b| - 1];
    }
  }

  /** A single node is kept exactly when it is an element. */
  lemma ElementsOfOne(n: Node)
    ensures Elements([n]) == if n.Element? then [n] else []
  {
    assert [n][..0] == [];
  }

  /** Decodes every element child in order and stops at the first failure; other nodes are skipped. */
  function CollectElements<T, E>(ns: seq<Node>, decode: Node -> Result<T, E>): (r: Result<seq<T>, E>)
  {
    if ns == [] then Ok([])
    else
      var done :- CollectElements(ns[..|ns| - 1], decode);
      var last := ns[|ns| - 1];
      if !last.Element? then Ok(done)
      else
        var v :- decode(last);
        Ok(done + [v])
  }

  /** A failure among the first `i` nodes is the failure of the whole list. */
  lemma {:induction false} CollectElementsStopsAtFailure<T, E>(ns: seq<Node>, i: nat, decode: Node -> Result<T, E>)
    requires i <= |ns|
    requires CollectElements(ns[..i], decode).Err?
    ensures CollectElements(ns, decode) == CollectElements(ns[..i], decode)
    decreases |ns| - i
  {
    if i < |ns| {
      assert ns[..i + 1][..i] == ns[..i];
      CollectElementsStopsAtFailure(ns, i + 1, decode);
    } else {
      assert ns[..i] == ns;
    }
  }

  /** Decoding succeeds exactly when every element child decodes, and then yields
      one value per element child, in document order. */
  lemma {:induction false} CollectElementsInOrder<T, E>(ns: seq<Node>, decode: Node -> Result<T, E>)
    ensures var r := CollectElements(ns, decode); var es := Elements(ns);
      (r.Ok? <==> forall k :: 0 <= k < |es| ==> decode(es[k]).Ok?) &&
      (r.Ok? ==> |r.value| == |es| && forall k :: 0 <= k < |es| ==> r.value[k] == decode(es[k]).value)
  {
    if ns != [] {
      var init := ns[..|ns| - 1];
      var last := ns[|ns| - 1];
      CollectElementsInOrder(init, decode);
      var es := Elements(ns);
      var ei := Elements(init);
      var ri := CollectElements(init, decode);
      assert es == ei + (if last.Element? then [last] else []);
      if last.Element? {
        assert es[|ei|] == last;
        assert forall k :: 0 <= k < |ei| ==> es[k] == ei[k];
        if ri.Ok? && decode(last).Ok? {
          assert CollectElements(ns, decode) == Ok(ri.value + [decode(last).value]);
        } else if ri.Ok? {
          assert CollectElements(ns, decode).Err?;
          assert !decode(es[|ei|]).Ok?;
          assert !(forall j :: 0 <= j < |es| ==> decode(es[j]).Ok?);
        } else {
          var k :| 0 <= k < |ei| && !decode(ei[k]).Ok?;
          assert es == Elements(ns) && !decode(Elements(ns)[k]).Ok?;
          assert !(forall j :: 0 <= j < |Elements(ns)| ==> decode(Elements(ns)[j]).Ok?);
          assert !CollectElements(ns, decode).Ok?;
        }
      } else {
        assert es == ei;
        assert CollectElements(ns, decode) == ri;
      }
    }
  }

  /** A list of elements that all decode yields their values, in order. */
  lemma {:induction false} CollectElementsAllOk<T, E>(ns: seq<Node>, decode: Node -> Result<T, E>, vs: seq<T>)
    requires |vs| == |ns|
    requires forall k :: 0 <= k < |ns| ==> ns[k].Element? && decode(ns[k]) == Ok(vs[k])
    ensures CollectElements(ns, decode) == Ok(vs)
  {
    if ns != [] {
      var n := |ns| - 1;
      CollectElementsAllOk(ns[..n], decode, vs[..n]);
      assert vs == vs[..n] + [vs[n]];
    }
  }

  /** One more node after a prefix that decoded: a non-element changes nothing, an
      element appends its value or ends the list with its error. */
  lemma CollectElementsStep<T, E>(ns: seq<Node>, i: nat, decode: Node -> Result<T, E>, done: seq<T>)
    requires i < |ns|
    requires CollectElements(ns[..i], decode) == Ok(done)
    ensures CollectElements(ns[..i + 1], decode) ==
      if !ns[i].Element? then Ok(done)
      else if decode(ns[i]).Ok? then Ok(done + [decode(ns[i]).value])
      else Err(decode(ns[i]).error)
  {
    var next := ns[..i + 1];
    assert next[..i] == ns[..i] && next[i] == ns[i];
  }

  /** After a failure, one more node changes nothing. */
  lemma CollectElementsFailedStep<T, E>(ns: seq<Node>, i: nat, decode: Node -> Result<T, E>)
    requires i < |ns|
    requires CollectElements(ns[..i], decode).Err?
    ensures CollectElements(ns[..i + 1], decode) == CollectElements(ns[..i], decode)
  {
    var next := ns[..i + 1];
    assert next[..i] == ns[..i];
  }
}
