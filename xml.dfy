/** An XML document as a tree value, with the two operations the handlers perform on
    an XmlDocument: find the first descendant `add` element selected by an attribute
    (the XPath step `descendant::add[@a='v']`) and overwrite one attribute of a node.
    Only unqualified attributes are represented; the text of an element is kept as one
    string beside its child elements. */
module Xml {
  import opened Common

  datatype Element = Element(ns: string, name: string, attrs: map<string, string>, text: string, children: seq<Element>)

  /** A node is addressed by the child indices leading to it from the root. */
  type Path = seq<nat>

  predicate ValidPath(e: Element, p: Path)
    decreases p
  {
    p == [] || (p[0] < |e.children| && ValidPath(e.children[p[0]], p[1..]))
  }

  function At(e: Element, p: Path): Element
    requires ValidPath(e, p)
    decreases p
  {
    if p == [] then e else At(e.children[p[0]], p[1..])
  }

  /** A path into a list of sibling elements: its first index picks the sibling. */
  predicate ValidIn(cs: seq<Element>, p: Path) {
    p != [] && p[0] < |cs| && ValidPath(cs[p[0]], p[1..])
  }

  function AtIn(cs: seq<Element>, p: Path): Element
    requires ValidIn(cs, p)
  {
    At(cs[p[0]], p[1..])
  }

  /** The attribute test of `descendant::add[@attr='value']`. */
  datatype Selector = AddWith(attr: string, value: string)

  predicate Matches(e: Element, sel: Selector) {
    e.ns == "" && e.name == "add" && sel.attr in e.attrs && e.attrs[sel.attr] == sel.value
  }

  /** `SelectSingleNode("descendant::add[...]")`: the first proper descendant, in document
      order, that the selector picks. */
  function FirstDescendant(e: Element, sel: Selector): Option<Path>
    decreases e
  {
    FirstAmong(e.children, sel)
  }

  /** The first element, in document order, among `cs` and their descendants. */
  function FirstAmong(cs: seq<Element>, sel: Selector): Option<Path>
    decreases cs
  {
    if cs == [] then None
    else if Matches(cs[0], sel) then Some([0])
    else match FirstDescendant(cs[0], sel)
      case Some(p) => Some([0] + p)
      case None =>
        match FirstAmong(cs[1..], sel)
        case Some(p) => Some([p[0] + 1] + p[1..])
        case None => None
  }

  /** Sets `attrs[k] := v` on the node at `p`, adding the attribute when absent. */
  function SetAttr(e: Element, p: Path, k: string, v: string): Element
    requires ValidPath(e, p)
    decreases p
  {
    if p == [] then e.(attrs := e.attrs[k := v])
    else e.(children := e.children[p[0] := SetAttr(e.children[p[0]], p[1..], k, v)])
  }

  lemma {:induction false} FirstDescendantSound(e: Element, sel: Selector)
    ensures FirstDescendant(e, sel).Some? ==>
      var p := FirstDescendant(e, sel).value;
      p != [] && ValidPath(e, p) && Matches(At(e, p), sel)
    decreases e
  {
    FirstAmongSound(e.children, sel);
  }

  lemma {:induction false} FirstAmongSound(cs: seq<Element>, sel: Selector)
    ensures FirstAmong(cs, sel).Some? ==>
      var p := FirstAmong(cs, sel).value;
      ValidIn(cs, p) && Matches(AtIn(cs, p), sel)
    decreases cs
  {
    if cs != [] && !Matches(cs[0], sel) {
      FirstDescendantSound(cs[0], sel);
      if FirstDescendant(cs[0], sel).None? {
        FirstAmongSound(cs[1..], sel);
        if FirstAmong(cs[1..], sel).Some? {
          var q := FirstAmong(cs[1..], sel).value;
          var p := [q[0] + 1] + q[1..];
          assert p[1..] == q[1..];
          assert cs[p[0]] == cs[1..][q[0]];
        }
      } else {
        var q := FirstDescendant(cs[0], sel).value;
        assert ([0] + q)[1..] == q;
      }
    }
  }

  /** When the search finds nothing, no descendant is selected. */
  lemma {:induction false} FirstDescendantComplete(e: Element, sel: Selector)
    ensures FirstDescendant(e, sel).None? ==>
      forall p :: ValidPath(e, p) && p != [] ==> !Matches(At(e, p), sel)
    decreases e
  {
    FirstAmongComplete(e.children, sel);
    forall p | ValidPath(e, p) && p != [] ensures ValidIn(e.children, p) && At(e, p) == AtIn(e.children, p) {
    }
  }

  lemma {:induction false} FirstAmongComplete(cs: seq<Element>, sel: Selector)
    ensures FirstAmong(cs, sel).None? ==>
      forall p :: ValidIn(cs, p) ==> !Matches(AtIn(cs, p), sel)
    decreases cs
  {
    if cs != [] && FirstAmong(cs, sel).None? {
      FirstDescendantComplete(cs[0], sel);
      FirstAmongComplete(cs[1..], sel);
      forall p | ValidIn(cs, p) ensures !Matches(AtIn(cs, p), sel) {
        if p[0] > 0 {
          var q := [p[0] - 1] + p[1..];
          assert q[1..] == p[1..];
          assert cs[1..][q[0]] == cs[p[0]];
          assert ValidIn(cs[1..], q);
        }
      }
    }
  }

  /** `a` and `b` are the same tree except, possibly, for the values of attribute `k`. */
  ghost predicate Agree(a: Element, b: Element, k: string)
    decreases a
  {
    && a.ns == b.ns && a.name == b.name && a.text == b.text
    && (forall x :: x != k ==> (x in a.attrs <==> x in b.attrs))
    && (forall x :: x != k && x in a.attrs ==> x in b.attrs && a.attrs[x] == b.attrs[x])
    && |a.children| == |b.children|
    && forall i :: 0 <= i < |a.children| ==> Agree(a.children[i], b.children[i], k)
  }

  lemma {:induction false} AgreeReflexive(e: Element, k: string)
    ensures Agree(e, e, k)
    decreases e
  {
    forall i | 0 <= i < |e.children| ensures Agree(e.children[i], e.children[i], k) {
      AgreeReflexive(e.children[i], k);
    }
  }

  /** Setting an attribute changes nothing but that attribute. */
  lemma {:induction false} SetAttrAgrees(e: Element, p: Path, k: string, v: string)
    requires ValidPath(e, p)
    ensures Agree(e, SetAttr(e, p, k, v), k)
    decreases p
  {
    var r := SetAttr(e, p, k, v);
    if p == [] {
      forall i | 0 <= i < |e.children| ensures Agree(e.children[i], r.children[i], k) {
        AgreeReflexive(e.children[i], k);
      }
    } else {
      SetAttrAgrees(e.children[p[0]], p[1..], k, v);
      forall i | 0 <= i < |e.children| ensures Agree(e.children[i], r.children[i], k) {
        if i != p[0] {
          AgreeReflexive(e.children[i], k);
        }
      }
    }
  }

  /** Trees that differ only in an attribute the selector does not test give the same search result. */
  lemma {:induction false} AgreeFirstDescendant(a: Element, b: Element, k: string, sel: Selector)
    requires Agree(a, b, k) && k != sel.attr
    ensures FirstDescendant(a, sel) == FirstDescendant(b, sel)
    decreases a
  {
    AgreeFirstAmong(a.children, b.children, k, sel);
  }

  lemma {:induction false} AgreeFirstAmong(xs: seq<Element>, ys: seq<Element>, k: string, sel: Selector)
    requires |xs| == |ys| && k != sel.attr
    requires forall i :: 0 <= i < |xs| ==> Agree(xs[i], ys[i], k)
    ensures FirstAmong(xs, sel) == FirstAmong(ys, sel)
    decreases xs
  {
    if xs != [] {
      assert Agree(xs[0], ys[0], k);
      assert Matches(xs[0], sel) == Matches(ys[0], sel);
      AgreeFirstDescendant(xs[0], ys[0], k, sel);
      AgreeFirstAmong(xs[1..], ys[1..], k, sel);
    }
  }

  lemma {:induction false} SetAttrPaths(e: Element, p: Path, q: Path, k: string, v: string)
    requires ValidPath(e, p)
    ensures ValidPath(SetAttr(e, p, k, v), q) <==> ValidPath(e, q)
    decreases q
  {
    if q != [] && p != [] && q[0] < |e.children| {
      if q[0] == p[0] {
        SetAttrPaths(e.children[p[0]], p[1..], q[1..], k, v);
      }
    }
  }

  /** After setting attribute `k` at `p`, the node at `q` has the same name, text, child
      count and attributes as before, except that the node at `p` now maps `k` to `v`. */
  lemma {:induction false} SetAttrAt(e: Element, p: Path, q: Path, k: string, v: string)
    requires ValidPath(e, p) && ValidPath(e, q)
    ensures ValidPath(SetAttr(e, p, k, v), q)
    ensures var before, after := At(e, q), At(SetAttr(e, p, k, v), q);
      && after.ns == before.ns && after.name == before.name && after.text == before.text
      && |after.children| == |before.children|
      && after.attrs == (if q == p then before.attrs[k := v] else before.attrs)
    decreases q
  {
    SetAttrPaths(e, p, q, k, v);
    if q != [] {
      if p != [] && q[0] == p[0] {
        SetAttrAt(e.children[p[0]], p[1..], q[1..], k, v);
        assert q == p <==> q[1..] == p[1..];
      }
    }
  }

  /** Setting an attribute to the value it already has is no change. */
  lemma {:induction false} SetAttrUnchanged(e: Element, p: Path, k: string, v: string)
    requires ValidPath(e, p) && k in At(e, p).attrs && At(e, p).attrs[k] == v
    ensures SetAttr(e, p, k, v) == e
    decreases p
  {
    if p == [] {
      assert e.attrs[k := v] == e.attrs;
    } else {
      SetAttrUnchanged(e.children[p[0]], p[1..], k, v);
      assert e.children[p[0] := e.children[p[0]]] == e.children;
    }
  }
}
