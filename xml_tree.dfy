/**
  A parsed XML document as `xml.etree.ElementTree` presents it: each element
  has a tag, a dictionary of attributes and an ordered list of children.
  Text content and tails are not represented; the parsers never read them.
*/
module XmlTree {
  import opened PyCore

  datatype Element = Element(tag: string, attrib: map<string, string>, children: seq<Element>)

  /** Every element of a forest, each before its own descendants, trees in
      order: document order. */
  function Walk(forest: seq<Element>): seq<Element>
    decreases forest
  {
    if forest == [] then []
    else [forest[0]] + Walk(forest[0].children) + Walk(forest[1..])
  }

  /** The elements of `es` whose tag is `tag`, in order. */
  function Tagged(es: seq<Element>, tag: string): (r: seq<Element>)
    ensures |r| <= |es|
  {
    if es == [] then []
    else
      var front := Tagged(es[..|es| - 1], tag);
      var last := es[|es| - 1];
      if last.tag == tag then front + [last] else front
  }

  /** An element is selected exactly when it is in the input and has the tag. */
  lemma {:induction false} TaggedMembers(es: seq<Element>, tag: string)
    ensures forall e :: e in Tagged(es, tag) <==> e in es && e.tag == tag
    decreases |es|
  {
    if es != [] {
      TaggedMembers(es[..|es| - 1], tag);
      assert es == es[..|es| - 1] + [es[|es| - 1]];
    }
  }

  /** `e.findall('.//' + tag)`: the proper descendants of `e` with that tag, in
      document order. `e` itself is never among them. */
  function FindAll(e: Element, tag: string): seq<Element>
  {
    Tagged(Walk(e.children), tag)
  }

  /** `e.get(key)`: the attribute's value, if it is present. */
  function Attr(e: Element, key: string): Option<string>
  {
    if key in e.attrib then Some(e.attrib[key]) else None
  }

  /** A direct child that has the tag is always found, and so is every element
      `findall` finds below that child. */
  lemma {:induction false} FindAllChild(e: Element, c: Element, tag: string)
    requires c in e.children
    ensures forall d :: d in FindAll(c, tag) ==> d in FindAll(e, tag)
    ensures c.tag == tag ==> c in FindAll(e, tag)
  {
    WalkBelow(e.children, c);
    TaggedMembers(Walk(e.children), tag);
    TaggedMembers(Walk(c.children), tag);
  }

  /** The walk of a forest holds every tree's own walk. */
  lemma {:induction false} WalkBelow(forest: seq<Element>, c: Element)
    requires c in forest
    ensures c in Walk(forest)
    ensures forall d :: d in Walk(c.children) ==> d in Walk(forest)
    decreases forest
  {
    if forest[0] != c {
      assert c in forest[1..];
      WalkBelow(forest[1..], c);
    }
  }

  /** Walking a concatenation of forests walks each in turn. */
  lemma {:induction false} WalkConcat(a: seq<Element>, b: seq<Element>)
    ensures Walk(a + b) == Walk(a) + Walk(b)
    decreases a
  {
    if a != [] {
      assert (a + b)[0] == a[0];
      assert (a + b)[1..] == a[1..] + b;
      WalkConcat(a[1..], b);
    } else {
      assert a + b == b;
    }
  }

  /** Selecting by tag commutes with concatenation. */
  lemma {:induction false} TaggedConcat(a: seq<Element>, b: seq<Element>, tag: string)
    ensures Tagged(a + b, tag) == Tagged(a, tag) + Tagged(b, tag)
    decreases |b|
  {
    if b != [] {
      var b' := b[..|b| - 1];
      assert (a + b)[..|a + b| - 1] == a + b';
      TaggedConcat(a, b', tag);
    } else {
      assert a + b == a;
    }
  }

  /** The elements found below a chain `e > [m] > cs` of one wrapper element
      with leaf children are the leaves carrying the tag. */
  lemma FindAllThroughWrapper(e: Element, tag: string)
    requires |e.children| == 1 && e.children[0].tag != tag
    requires forall c :: c in e.children[0].children ==> c.children == [] && c.tag == tag
    ensures FindAll(e, tag) == e.children[0].children
  {
    var m := e.children[0];
    assert Walk(e.children) == [m] + Walk(m.children) + Walk([]);
    WalkLeaves(m.children);
    TaggedAll(m.children, tag);
    TaggedConcat([m], m.children, tag);
    assert Walk(e.children) == [m] + m.children;
  }

  lemma {:induction false} WalkLeaves(forest: seq<Element>)
    requires forall c :: c in forest ==> c.children == []
    ensures Walk(forest) == forest
    decreases forest
  {
    if forest != [] {
      assert forall c :: c in forest[1..] ==> c in forest;
      WalkLeaves(forest[1..]);
      assert Walk(forest[0].children) == [];
      assert forest == [forest[0]] + forest[1..];
    }
  }

  lemma {:induction false} TaggedAll(es: seq<Element>, tag: string)
    requires forall c :: c in es ==> c.tag == tag
    ensures Tagged(es, tag) == es
    decreases |es|
  {
    if es != [] {
      var front := es[..|es| - 1];
      assert forall c :: c in front ==> c in es;
      TaggedAll(front, tag);
      assert es[|es| - 1] in es;
      assert es == front + [es[|es| - 1]];
    }
  }

  /** The walk below an element whose only child holds leaves only. */
  lemma WrapperWalk(e: Element)
    requires |e.children| == 1
    requires forall c :: c in e.children[0].children ==> c.children == []
    ensures Walk(e.children) == [e.children[0]] + e.children[0].children
  {
    var m := e.children[0];
    assert e.children[1..] == [];
    WalkLeaves(m.children);
  }

  /** Nothing is selected from elements none of which has the tag. */
  lemma TaggedNone(es: seq<Element>, tag: string)
    requires forall e :: e in es ==> e.tag != tag
    ensures Tagged(es, tag) == []
  {
    TaggedMembers(es, tag);
    if Tagged(es, tag) != [] {
      assert Tagged(es, tag)[0] in Tagged(es, tag);
    }
  }

  /** Searching a forest whose trees all carry the tag, with no match further
      down, finds exactly those trees. */
  lemma {:induction false} TaggedTops(forest: seq<Element>, tag: string)
    requires forall i :: 0 <= i < |forest| ==> forest[i].tag == tag && Tagged(Walk(forest[i].children), tag) == []
    ensures Tagged(Walk(forest), tag) == forest
    decreases forest
  {
    if forest != [] {
      var a := forest[0];
      var rest := forest[1..];
      var below := Walk(a.children);
      assert forall i :: 0 <= i < |rest| ==> rest[i] == forest[i + 1];
      TaggedTops(rest, tag);
      assert Walk(forest) == ([a] + below) + Walk(rest);
      TaggedConcat([a] + below, Walk(rest), tag);
      TaggedConcat([a], below, tag);
      assert Tagged([a], tag) == [a] by {
        assert [a][..0] == [];
      }
      calc {
        Tagged(Walk(forest), tag);
        Tagged([a] + below, tag) + Tagged(Walk(rest), tag);
        [a] + [] + rest;
        { assert forest == [a] + rest; }
        forest;
      }
    }
  }

  /** `findall` below an element whose only child groups the matches, when no
      match holds another. */
  lemma FindAllGrouped(e: Element, tag: string)
    requires |e.children| == 1 && e.children[0].tag != tag
    requires forall i :: 0 <= i < |e.children[0].children| ==>
               e.children[0].children[i].tag == tag && FindAll(e.children[0].children[i], tag) == []
    ensures FindAll(e, tag) == e.children[0].children
  {
    var m := e.children[0];
    assert e.children[1..] == [];
    assert Walk(e.children) == [m] + Walk(m.children);
    TaggedTops(m.children, tag);
    TaggedConcat([m], Walk(m.children), tag);
    TaggedNone([m], tag);
  }
}
