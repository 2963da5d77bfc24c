/** The parsed input document as ElementTree presents it to the converter:
    an element has a tag, a map from attribute names to values, and an
    ordered sequence of child elements. Parsing itself is not modelled. */
module FormTree {

  datatype Option<T> = None | Some(value: T)

  datatype Element = Element(tag: string, attrib: map<string, string>, children: seq<Element>)

  /** `e.attrib.get(key)`: the attribute's value, or None when it is absent. */
  function Attr(e: Element, key: string): Option<string>
  {
    if key in e.attrib then Some(e.attrib[key]) else None
  }

  /** Pre-order walk of a forest: each tree's root, then its own subtree,
      then the trees after it. This is the document order of ElementTree. */
  function Walk(forest: seq<Element>): seq<Element>
  {
    if forest == [] then [] else [forest[0]] + Walk(forest[0].children) + Walk(forest[1..])
  }

  /** Every element strictly below `e`, in document order (`e.iter()` without `e`). */
  function Descendants(e: Element): seq<Element>
  {
    Walk(e.children)
  }

  /** The elements of `s` whose tag is `tag`, in their order in `s`. */
  function TagFilter(s: seq<Element>, tag: string): (r: seq<Element>)
    ensures |r| <= |s|
    ensures forall x :: x in r <==> x in s && x.tag == tag
  {
    if s == [] then []
    else if s[0].tag == tag then [s[0]] + TagFilter(s[1..], tag)
    else TagFilter(s[1..], tag)
  }

  /** Filtering keeps order and repeats: filtering a concatenation filters
      each part in turn, and a single element is kept exactly when it has
      the tag. */
  lemma {:induction false} TagFilterAppend(a: seq<Element>, b: seq<Element>, tag: string)
    ensures TagFilter(a + b, tag) == TagFilter(a, tag) + TagFilter(b, tag)
    ensures |a| == 1 ==> TagFilter(a, tag) == if a[0].tag == tag then a else []
  {
    if a == [] {
      assert a + b == b;
    } else {
      assert (a + b)[0] == a[0];
      assert (a + b)[1..] == a[1..] + b;
      TagFilterAppend(a[1..], b, tag);
      if |a| == 1 {
        assert a[1..] == [];
      }
    }
  }

  /** `e.findall(".//" + tag)`: descendants of `e` with the tag, in document order. */
  function FindAll(e: Element, tag: string): seq<Element>
  {
    TagFilter(Descendants(e), tag)
  }

  /** `e.findall(tag)`: the direct children of `e` with the tag, in child order. */
  function ChildrenTagged(e: Element, tag: string): seq<Element>
  {
    TagFilter(e.children, tag)
  }

  /** Walking a concatenation of forests walks each in turn. */
  lemma {:induction false} WalkAppend(a: seq<Element>, b: seq<Element>)
    ensures Walk(a + b) == Walk(a) + Walk(b)
  {
    if a == [] {
      assert a + b == b;
    } else {
      assert (a + b)[0] == a[0];
      assert (a + b)[1..] == a[1..] + b;
      WalkAppend(a[1..], b);
    }
  }

  /** An element found in a walk brings its whole subtree into the walk,
      and that subtree is no larger than the walk. */
  lemma {:induction false} WalkContainsSubtree(forest: seq<Element>, g: Element)
    requires g in Walk(forest)
    ensures |Walk([g])| <= |Walk(forest)|
    ensures forall d :: d in Descendants(g) ==> d in Walk(forest)
  {
    var f0 := forest[0];
    assert Walk(forest) == [f0] + Walk(f0.children) + Walk(forest[1..]);
    WalkAppend([g], []);
    assert [g][1..] == [];
    assert Walk([g]) == [g] + Descendants(g);
    if g == f0 {
    } else if g in Walk(f0.children) {
      WalkContainsSubtree(f0.children, g);
    } else {
      WalkContainsSubtree(forest[1..], g);
    }
  }

  /** `findall(".//tag")` never returns the element it starts from, even when
      that element has the tag itself. */
  lemma DescendantsExcludeSelf(e: Element)
    ensures e !in Descendants(e)
    ensures e !in FindAll(e, e.tag)
  {
    assert [e][1..] == [];
    assert Walk([e]) == [e] + Descendants(e);
    if e in Descendants(e) {
      WalkContainsSubtree(e.children, e);
      assert false;
    }
  }

  /** A search started at a descendant `g` of `root` finds only elements that
      the same search started at `root` finds too. */
  lemma FindAllWithin(root: Element, g: Element, tag: string)
    requires g in Descendants(root)
    ensures forall d :: d in FindAll(g, tag) ==> d in FindAll(root, tag)
  {
    WalkContainsSubtree(root.children, g);
  }
}
