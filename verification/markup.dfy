/** The rendered results page, reduced to what the extractor reads from it.
    HTML parsing and CSS selector matching are not modelled: a listing block
    carries, per selector, the text of the first matching sub-element or
    `None` when the selector matches nothing. */
module Markup {
  import opened Wrappers

  /** An element of the rendered document: its tag name and its child
      elements in document order. */
  datatype Element = Element(tag: string, children: seq<Element>)

  /** One `.result-intro__details` block. */
  datatype Listing = Listing(
    title: Option<string>,        // text of `.result-intro__title`
    subtitle: Option<string>,     // text of `.result-intro__subtitle`
    hours: Option<string>,        // text of `.daily-hours`
    address: Option<string>,      // text of `.result-intro__address`
    starRating: Option<Element>,  // the `.star-rating` container
    ratingNote: Option<string>    // text of `.result-intro__rating__note`
  )

  /** A rendered results page: its listing blocks in document order. */
  datatype Page = Page(listings: seq<Listing>)

  /** `find_all(name)` on an element: every descendant (the element itself
      excluded) whose tag is `name`, in document (pre-)order. */
  function FindAll(name: string, e: Element): (found: seq<Element>)
    ensures found == WithTag(name, Descendants(e.children))
    ensures forall i :: 0 <= i < |found| ==> found[i].tag == name
  {
    FindAllIsDescendantsWithTag(name, e.children);
    FindAllIn(name, e.children)
  }

  /** The matches inside a forest of sibling elements and their subtrees. */
  function FindAllIn(name: string, nodes: seq<Element>): seq<Element>
    decreases nodes
  {
    if nodes == [] then []
    else
      assert nodes[0] in nodes;
      (if nodes[0].tag == name then [nodes[0]] else [])
        + FindAllIn(name, nodes[0].children)
        + FindAllIn(name, nodes[1..])
  }

  /** Reference listing of a forest: every element, each before its own
      subtree, subtrees in sibling order. */
  function Descendants(nodes: seq<Element>): seq<Element>
    decreases nodes
  {
    if nodes == [] then []
    else
      assert nodes[0] in nodes;
      [nodes[0]] + Descendants(nodes[0].children) + Descendants(nodes[1..])
  }

  /** The elements of `xs` with tag `name`, order kept. */
  function WithTag(name: string, xs: seq<Element>): (ys: seq<Element>)
    ensures |ys| <= |xs|
    ensures forall i :: 0 <= i < |ys| ==> ys[i].tag == name
  {
    if xs == [] then []
    else (if xs[0].tag == name then [xs[0]] else []) + WithTag(name, xs[1..])
  }

  lemma {:induction false} WithTagAppend(name: string, a: seq<Element>, b: seq<Element>)
    ensures WithTag(name, a + b) == WithTag(name, a) + WithTag(name, b)
    decreases |a|
  {
    if a == [] {
      assert a + b == b;
    } else {
      var ab := a + b;
      assert ab[0] == a[0];
      assert ab[1..] == a[1..] + b;
      WithTagAppend(name, a[1..], b);
      var head := if a[0].tag == name then [a[0]] else [];
      assert WithTag(name, ab) == head + WithTag(name, a[1..] + b);
      assert WithTag(name, a) == head + WithTag(name, a[1..]);
    }
  }

  /** The search is recursive: it finds exactly the matching elements among
      all descendants, not only among the direct children. */
  lemma {:induction false} FindAllIsDescendantsWithTag(name: string, nodes: seq<Element>)
    ensures FindAllIn(name, nodes) == WithTag(name, Descendants(nodes))
    decreases nodes
  {
    if nodes != [] {
      var first := nodes[0];
      assert first in nodes;
      var inner := Descendants(first.children);
      var later := Descendants(nodes[1..]);
      var head := if first.tag == name then [first] else [];
      FindAllIsDescendantsWithTag(name, first.children);
      FindAllIsDescendantsWithTag(name, nodes[1..]);
      assert Descendants(nodes) == [first] + inner + later;
      WithTagAppend(name, [first] + inner, later);
      WithTagAppend(name, [first], inner);
      assert WithTag(name, [first]) == head by {
        assert [first][1..] == [];
      }
      assert FindAllIn(name, nodes) == head + FindAllIn(name, first.children) + FindAllIn(name, nodes[1..]);
    }
  }

  /** Every matching direct child is counted, so the count is never below the
      number of matching children. */
  lemma {:induction false} ChildrenAreCounted(name: string, nodes: seq<Element>)
    ensures |WithTag(name, nodes)| <= |FindAllIn(name, nodes)|
    decreases nodes
  {
    if nodes != [] {
      ChildrenAreCounted(name, nodes[1..]);
    }
  }
}
