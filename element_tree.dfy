/**
 * The parsed XML document as the tools see it through ElementTree: each element has
 * a tag, an optional text (`None` when the element has no character data before its
 * first child) and its child elements in document order.
 */
module ElementTree {
  import opened Wrappers
  import Seqs

  datatype Element = Element(tag: string, text: Option<string>, children: seq<Element>)

  /** `e.iter()`: every element of the subtree in pre-order, `e` itself first. */
  function Iter(e: Element): (r: seq<Element>)
    ensures |r| >= 1 && r[0] == e
    decreases e, 1
  {
    [e] + IterAll(e.children)
  }

  /** The pre-order walks of `es`, one after the other. */
  function IterAll(es: seq<Element>): seq<Element>
    decreases es, 0
  {
    if es == [] then [] else Iter(es[0]) + IterAll(es[1..])
  }

  /** An element is visited by the walks of `es` exactly when it is visited by the
      walk of one of them. */
  lemma {:induction false} IterAllSpec(es: seq<Element>, x: Element)
    ensures x in IterAll(es) <==> exists i | 0 <= i < |es| :: x in Iter(es[i])
    decreases es
  {
    if es != [] {
      IterAllSpec(es[1..], x);
      assert forall i | 1 <= i < |es| :: es[1..][i - 1] == es[i];
      if x in IterAll(es[1..]) {
        var i :| 0 <= i < |es[1..]| && x in Iter(es[1..][i]);
        assert x in Iter(es[i + 1]);
      }
    }
  }

  /** What `iter()` visits: the element itself and, below it, exactly what the walk of
      one of its children visits. */
  lemma IterSpec(e: Element, x: Element)
    ensures x in Iter(e) <==> x == e || exists i | 0 <= i < |e.children| :: x in Iter(e.children[i])
  {
    IterAllSpec(e.children, x);
  }

  /** Selects a child by its tag. */
  function HasTag(tag: string): Element -> bool {
    (c: Element) => c.tag == tag
  }

  /** `e.findall(tag)` for a plain tag name: the direct children with that tag,
      in document order. */
  function FindAll(e: Element, tag: string): seq<Element> {
    Seqs.Filter(e.children, HasTag(tag))
  }

  /** What `findall` promises: an in-order selection of the direct children holding
      each child with the tag exactly as often as it occurs, and nothing else. */
  lemma FindAllSpec(e: Element, tag: string)
    ensures Seqs.IsSubsequence(FindAll(e, tag), e.children)
    ensures forall c | c in FindAll(e, tag) :: c.tag == tag
    ensures forall c :: multiset(FindAll(e, tag))[c] ==
                        if c.tag == tag then multiset(e.children)[c] else 0
  {
    Seqs.FilterIsSubsequence(e.children, HasTag(tag));
    forall c ensures multiset(FindAll(e, tag))[c] ==
                     if c.tag == tag then multiset(e.children)[c] else 0 {
      Seqs.FilterCount(e.children, HasTag(tag), c);
    }
  }

  /** Position of the first element of `cs` with the tag, if any. */
  function FirstWithTag(cs: seq<Element>, tag: string): (r: Option<nat>)
    ensures r.None? <==> forall j | 0 <= j < |cs| :: cs[j].tag != tag
    ensures r.Some? ==> r.value < |cs| && cs[r.value].tag == tag &&
                        forall j | 0 <= j < r.value :: cs[j].tag != tag
  {
    if cs == [] then None
    else if cs[0].tag == tag then Some(0)
    else match FirstWithTag(cs[1..], tag)
      case None => None
      case Some(i) => Some(i + 1)
  }

  /** `e.find(tag)` for a plain tag name: the first direct child with that tag, or
      `None` when there is none. */
  function Find(e: Element, tag: string): (r: Option<Element>)
    ensures r.None? <==> forall j | 0 <= j < |e.children| :: e.children[j].tag != tag
    ensures forall i | 0 <= i < |e.children| && e.children[i].tag == tag &&
                       (forall j | 0 <= j < i :: e.children[j].tag != tag) ::
              r == Some(e.children[i])
  {
    match FirstWithTag(e.children, tag)
    case None => None
    case Some(i) => Some(e.children[i])
  }
}
