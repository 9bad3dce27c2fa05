/**
 * An abstract lxml element tree and the subset of ElementPath / XPath that
 * the flatteners use. Names are matched by namespace URI and local name;
 * the `{*}` wildcard of a path step matches a local name in any namespace.
 */
module Tree {
  import opened Wrappers
  import Text

  datatype Element = Element(
    ns: string,                  // namespace URI; "" for an element without one
    tag: string,                 // local name
    attrs: map<string, string>,
    text: Option<string>,        // text before the first child
    children: seq<Element>,
    tail: Option<string>,        // text after the closing tag, up to the next sibling
    defaultNs: Option<string>    // nsmap[None]: the default namespace in scope
  )

  /** How a path step tests the namespace: `{*}name` or `prefix:name`. */
  datatype NsTest = AnyNs | InNs(uri: string)

  /** One path step: a name test and an optional `[@key='value']` predicate. */
  datatype Step = Step(ns: NsTest, local: string, attr: Option<(string, string)>)

  predicate Matches(e: Element, s: Step) {
    && e.tag == s.local
    && (s.ns.InNs? ==> e.ns == s.ns.uri)
    && (s.attr.Some? ==> s.attr.value.0 in e.attrs && e.attrs[s.attr.value.0] == s.attr.value.1)
  }

  /** element.get(key, default). */
  function Get(e: Element, key: string, default: string): string {
    if key in e.attrs then e.attrs[key] else default
  }

  /** The text of an optional text node, "" when there is none (Python's `t or ''`). */
  function TextOr(t: Option<string>): string {
    if t.Some? then t.value else ""
  }

  /** `t.strip() if t else ""` for an optional text node. */
  function StrippedText(t: Option<string>): string {
    if t.Some? then Text.Strip(t.value) else ""
  }

  /** `node.get(key, '') if node is not None else ''`. */
  function AttrOf(n: Option<Element>, key: string): string {
    if n.Some? then Get(n.value, key, "") else ""
  }

  /** Every element below e, in document order (e.iter() without e itself). */
  function Descendants(e: Element): seq<Element>
    decreases e, 1
  {
    DescendantsOf(e.children)
  }

  function DescendantsOf(cs: seq<Element>): seq<Element>
    decreases cs, 0
  {
    if cs == [] then [] else [cs[0]] + Descendants(cs[0]) + DescendantsOf(cs[1..])
  }

  /** The elements of s that a step selects, in their order. */
  function Select(s: seq<Element>, step: Step): seq<Element> {
    if s == [] then []
    else (if Matches(s[0], step) then [s[0]] else []) + Select(s[1..], step)
  }

  /** Select keeps exactly the elements that match, and no more than there were. */
  lemma {:induction false} SelectMembers(s: seq<Element>, step: Step)
    ensures forall x :: x in Select(s, step) <==> x in s && Matches(x, step)
    ensures |Select(s, step)| <= |s|
  {
    if s != [] {
      SelectMembers(s[1..], step);
      assert s == [s[0]] + s[1..];
    }
  }

  /** Selecting from a sequence with a known first element. */
  lemma SelectCons(x: Element, s: seq<Element>, step: Step)
    ensures Select([x] + s, step) == (if Matches(x, step) then [x] else []) + Select(s, step)
  {
    assert ([x] + s)[1..] == s;
  }

  /** When nothing matches, nothing is selected. */
  lemma SelectNone(s: seq<Element>, step: Step)
    requires forall x :: x in s ==> !Matches(x, step)
    ensures Select(s, step) == []
  {
    SelectMembers(s, step);
  }

  function FirstOf(s: seq<Element>): Option<Element> {
    if s == [] then None else Some(s[0])
  }

  /** e.find('{ns}name'): the first matching child. */
  function FindChild(e: Element, step: Step): Option<Element> {
    FirstOf(Select(e.children, step))
  }

  /** `e.find('{ns}name')` on an optional element, None when there is no element. */
  function FindChildOf(e: Option<Element>, step: Step): Option<Element> {
    if e.Some? then FindChild(e.value, step) else None
  }

  /** e.find('.//{ns}name'): the first matching descendant in document order. */
  function FindDescendant(e: Element, step: Step): Option<Element> {
    FirstOf(Select(Descendants(e), step))
  }

  /** The matching children of each parent, parent by parent. */
  function ChildrenOfAll(parents: seq<Element>, step: Step): seq<Element> {
    if parents == [] then [] else Select(parents[0].children, step) + ChildrenOfAll(parents[1..], step)
  }

  /** e.find('.//{ns}parent/{ns}child'): the parents are visited in document
      order and the first matching child of the first parent that has one wins. */
  function FindChildOfDescendant(e: Element, parent: Step, child: Step): Option<Element> {
    FirstOf(ChildrenOfAll(Select(Descendants(e), parent), child))
  }

  /** ''.join(e.itertext()): the text of e and of all its descendants, with the
      tails of the descendants, in document order (e's own tail excluded). */
  function InnerText(e: Element): string
    decreases e, 1
  {
    TextOr(e.text) + InnerTextOf(e.children)
  }

  function InnerTextOf(cs: seq<Element>): string
    decreases cs, 0
  {
    if cs == [] then "" else InnerText(cs[0]) + TextOr(cs[0].tail) + InnerTextOf(cs[1..])
  }

  /** e.xpath('text()'): the non-empty text nodes directly inside e. */
  function DirectTexts(e: Element): seq<string> {
    (if TextOr(e.text) != "" then [e.text.value] else []) + TailsOf(e.children)
  }

  function TailsOf(cs: seq<Element>): seq<string> {
    if cs == [] then []
    else (if TextOr(cs[0].tail) != "" then [cs[0].tail.value] else []) + TailsOf(cs[1..])
  }

  /** element.clear(): children, attributes, text and tail are all dropped.
      Afterwards no lookup finds anything below the element, every attribute
      read falls back to its default, and the element adds no text to its own
      or to its parent's itertext(); only its name is left, so it still
      matches every attribute-free path step it matched before. */
  function Clear(e: Element): (r: Element)
    ensures Descendants(r) == [] && InnerText(r) == "" && DirectTexts(r) == [] && TextOr(r.tail) == ""
    ensures forall key: string, default: string :: Get(r, key, default) == default
    ensures forall s: Step :: s.attr.None? ==> (Matches(r, s) <==> Matches(e, s))
  {
    e.(attrs := map[], text := None, children := [], tail := None)
  }

  /** Every element of a child list is among the descendants of the list. */
  lemma {:induction false} ListedAreDescendants(cs: seq<Element>, c: Element)
    requires c in cs
    ensures c in DescendantsOf(cs)
    decreases cs
  {
    if c != cs[0] {
      ListedAreDescendants(cs[1..], c);
    }
  }

  /** A child of a descendant is itself a descendant. */
  lemma {:induction false} ChildOfDescendant(e: Element, d: Element, c: Element)
    requires d in Descendants(e) && c in d.children
    ensures c in Descendants(e)
    decreases e, 1
  {
    ChildOfDescendantOf(e.children, d, c);
  }

  lemma {:induction false} ChildOfDescendantOf(cs: seq<Element>, d: Element, c: Element)
    requires d in DescendantsOf(cs) && c in d.children
    ensures c in DescendantsOf(cs)
    decreases cs, 0
  {
    var rest := DescendantsOf(cs[1..]);
    if d == cs[0] {
      ListedAreDescendants(d.children, c);
    } else if d in Descendants(cs[0]) {
      ChildOfDescendant(cs[0], d, c);
    } else {
      assert d in rest;
      ChildOfDescendantOf(cs[1..], d, c);
    }
  }

  /** Everything ChildrenOfAll collects is a matching child of one of the parents. */
  lemma {:induction false} ChildrenOfAllFrom(parents: seq<Element>, step: Step, c: Element)
    requires c in ChildrenOfAll(parents, step)
    ensures Matches(c, step) && exists p :: p in parents && c in p.children
  {
    SelectMembers(parents[0].children, step);
    if c !in Select(parents[0].children, step) {
      ChildrenOfAllFrom(parents[1..], step, c);
    }
  }

  /** `.//{ns}parent/{ns}child` can only find what `.//{ns}child` already finds:
      when the direct search fails, so does the nested one. */
  lemma NestedFindNeedsDirect(e: Element, parent: Step, child: Step)
    requires FindDescendant(e, child).None?
    ensures FindChildOfDescendant(e, parent, child).None?
  {
    var cands := ChildrenOfAll(Select(Descendants(e), parent), child);
    if cands != [] {
      var c := cands[0];
      ChildrenOfAllFrom(Select(Descendants(e), parent), child, c);
      var p :| p in Select(Descendants(e), parent) && c in p.children;
      SelectMembers(Descendants(e), parent);
      ChildOfDescendant(e, p, c);
      SelectMembers(Descendants(e), child);
      assert false;
    }
  }
}
