/**
 * The Dublin Core extension of the feed generator in
 * weko_records/serializers/dc.py: an object holding one list of values per
 * element of the Dublin Core 1.1 element set (and the languages of the
 * publishers), a setter for the publishers, and the rendering of the stored
 * values as child elements of a feed or entry element.
 */
module DcExtension {
  import opened Wrappers

  /** The fifteen elements of the Dublin Core Metadata Element Set, version 1.1. */
  datatype DcElement =
    | Contributor | Coverage | Creator | Date | Description | Language | Publisher | Relation
    | Rights | Source | Subject | Title | Type | Format | Identifier

  /** The order in which `_extend_xml` emits the elements. */
  const ElementOrder: seq<DcElement> := [
    Contributor, Coverage, Creator, Date, Description, Language, Publisher, Relation,
    Rights, Source, Subject, Title, Type, Format, Identifier
  ]

  /** The position of an element in `ElementOrder`. */
  function Rank(e: DcElement): nat
  {
    match e
    case Contributor => 0 case Coverage => 1 case Creator => 2 case Date => 3
    case Description => 4 case Language => 5 case Publisher => 6 case Relation => 7
    case Rights => 8 case Source => 9 case Subject => 10 case Title => 11
    case Type => 12 case Format => 13 case Identifier => 14
  }

  /** A child node appended by the extension: its element, its text and its `xml:lang` attribute. */
  datatype Node = Node(elem: DcElement, text: string, lang: Option<string>)

  /** An etree element: its children, and the child elements of a feed root (the header first). */
  class XmlElement {
    var children: seq<Node>
    var elements: seq<XmlElement>

    constructor (elements: seq<XmlElement>)
      ensures this.children == [] && this.elements == elements
    {
      this.children := [];
      this.elements := elements;
    }
  }

  /** A `publisher` or `lang` argument: not given (None), one value, or a list of values. */
  datatype Arg = NoArg | One(value: string) | Many(values: seq<string>)

  /** A non-list argument is wrapped into a one-element list. */
  function AsList(arg: Arg): seq<string>
    requires !arg.NoArg?
  {
    if arg.One? then [arg.value] else arg.values
  }

  /**
   * The list a setter leaves: the new values alone when asked to replace or
   * when nothing (None or an empty list) was stored, else appended to the old.
   */
  function Accumulate(current: Option<seq<string>>, added: seq<string>, replace: bool): (r: seq<string>)
    ensures replace || current.None? || |current.value| == 0 ==> r == added
    ensures current.Some? && |current.value| > 0 && !replace ==>
              |r| == |current.value| + |added| && r[..|current.value|] == current.value && r[|current.value|..] == added
  {
    if replace || current.None? || |current.value| == 0 then added else current.value + added
  }

  /** Two appending calls store what one appending call with both lists stores. */
  lemma AccumulateTwice(current: Option<seq<string>>, a: seq<string>, b: seq<string>)
    ensures Accumulate(Some(Accumulate(current, a, false)), b, false) == Accumulate(current, a + b, false)
  {
    if current.Some? && |current.value| > 0 {
      assert current.value + a + b == current.value + (a + b);
    } else if |a| == 0 {
      assert a + b == b;
    }
  }

  /** The nodes `_extend_xml` emits for one element: one per value, in order; only publishers get a language. */
  function NodesFor(e: DcElement, values: seq<string>, langs: seq<string>): (ns: seq<Node>)
    ensures |ns| == |values|
    ensures forall i :: 0 <= i < |ns| ==> ns[i].elem == e && ns[i].text == values[i]
    ensures forall i :: 0 <= i < |ns| ==>
      ns[i].lang == if e == Publisher && i < |langs| then Some(langs[i]) else None
  {
    seq(|values|, i requires 0 <= i < |values| =>
      Node(e, values[i], if e == Publisher && i < |langs| then Some(langs[i]) else None))
  }

  /** `values or []`. */
  function ValuesOr(stored: map<DcElement, seq<string>>, e: DcElement): seq<string>
  {
    if e in stored then stored[e] else []
  }

  /** The nodes for the elements of `order`, one element after the other. */
  function Render(stored: map<DcElement, seq<string>>, langs: seq<string>, order: seq<DcElement>): seq<Node>
  {
    if |order| == 0 then []
    else NodesFor(order[0], ValuesOr(stored, order[0]), langs) + Render(stored, langs, order[1..])
  }

  /** The nodes of one element, in the order they were emitted. */
  function Select(nodes: seq<Node>, e: DcElement): (sel: seq<Node>)
  {
    if |nodes| == 0 then []
    else (if nodes[0].elem == e then [nodes[0]] else []) + Select(nodes[1..], e)
  }

  lemma {:induction false} SelectAppend(a: seq<Node>, b: seq<Node>, e: DcElement)
    ensures Select(a + b, e) == Select(a, e) + Select(b, e)
  {
    if |a| > 0 {
      assert (a + b)[1..] == a[1..] + b;
      SelectAppend(a[1..], b, e);
    } else {
      assert a + b == b;
    }
  }

  lemma {:induction false} SelectAll(nodes: seq<Node>, e: DcElement)
    requires forall i :: 0 <= i < |nodes| ==> nodes[i].elem == e
    ensures Select(nodes, e) == nodes
  {
    if |nodes| > 0 {
      SelectAll(nodes[1..], e);
    }
  }

  lemma {:induction false} SelectNone(nodes: seq<Node>, e: DcElement)
    requires forall i :: 0 <= i < |nodes| ==> nodes[i].elem != e
    ensures Select(nodes, e) == []
  {
    if |nodes| > 0 {
      SelectNone(nodes[1..], e);
    }
  }

  /** No element occurs twice. */
  predicate Distinct(order: seq<DcElement>)
  {
    forall i, j :: 0 <= i < j < |order| ==> order[i] != order[j]
  }

  lemma DistinctTail(order: seq<DcElement>)
    requires |order| > 0 && Distinct(order)
    ensures Distinct(order[1..]) && order[0] !in order[1..]
  {
    forall i | 0 <= i < |order[1..]| ensures order[1..][i] != order[0] {
      assert order[1..][i] == order[i + 1];
    }
  }

  /**
   * In the rendering over distinct elements, the nodes of element `e` are
   * exactly one per stored value, in list order, carrying the value as text
   * and, for publishers, the language at the same position when one exists.
   */
  lemma {:induction false} RenderSelect(stored: map<DcElement, seq<string>>, langs: seq<string>, order: seq<DcElement>, e: DcElement)
    requires Distinct(order)
    ensures Select(Render(stored, langs, order), e) ==
      if e in order then NodesFor(e, ValuesOr(stored, e), langs) else []
  {
    if e !in order {
      RenderSelectAbsent(stored, langs, order, e);
    } else if order[0] == e {
      DistinctTail(order);
      RenderSelectAbsent(stored, langs, order[1..], e);
      RenderSelectStep(stored, langs, order, e);
    } else {
      DistinctTail(order);
      assert e in order[1..];
      RenderSelect(stored, langs, order[1..], e);
      RenderSelectStep(stored, langs, order, e);
    }
  }

  /** Selecting from the rendering, one element of the order at a time. */
  lemma RenderSelectStep(stored: map<DcElement, seq<string>>, langs: seq<string>, order: seq<DcElement>, e: DcElement)
    requires |order| > 0
    ensures Select(Render(stored, langs, order), e) ==
      (if order[0] == e then NodesFor(e, ValuesOr(stored, e), langs) else []) + Select(Render(stored, langs, order[1..]), e)
  {
    var head := NodesFor(order[0], ValuesOr(stored, order[0]), langs);
    SelectAppend(head, Render(stored, langs, order[1..]), e);
    if order[0] == e {
      SelectAll(head, e);
    } else {
      SelectNone(head, e);
    }
  }

  /** An element outside the order has no node in the rendering. */
  lemma {:induction false} RenderSelectAbsent(stored: map<DcElement, seq<string>>, langs: seq<string>, order: seq<DcElement>, e: DcElement)
    requires e !in order
    ensures Select(Render(stored, langs, order), e) == []
  {
    if |order| > 0 {
      assert e !in order[1..];
      RenderSelectAbsent(stored, langs, order[1..], e);
      RenderSelectStep(stored, langs, order, e);
    }
  }

  /** Every node of the rendering belongs to an element of the order. */
  lemma {:induction false} RenderElems(stored: map<DcElement, seq<string>>, langs: seq<string>, order: seq<DcElement>)
    ensures forall n :: n in Render(stored, langs, order) ==> n.elem in order
  {
    if |order| > 0 {
      var head := NodesFor(order[0], ValuesOr(stored, order[0]), langs);
      var tail := Render(stored, langs, order[1..]);
      RenderElems(stored, langs, order[1..]);
      assert Render(stored, langs, order) == head + tail;
      forall n | n in tail ensures n.elem in order {
        var k :| 0 <= k < |order[1..]| && order[1..][k] == n.elem;
        assert order[k + 1] == n.elem;
      }
    }
  }

  /** Nodes whose elements never go down in rank. */
  predicate RankSorted(nodes: seq<Node>)
  {
    forall i, j :: 0 <= i < j < |nodes| ==> Rank(nodes[i].elem) <= Rank(nodes[j].elem)
  }

  /** Elements in strictly increasing rank. */
  predicate StrictlyRanked(order: seq<DcElement>)
  {
    forall i, j :: 0 <= i < j < |order| ==> Rank(order[i]) < Rank(order[j])
  }

  lemma SortedAppend(a: seq<Node>, b: seq<Node>)
    requires RankSorted(a) && RankSorted(b)
    requires forall x, y :: x in a && y in b ==> Rank(x.elem) <= Rank(y.elem)
    ensures RankSorted(a + b)
  {
    var r := a + b;
    forall i, j | 0 <= i < j < |r| ensures Rank(r[i].elem) <= Rank(r[j].elem) {
      if j < |a| {
        assert r[i] == a[i] && r[j] == a[j];
      } else if i < |a| {
        assert r[i] == a[i] && r[i] in a;
        assert r[j] == b[j - |a|] && r[j] in b;
      } else {
        assert r[i] == b[i - |a|] && r[j] == b[j - |a|];
      }
    }
  }

  /** The rendering over an order of increasing rank emits the elements in that rank order. */
  lemma {:induction false} RenderOrdered(stored: map<DcElement, seq<string>>, langs: seq<string>, order: seq<DcElement>)
    requires StrictlyRanked(order)
    ensures RankSorted(Render(stored, langs, order))
  {
    if |order| > 0 {
      var head := NodesFor(order[0], ValuesOr(stored, order[0]), langs);
      var tail := Render(stored, langs, order[1..]);
      assert StrictlyRanked(order[1..]) by {
        forall i, j | 0 <= i < j < |order[1..]| ensures Rank(order[1..][i]) < Rank(order[1..][j]) {
          assert order[1..][i] == order[i + 1] && order[1..][j] == order[j + 1];
        }
      }
      RenderOrdered(stored, langs, order[1..]);
      RenderElems(stored, langs, order[1..]);
      forall n | n in tail ensures Rank(order[0]) < Rank(n.elem) {
        var k :| 0 <= k < |order[1..]| && order[1..][k] == n.elem;
        assert order[k + 1] == n.elem;
      }
      assert forall x :: x in head ==> x.elem == order[0];
      SortedAppend(head, tail);
    }
  }

  /** `ElementOrder` lists the fifteen elements once each, in increasing rank. */
  lemma ElementOrderRanked()
    ensures StrictlyRanked(ElementOrder)
    ensures Distinct(ElementOrder)
    ensures forall e :: e in ElementOrder
  {
    forall i | 0 <= i < |ElementOrder| ensures Rank(ElementOrder[i]) == i {
    }
    forall e ensures e in ElementOrder {
      assert Rank(e) < |ElementOrder| && ElementOrder[Rank(e)] == e;
    }
  }

  /** The inner loop of `_extend_xml`: one `SubElement` per value of one element. */
  method AppendNodes(elem: XmlElement, e: DcElement, values: seq<string>, langs: seq<string>)
    modifies elem
    ensures elem.children == old(elem.children) + NodesFor(e, values, langs)
    ensures elem.elements == old(elem.elements)
  {
    ghost var nodes := NodesFor(e, values, langs);
    for i := 0 to |values|
      invariant elem.children == old(elem.children) + nodes[..i]
      invariant elem.elements == old(elem.elements)
    {
      var node := Node(e, values[i], None);
      if e == Publisher && i < |langs| {
        node := Node(e, values[i], Some(langs[i]));
      }
      assert nodes[..i + 1] == nodes[..i] + [node];
      elem.children := elem.children + [node];
    }
    assert nodes[..|values|] == nodes;
  }

  method ExtendOrder(elem: XmlElement, stored: map<DcElement, seq<string>>, langs: seq<string>, order: seq<DcElement>)
    modifies elem
    ensures elem.children == old(elem.children) + Render(stored, langs, order)
    ensures elem.elements == old(elem.elements)
  {
    for k := 0 to |order|
      invariant elem.children + Render(stored, langs, order[k..]) == old(elem.children) + Render(stored, langs, order)
      invariant elem.elements == old(elem.elements)
    {
      var e := order[k];
      var values := ValuesOr(stored, e);
      ghost var before := elem.children;
      ghost var nodes := NodesFor(e, values, langs);
      ghost var rest := Render(stored, langs, order[k + 1..]);
      assert order[k..][1..] == order[k + 1..];
      assert Render(stored, langs, order[k..]) == nodes + rest;
      AppendNodes(elem, e, values, langs);
      assert elem.children + rest == before + (nodes + rest);
    }
    assert order[|order|..] == [];
  }

  /** `DcWekoBaseExtension` and `DcWekoEntryExtension` (one class: the entry class only adds methods). */
  class DcWekoExtension {
    /** The stored value list of each element; an element with no entry holds None. */
    var stored: map<DcElement, seq<string>>
    /** `_dcelem_publisher_lang`. */
    var publisherLang: Option<seq<string>>

    /** `__init__`: every list starts as None. */
    constructor ()
      ensures stored == map[] && publisherLang == None
    {
      stored := map[];
      publisherLang := None;
    }

    /** The children `_extend_xml` appends for the stored values. */
    function Rendered(): seq<Node>
      reads this
    {
      Render(stored, if publisherLang.Some? then publisherLang.value else [], ElementOrder)
    }

    /**
     * `dc_publisher`: a given argument is wrapped into a list if needed and
     * appended to, or replaces, the stored list; publishers and languages are
     * set independently; the stored publishers (None if never set) are returned.
     */
    method DcPublisher(publisher: Arg, lang: Arg, replace: bool) returns (r: Option<seq<string>>)
      modifies this
      ensures stored == if publisher.NoArg? then old(stored)
                        else old(stored)[Publisher := Accumulate(
                          if Publisher in old(stored) then Some(old(stored)[Publisher]) else None,
                          AsList(publisher), replace)]
      ensures publisherLang == if lang.NoArg? then old(publisherLang)
                               else Some(Accumulate(old(publisherLang), AsList(lang), replace))
      ensures r == if Publisher in stored then Some(stored[Publisher]) else None
    {
      if !publisher.NoArg? {
        var added := AsList(publisher);
        var current := if Publisher in stored then Some(stored[Publisher]) else None;
        if replace || current.None? || |current.value| == 0 {
          stored := stored[Publisher := []];
        }
        stored := stored[Publisher := stored[Publisher] + added];
        assert stored[Publisher] == Accumulate(current, added, replace);
      }
      if !lang.NoArg? {
        var added := AsList(lang);
        var current := publisherLang;
        if replace || current.None? || |current.value| == 0 {
          publisherLang := Some([]);
        }
        publisherLang := Some(publisherLang.value + added);
        assert publisherLang.value == Accumulate(current, added, replace);
      }
      r := if Publisher in stored then Some(stored[Publisher]) else None;
    }

    /**
     * `_extend_xml`: for each element in the fixed order, one child per
     * stored value, the `i`-th publisher with the `i`-th language if any.
     */
    method ExtendXml(elem: XmlElement)
      modifies elem
      ensures elem.children == old(elem.children) + Rendered()
      ensures elem.elements == old(elem.elements)
    {
      var langs := if publisherLang.Some? then publisherLang.value else [];
      ExtendOrder(elem, stored, langs, ElementOrder);
    }

    /** The base `extend_jpcoar`: the stored values go under the feed's first child element. */
    method ExtendJpcoarFeed(feed: XmlElement) returns (r: Result<XmlElement, PyError>)
      modifies if |feed.elements| > 0 then {feed.elements[0]} else {}
      ensures |old(feed.elements)| == 0 ==> r == Err(IndexError)
      ensures feed.elements == old(feed.elements)
      ensures |feed.elements| > 0 ==>
                (r == Ok(feed) && feed.elements[0].children == old(feed.elements[0].children) + Rendered())
      ensures |feed.elements| > 0 ==> feed.elements[0].elements == old(feed.elements[0].elements)
    {
      if |feed.elements| == 0 {
        return Err(IndexError);
      }
      var header := feed.elements[0];
      ExtendXml(header);
      r := Ok(feed);
    }

    /** The entry's `extend_atom`: alters the entry and returns it. */
    method ExtendAtom(entry: XmlElement) returns (r: XmlElement)
      modifies entry
      ensures r == entry && entry.children == old(entry.children) + Rendered()
      ensures entry.elements == old(entry.elements)
    {
      ExtendXml(entry);
      r := entry;
    }

    /** The entry's `extend_rss`: alters the item and returns it. */
    method ExtendRss(item: XmlElement) returns (r: XmlElement)
      modifies item
      ensures r == item && item.children == old(item.children) + Rendered()
      ensures item.elements == old(item.elements)
    {
      ExtendXml(item);
      r := item;
    }

    /** The entry's `extend_jpcoar`: alters the item itself, not a header, and returns it. */
    method ExtendJpcoarEntry(item: XmlElement) returns (r: XmlElement)
      modifies item
      ensures r == item && item.children == old(item.children) + Rendered()
      ensures item.elements == old(item.elements)
    {
      ExtendXml(item);
      r := item;
    }
  }

  /**
   * What the rendering holds, element by element: the nodes of `e` are its
   * stored values in order, a publisher carrying the language at its position
   * when there is one and no other element carrying a language; and the
   * elements come in the fixed order.
   */
  lemma RenderedNodes(stored: map<DcElement, seq<string>>, langs: seq<string>, e: DcElement)
    ensures Select(Render(stored, langs, ElementOrder), e) == NodesFor(e, ValuesOr(stored, e), langs)
    ensures RankSorted(Render(stored, langs, ElementOrder))
  {
    ElementOrderRanked();
    RenderSelect(stored, langs, ElementOrder, e);
    RenderOrdered(stored, langs, ElementOrder);
  }
}
