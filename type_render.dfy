/** The type cell of a record field: a structural rendering of the field's
    type into nested spans, with links to named types' anchors and to the
    specification entries of composite and logical types. */
module TypeRender {
  import opened Wrappers
  import opened AvroModel
  import opened SpecUrls
  import opened Markup

  const Bar := Text("|")

  /** Sub-renderings separated by a bar, as the union loop writes them: a bar
      before every part but the first. */
  function Separated(parts: seq<Inline>): seq<Inline> {
    if |parts| <= 1 then parts
    else Separated(parts[..|parts| - 1]) + [Bar, parts[|parts| - 1]]
  }

  /** The renderings of a union's branches, in branch order. */
  function BranchRenders(bs: seq<Schema>): seq<Result<Inline>>
    decreases Union(bs), 0
  {
    seq(|bs|, i requires 0 <= i < |bs| => RenderType(bs[i]))
  }

  /** field_type_html. The cases are tried in the source's order: a named
      type first (so a fixed decimal links to its own anchor), then array,
      union, logical type, and the catch-all that shows the bare type name
      (a map shows "map" and its value type is not looked into). A logical
      type missing from the specification-URL table is a failed lookup. */
  function RenderType(s: Schema): (r: Result<Inline>)
    ensures r.Ok? ==> r.value.Span?
    decreases s, 1
  {
    match s
    case Named(n, _) => Ok(Span([Link(n, "#" + n)]))
    case Array(items) =>
      var inner :- RenderType(items);
      Ok(Span([Link("array", SpecUrl("array").value), Text("["), inner, Text("]")]))
    case Union(bs) =>
      var parts :- AllOk(BranchRenders(bs));
      Ok(Span([Link("union", SpecUrl("union").value), Text("[")] + Separated(parts) + [Text("]")]))
    case Logical(lt, _) =>
      var url :- SpecUrl(lt);
      Ok(Span([Link(lt, url)]))
    case Map(_) => Ok(Span([Text("map")]))
    case Primitive(t) => Ok(Span([Text(t)]))
  }

  /** Every logical type the rendering visits is in the URL table. Named
      types are not looked into (the named case wins), nor are map values. */
  predicate LogicalsKnown(s: Schema)
    decreases s
  {
    match s
    case Logical(lt, _) => lt in UrlTable
    case Array(items) => LogicalsKnown(items)
    case Union(bs) => forall i :: 0 <= i < |bs| ==> LogicalsKnown(bs[i])
    case _ => true
  }

  // ---------------------------------------------------------------------
  // field_type_html as the source runs it: children appended one by one
  // to the span under construction.

  method FieldTypeHtml(s: Schema) returns (r: Result<Inline>)
    ensures r == RenderType(s)
    decreases s, 1
  {
    var children: seq<Inline> := [];
    match s {
    case Named(n, _) =>
      children := children + [Link(n, "#" + n)];
      assert children == [Link(n, "#" + n)];
    case Array(items) =>
      var url := SpecUrl("array");
      children := children + [Link("array", url.value), Text("[")];
      var inner := FieldTypeHtml(items);
      if inner.Err? {
        return Err(inner.key);
      }
      children := children + [inner.value, Text("]")];
      assert children == [Link("array", url.value), Text("["), inner.value, Text("]")];
    case Union(bs) =>
      var url := SpecUrl("union");
      children := children + [Link("union", url.value), Text("[")];
      var inner := BranchesHtml(bs);
      if inner.Err? {
        return Err(inner.key);
      }
      assert children == [Link("union", url.value), Text("[")];
      children := children + inner.value + [Text("]")];
      ghost var parts := AllOk(BranchRenders(bs)).value;
      assert RenderType(s) == Ok(Span([Link("union", url.value), Text("[")] + Separated(parts) + [Text("]")]));
    case Logical(lt, _) =>
      var url := SpecUrl(lt);
      if url.Err? {
        return Err(url.key);
      }
      children := children + [Link(lt, url.value)];
      assert children == [Link(lt, url.value)];
    case Map(_) =>
      children := children + [Text("map")];
      assert children == [Text("map")];
    case Primitive(t) =>
      children := children + [Text(t)];
      assert children == [Text(t)];
    }
    r := Ok(Span(children));
  }

  /** The loop of the union case: each branch's span, with a bar written
      before every branch but the first; the first failing branch aborts it. */
  method BranchesHtml(bs: seq<Schema>) returns (r: Result<seq<Inline>>)
    ensures r.Ok? <==> AllOk(BranchRenders(bs)).Ok?
    ensures r.Ok? ==> r.value == Separated(AllOk(BranchRenders(bs)).value)
    ensures r.Err? ==> r.key == AllOk(BranchRenders(bs)).key
    decreases Union(bs), 0
  {
    var written: seq<Inline> := [];
    ghost var parts: seq<Inline> := [];
    ghost var rs := BranchRenders(bs);
    for i := 0 to |bs|
      invariant |parts| == i
      invariant forall k :: 0 <= k < i ==> rs[k] == Ok(parts[k])
      invariant written == Separated(parts)
    {
      if i != 0 {
        written := written + [Bar];
      }
      var part := FieldTypeHtml(bs[i]);
      assert part == rs[i];
      if part.Err? {
        AllOkFirstErr(rs, i);
        return Err(part.key);
      }
      assert (parts + [part.value])[..i] == parts;
      parts := parts + [part.value];
      written := written + [part.value];
    }
    assert forall k :: 0 <= k < |bs| ==> rs[k].Ok?;
    assert AllOk(rs).value == parts;
    r := Ok(written);
  }

  // ---------------------------------------------------------------------
  // What the type cell says.

  /** The rendering fails exactly when some logical type it reaches is
      missing from the URL table, and then it fails with such a name. */
  lemma {:induction false} RenderOkIff(s: Schema)
    ensures RenderType(s).Ok? <==> LogicalsKnown(s)
    ensures RenderType(s).Err? ==> RenderType(s).key !in UrlTable
    decreases s
  {
    match s
    case Array(items) =>
      RenderOkIff(items);
    case Union(bs) =>
      var rs := BranchRenders(bs);
      forall i | 0 <= i < |bs|
        ensures rs[i].Ok? <==> LogicalsKnown(bs[i])
        ensures rs[i].Err? ==> rs[i].key !in UrlTable
      {
        RenderOkIff(bs[i]);
      }
    case _ =>
  }

  lemma {:induction false} SeparatedLength(parts: seq<Inline>)
    requires |parts| >= 1
    ensures |Separated(parts)| == 2 * |parts| - 1
  {
    if |parts| > 1 {
      SeparatedLength(parts[..|parts| - 1]);
    }
  }

  /** K parts give 2K - 1 entries: the parts at the even positions in their
      order, a bar at each odd position. */
  lemma {:induction false} SeparatedAt(parts: seq<Inline>, j: nat)
    requires j < 2 * |parts| - 1
    ensures |Separated(parts)| == 2 * |parts| - 1
    ensures Separated(parts)[j] == if j % 2 == 0 then parts[j / 2] else Bar
  {
    SeparatedLength(parts);
    var n := |parts|;
    if n > 1 {
      var init := parts[..n - 1];
      SeparatedLength(init);
      if j < 2 * n - 3 {
        SeparatedAt(init, j);
      }
    }
  }

  /** The i-th part sits at position 2i, the i-th bar at position 2i + 1. */
  lemma SeparatedPositions(parts: seq<Inline>, i: nat)
    requires i < |parts|
    ensures |Separated(parts)| == 2 * |parts| - 1
    ensures Separated(parts)[2 * i] == parts[i]
    ensures i < |parts| - 1 ==> Separated(parts)[2 * i + 1] == Bar
  {
    SeparatedAt(parts, 2 * i);
    assert (2 * i) % 2 == 0 && (2 * i) / 2 == i;
    if i < |parts| - 1 {
      SeparatedAt(parts, 2 * i + 1);
      assert (2 * i + 1) % 2 == 1;
    }
  }

  /** When no part is itself a bar, the parts are separated by exactly
      K - 1 bars. */
  lemma {:induction false} SeparatedBars(parts: seq<Inline>)
    requires |parts| >= 1
    requires forall i :: 0 <= i < |parts| ==> parts[i] != Bar
    ensures multiset(Separated(parts))[Bar] == |parts| - 1
  {
    if |parts| > 1 {
      var init := parts[..|parts| - 1];
      SeparatedBars(init);
      assert multiset(Separated(parts)) ==
        multiset(Separated(init)) + multiset{Bar} + multiset{parts[|parts| - 1]};
    }
  }

  /** An array renders exactly when its item type does: as the "array"
      link, "[", the item type's own span, and "]"; otherwise it fails as its
      item type does. */
  lemma ArrayShape(items: Schema)
    ensures RenderType(Array(items)).Ok? <==> RenderType(items).Ok?
    ensures RenderType(items).Ok? ==>
      RenderType(Array(items)).value ==
        Span([Link("array", UrlTable["array"]), Text("["), RenderType(items).value, Text("]")])
    ensures RenderType(items).Err? ==> RenderType(Array(items)) == Err(RenderType(items).key)
  {
  }

  /** The children of a rendered union: the "union" link, "[", the branch
      spans separated by bars, "]"; each branch span is that branch's own
      rendering. */
  lemma UnionChildren(bs: seq<Schema>)
    requires RenderType(Union(bs)).Ok?
    ensures AllOk(BranchRenders(bs)).Ok?
    ensures var parts := AllOk(BranchRenders(bs)).value;
      |parts| == |bs| &&
      (forall i :: 0 <= i < |bs| ==> RenderType(bs[i]) == Ok(parts[i])) &&
      RenderType(Union(bs)).value.children ==
        [Link("union", UrlTable["union"]), Text("[")] + Separated(parts) + [Text("]")]
  {
    var rs := BranchRenders(bs);
    assert forall i :: 0 <= i < |bs| ==> rs[i] == RenderType(bs[i]);
  }

  /** A union of K >= 1 branches renders as the "union" link, "[", the K
      branch spans in declaration order with a bar between each two, and
      "]". */
  lemma UnionShape(bs: seq<Schema>)
    requires |bs| >= 1
    requires RenderType(Union(bs)).Ok?
    ensures forall i :: 0 <= i < |bs| ==> RenderType(bs[i]).Ok?
    ensures |RenderType(Union(bs)).value.children| == 2 * |bs| + 2
    ensures RenderType(Union(bs)).value.children[0] == Link("union", UrlTable["union"])
    ensures RenderType(Union(bs)).value.children[1] == Text("[")
    ensures RenderType(Union(bs)).value.children[2 * |bs| + 1] == Text("]")
    ensures forall i :: 0 <= i < |bs| ==>
      RenderType(Union(bs)).value.children[2 + 2 * i] == RenderType(bs[i]).value
    ensures forall i :: 0 <= i < |bs| - 1 ==> RenderType(Union(bs)).value.children[3 + 2 * i] == Bar
  {
    UnionChildren(bs);
    var parts := AllOk(BranchRenders(bs)).value;
    var head := [Link("union", UrlTable["union"]), Text("[")];
    BracketedParts(RenderType(Union(bs)).value.children, head, parts);
  }

  /** Where everything sits in a two-entry head, then the parts separated
      by bars, then "]". */
  lemma BracketedParts(cs: seq<Inline>, head: seq<Inline>, parts: seq<Inline>)
    requires |parts| >= 1 && |head| == 2
    requires cs == head + Separated(parts) + [Text("]")]
    ensures |cs| == 2 * |parts| + 2
    ensures cs[0] == head[0] && cs[1] == head[1] && cs[2 * |parts| + 1] == Text("]")
    ensures forall i :: 0 <= i < |parts| ==> cs[2 + 2 * i] == parts[i]
    ensures forall i :: 0 <= i < |parts| - 1 ==> cs[3 + 2 * i] == Bar
  {
    SeparatedLength(parts);
    forall i | 0 <= i < |parts|
      ensures cs[2 + 2 * i] == parts[i]
      ensures i < |parts| - 1 ==> cs[3 + 2 * i] == Bar
    {
      SeparatedPositions(parts, i);
      BracketedPartAt(cs, head, Separated(parts), parts, i);
    }
  }

  /** The i-th part and the bar after it, once past the two-entry head. */
  lemma BracketedPartAt(cs: seq<Inline>, head: seq<Inline>, sep: seq<Inline>, parts: seq<Inline>, i: nat)
    requires |head| == 2 && |sep| == 2 * |parts| - 1 && i < |parts|
    requires cs == head + sep + [Text("]")]
    requires sep[2 * i] == parts[i]
    requires i < |parts| - 1 ==> sep[2 * i + 1] == Bar
    ensures cs[2 + 2 * i] == parts[i]
    ensures i < |parts| - 1 ==> cs[3 + 2 * i] == Bar
  {
    BracketedAt(cs, head, sep, Text("]"), |parts|, 2 * i);
    if i < |parts| - 1 {
      BracketedAt(cs, head, sep, Text("]"), |parts|, 2 * i + 1);
    }
  }

  /** Position arithmetic for a bar-separated list between a two-entry head
      and a closing entry. */
  lemma BracketedAt(cs: seq<Inline>, head: seq<Inline>, sep: seq<Inline>, last: Inline, k: nat, j: nat)
    requires |head| == 2 && |sep| == 2 * k - 1 && j < |sep|
    requires cs == head + sep + [last]
    ensures |cs| == 2 * k + 2
    ensures cs[2 + j] == sep[j]
  {
  }

  /** The branch spans of a union of K >= 1 branches are separated by
      exactly K - 1 bars: a nested union's own bars stay inside its span. */
  lemma UnionBars(bs: seq<Schema>)
    requires |bs| >= 1
    requires RenderType(Union(bs)).Ok?
    ensures multiset(RenderType(Union(bs)).value.children)[Bar] == |bs| - 1
  {
    UnionChildren(bs);
    var parts := AllOk(BranchRenders(bs)).value;
    var head := [Link("union", UrlTable["union"]), Text("[")];
    forall i | 0 <= i < |parts|
      ensures parts[i] != Bar
    {
      assert RenderType(bs[i]).value.Span?;
    }
    SeparatedBars(parts);
    assert multiset(head + Separated(parts) + [Text("]")]) ==
      multiset(head) + multiset(Separated(parts)) + multiset{Text("]")};
  }

  /** The leaves: a named type links to its anchor even when it also carries
      a logical type the URL table lacks; a logical type links to its table
      entry or fails with its name; anything else shows its bare type name,
      so a map shows "map" whatever its values. */
  lemma LeafCases(n: string, lt: Option<string>, name: string, underlying: string, values: Schema, t: string)
    ensures RenderType(Named(n, lt)) == Ok(Span([Link(n, "#" + n)]))
    ensures RenderType(Logical(name, underlying)) ==
      if name in UrlTable then Ok(Span([Link(name, UrlTable[name])])) else Err(name)
    ensures RenderType(Map(values)) == Ok(Span([Text("map")]))
    ensures RenderType(Primitive(t)) == Ok(Span([Text(t)]))
  {
  }
}
