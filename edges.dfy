/** Dependency edges between named types: which named types a record's fields
    refer to, and the graph of all named types and those edges. The layout of
    the graph and its drawing as SVG are not part of this model. */
module Edges {
  import opened Wrappers
  import opened AvroModel

  /** (source full name, target full name): the source record refers to the
      target named type. */
  type Edge = (string, string)

  /** Full names of the named branches of a union, in branch order. */
  function NamedBranchNames(bs: seq<Schema>): seq<string> {
    if bs == [] then []
    else NamedBranchNames(bs[..|bs| - 1]) + (if bs[|bs| - 1].Named? then [bs[|bs| - 1].fullname] else [])
  }

  /** The full names a field type refers to at the single level the extractor
      looks at: the type itself when named, the item type of an array when
      named, the named branches of a union. */
  function DirectRefs(t: Schema): seq<string> {
    match t
    case Named(n, _) => [n]
    case Array(items) => if items.Named? then [items.fullname] else []
    case Union(bs) => NamedBranchNames(bs)
    case _ => []
  }

  /** One edge from `source` to each target, in order. */
  function Fan(source: string, targets: seq<string>): seq<Edge> {
    seq(|targets|, k requires 0 <= k < |targets| => (source, targets[k]))
  }

  /** The edges of a record's fields, field after field. */
  function FieldsEdges(source: string, fs: seq<Field>): seq<Edge> {
    if fs == [] then []
    else FieldsEdges(source, fs[..|fs| - 1]) + Fan(source, DirectRefs(fs[|fs| - 1].fieldType))
  }

  /** The edges of one named type: those of its fields for a record, none
      for anything else. */
  function SchemaEdges(nt: NamedType): seq<Edge> {
    match nt.kind
    case Record(fields, _) => FieldsEdges(nt.fullname, fields)
    case _ => []
  }

  /** The edges of the whole table, entry after entry. */
  function AllEdges(t: Table): seq<Edge> {
    if t == [] then [] else AllEdges(t[..|t| - 1]) + SchemaEdges(t[|t| - 1].1)
  }

  /** A graph node: a named type, hyperlinked to its section's anchor. */
  datatype GraphNode = GraphNode(name: string, href: string)

  datatype Graph = Graph(nodes: seq<GraphNode>, edges: seq<Edge>)

  function NodesOf(t: Table): seq<GraphNode> {
    seq(|t|, i requires 0 <= i < |t| => GraphNode(t[i].0, "#" + t[i].0))
  }

  function GraphOf(t: Table): Graph {
    Graph(NodesOf(t), AllEdges(t))
  }

  // ---------------------------------------------------------------------
  // The extractor and the graph builder, as the source runs them.

  /** get_edges: walks the fields of a record, appending the edges of each
      field to one running list. */
  method GetEdges(nt: NamedType) returns (edges: seq<Edge>)
    ensures edges == SchemaEdges(nt)
  {
    edges := [];
    if nt.kind.Record? {
      var name, fields := nt.fullname, nt.kind.fields;
      for i := 0 to |fields|
        invariant edges == FieldsEdges(name, fields[..i])
      {
        assert fields[..i + 1][..i] == fields[..i];
        edges := AppendFieldEdges(edges, name, fields[i].fieldType);
      }
      assert fields[..|fields|] == fields;
    }
  }

  /** The body of get_edges' field loop: appends an edge for a named field
      type, for the named item type of an array, and for each named branch
      of a union, and nothing for any other type. */
  method AppendFieldEdges(edges: seq<Edge>, name: string, t: Schema) returns (edges': seq<Edge>)
    ensures edges' == edges + Fan(name, DirectRefs(t))
  {
    edges' := edges;
    match t
    case Named(target, _) =>
      edges' := edges' + [(name, target)];
    case Array(items) =>
      if items.Named? {
        edges' := edges' + [(name, items.fullname)];
      }
    case Union(branches) =>
      for j := 0 to |branches|
        invariant edges' == edges + Fan(name, NamedBranchNames(branches[..j]))
      {
        assert branches[..j + 1][..j] == branches[..j];
        FanAppend(name, NamedBranchNames(branches[..j]),
                  if branches[j].Named? then [branches[j].fullname] else []);
        if branches[j].Named? {
          edges' := edges' + [(name, branches[j].fullname)];
        }
      }
      assert branches[..|branches|] == branches;
    case _ =>
  }

  /** draw_graph, up to the layout: one node per table key, in table order,
      and the edges of every entry, concatenated in table order. */
  method DrawGraph(t: Table) returns (g: Graph)
    ensures g == GraphOf(t)
  {
    var edges: seq<Edge> := [];
    for i := 0 to |t|
      invariant edges == AllEdges(t[..i])
    {
      var e := GetEdges(t[i].1);
      AllEdgesStep(t, i);
      edges := edges + e;
    }
    assert t[..|t|] == t;
    assert edges == AllEdges(t);
    var nodes: seq<GraphNode> := [];
    for i := 0 to |t|
      invariant |nodes| == i
      invariant forall k :: 0 <= k < i ==> nodes[k] == GraphNode(t[k].0, "#" + t[k].0)
    {
      nodes := nodes + [GraphNode(t[i].0, "#" + t[i].0)];
    }
    assert nodes == NodesOf(t);
    g := Graph(nodes, edges);
  }

  /** One more table entry adds its own edges at the end. */
  lemma AllEdgesStep(t: Table, i: nat)
    requires i < |t|
    ensures AllEdges(t[..i + 1]) == AllEdges(t[..i]) + SchemaEdges(t[i].1)
  {
    assert t[..i + 1][..i] == t[..i];
    assert t[..i + 1][i] == t[i];
  }

  // ---------------------------------------------------------------------
  // What the edges are.

  lemma FanAppend(source: string, a: seq<string>, b: seq<string>)
    ensures Fan(source, a + b) == Fan(source, a) + Fan(source, b)
  {
  }

  /** Filtering the branches of a union distributes over concatenation, so
      the names of earlier branches come first. Together with the one-branch
      case (a named branch gives its name, any other branch nothing) this
      pins the filter down. */
  lemma {:induction false} NamedBranchNamesAppend(a: seq<Schema>, b: seq<Schema>)
    ensures NamedBranchNames(a + b) == NamedBranchNames(a) + NamedBranchNames(b)
    decreases |b|
  {
    if b == [] {
      assert a + b == a;
    } else {
      var init := b[..|b| - 1];
      assert (a + b)[..|a + b| - 1] == a + init;
      assert (a + b)[|a + b| - 1] == b[|b| - 1];
      NamedBranchNamesAppend(a, init);
    }
  }

  /** A union contributes exactly the full names of its named branches. */
  lemma {:induction false} NamedBranchNamesMembers(bs: seq<Schema>, n: string)
    ensures n in NamedBranchNames(bs) <==> exists i :: 0 <= i < |bs| && bs[i].Named? && bs[i].fullname == n
  {
    if bs != [] {
      var init := bs[..|bs| - 1];
      NamedBranchNamesMembers(init, n);
      if exists i :: 0 <= i < |init| && init[i].Named? && init[i].fullname == n {
        var i :| 0 <= i < |init| && init[i].Named? && init[i].fullname == n;
        assert bs[i] == init[i];
      }
      if exists i :: 0 <= i < |bs| && bs[i].Named? && bs[i].fullname == n {
        var i :| 0 <= i < |bs| && bs[i].Named? && bs[i].fullname == n;
        if i < |init| {
          assert init[i] == bs[i];
        }
      }
    }
  }

  /** A union of K branches, all of them named, contributes K edges: one per
      branch, in branch order, with repeated branches kept. */
  lemma {:induction false} AllNamedUnion(bs: seq<Schema>)
    requires forall i :: 0 <= i < |bs| ==> bs[i].Named?
    ensures |NamedBranchNames(bs)| == |bs|
    ensures forall i :: 0 <= i < |bs| ==> NamedBranchNames(bs)[i] == bs[i].fullname
  {
    if bs != [] {
      AllNamedUnion(bs[..|bs| - 1]);
    }
  }

  /** A field's one-level references, case by case: a named type gives
      itself (even when it also carries a logical type); an array gives its
      item type exactly when that is named, so arrays of arrays, of unions or
      of primitives give nothing; maps, logical and primitive types give
      nothing. */
  lemma DirectRefsCases(t: Schema)
    ensures t.Named? ==> DirectRefs(t) == [t.fullname]
    ensures t.Array? ==> (DirectRefs(t) != [] <==> t.items.Named?)
    ensures t.Array? && t.items.Named? ==> DirectRefs(t) == [t.items.fullname]
    ensures t.Map? || t.Logical? || t.Primitive? ==> DirectRefs(t) == []
  {
  }

  /** The edges of a field list split at any point: edges follow field
      declaration order, and nothing is deduplicated across fields. */
  lemma {:induction false} FieldsEdgesAppend(source: string, a: seq<Field>, b: seq<Field>)
    ensures FieldsEdges(source, a + b) == FieldsEdges(source, a) + FieldsEdges(source, b)
    decreases |b|
  {
    if b == [] {
      assert a + b == a;
    } else {
      var init := b[..|b| - 1];
      assert (a + b)[..|a + b| - 1] == a + init;
      assert (a + b)[|a + b| - 1] == b[|b| - 1];
      var tail := Fan(source, DirectRefs(b[|b| - 1].fieldType));
      assert FieldsEdges(source, a + b) == FieldsEdges(source, a + init) + tail;
      assert FieldsEdges(source, b) == FieldsEdges(source, init) + tail;
      FieldsEdgesAppend(source, a, init);
    }
  }

  /** The edges fanned out from `source` are exactly `source` paired with
      each target. */
  lemma FanMembers(source: string, targets: seq<string>, e: Edge)
    ensures e in Fan(source, targets) <==> e.0 == source && e.1 in targets
  {
    if e.0 == source && e.1 in targets {
      var k :| 0 <= k < |targets| && targets[k] == e.1;
      assert Fan(source, targets)[k] == e;
    }
  }

  /** Some element of `xs` satisfies `p` exactly when some element before
      the last does or the last one does. */
  lemma ExistsSplit<T>(xs: seq<T>, init: seq<T>, p: T -> bool)
    requires xs != [] && init == xs[..|xs| - 1]
    ensures (exists i :: 0 <= i < |xs| && p(xs[i])) <==>
      (exists i :: 0 <= i < |init| && p(init[i])) || p(xs[|xs| - 1])
  {
    if exists i :: 0 <= i < |xs| && p(xs[i]) {
      var i :| 0 <= i < |xs| && p(xs[i]);
      if i < |xs| - 1 {
        assert init[i] == xs[i];
      }
    }
    if exists i :: 0 <= i < |init| && p(init[i]) {
      var i :| 0 <= i < |init| && p(init[i]);
      assert xs[i] == init[i];
    }
  }

  /** An edge belongs to a record's edges exactly when its source is the
      record and its target is a one-level reference of one of its fields. */
  lemma {:induction false} FieldsEdgesMembers(source: string, fs: seq<Field>, e: Edge)
    ensures e in FieldsEdges(source, fs) <==>
      e.0 == source && exists i :: 0 <= i < |fs| && e.1 in DirectRefs(fs[i].fieldType)
  {
    if fs != [] {
      var init := fs[..|fs| - 1];
      FieldsEdgesMembers(source, init, e);
      FanMembers(source, DirectRefs(fs[|fs| - 1].fieldType), e);
      ExistsSplit(fs, init, (f: Field) => e.1 in DirectRefs(f.fieldType));
    }
  }

  /** get_edges yields nothing for an enum or a fixed type; for a record,
      every edge starts at the record's own full name and ends at a one-level
      reference of one of its fields, and every such reference is an edge. */
  lemma SchemaEdgesMembers(nt: NamedType, e: Edge)
    ensures !nt.kind.Record? ==> SchemaEdges(nt) == []
    ensures nt.kind.Record? ==>
      (e in SchemaEdges(nt) <==>
        e.0 == nt.fullname &&
        exists i :: 0 <= i < |nt.kind.fields| && e.1 in DirectRefs(nt.kind.fields[i].fieldType))
  {
    if nt.kind.Record? {
      FieldsEdgesMembers(nt.fullname, nt.kind.fields, e);
    }
  }

  /** Nothing is deduplicated and self-references are kept: a record `R` with
      two fields of type `R` yields the edge (R, R) twice. */
  lemma SelfEdgesKept(r: string, d1: Option<string>, d2: Option<string>)
    ensures SchemaEdges(NamedType(r, None, Record([
      Field("a", d1, Named(r, None), Absent),
      Field("b", d2, Named(r, None), Absent)], false))) == [(r, r), (r, r)]
  {
    var fs := [Field("a", d1, Named(r, None), Absent), Field("b", d2, Named(r, None), Absent)];
    assert fs[..1][..0] == [];
    assert Fan(r, [r]) == [(r, r)];
    assert FieldsEdges(r, fs[..1]) == [(r, r)];
    assert fs[..|fs| - 1] == fs[..1];
  }

  /** The table's edges split at any point: entries contribute their edges in
      table order. */
  lemma {:induction false} AllEdgesAppend(a: Table, b: Table)
    ensures AllEdges(a + b) == AllEdges(a) + AllEdges(b)
    decreases |b|
  {
    if b == [] {
      assert a + b == a;
    } else {
      var init := b[..|b| - 1];
      assert (a + b)[..|a + b| - 1] == a + init;
      assert (a + b)[|a + b| - 1] == b[|b| - 1];
      var tail := SchemaEdges(b[|b| - 1].1);
      assert AllEdges(a + b) == AllEdges(a + init) + tail;
      assert AllEdges(b) == AllEdges(init) + tail;
      AllEdgesAppend(a, init);
    }
  }

  /** An edge of the graph is an edge of some table entry, and every edge of
      every entry is in the graph. */
  lemma {:induction false} AllEdgesMembers(t: Table, e: Edge)
    ensures e in AllEdges(t) <==> exists i :: 0 <= i < |t| && e in SchemaEdges(t[i].1)
  {
    if t != [] {
      var init, last := t[..|t| - 1], t[|t| - 1];
      assert AllEdges(t) == AllEdges(init) + SchemaEdges(last.1);
      AllEdgesMembers(init, e);
      if e in AllEdges(t) {
        if e in AllEdges(init) {
          var i :| 0 <= i < |init| && e in SchemaEdges(init[i].1);
          assert t[i] == init[i];
        } else {
          assert e in SchemaEdges(t[|t| - 1].1);
        }
      } else {
        forall i | 0 <= i < |t|
          ensures e !in SchemaEdges(t[i].1)
        {
          if i < |init| {
            assert init[i] == t[i];
          }
        }
      }
    }
  }

  /** The graph's nodes are exactly the table's keys, in table order, each
      linked to its anchor; in a well-formed table the source of every edge
      is one of those nodes. */
  lemma GraphShape(t: Table)
    requires WellFormed(t)
    ensures |GraphOf(t).nodes| == |t|
    ensures forall i :: 0 <= i < |t| ==> GraphOf(t).nodes[i] == GraphNode(t[i].0, "#" + t[i].0)
    ensures forall e :: e in GraphOf(t).edges ==> exists i :: 0 <= i < |t| && GraphOf(t).nodes[i].name == e.0
  {
    forall e | e in GraphOf(t).edges
      ensures exists i :: 0 <= i < |t| && GraphOf(t).nodes[i].name == e.0
    {
      AllEdgesMembers(t, e);
      var i :| 0 <= i < |t| && e in SchemaEdges(t[i].1);
      SchemaEdgesMembers(t[i].1, e);
      assert GraphOf(t).nodes[i].name == e.0;
    }
  }
}
