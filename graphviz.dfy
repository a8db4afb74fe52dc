/**
 * `hierarchy_to_graphviz` of scripts/get_db_graph.py: the table tree, with the fields of
 * each table filled in, is written out in pre-order as Graphviz record nodes `n_0, n_1, …`,
 * each non-root node followed by an edge to the node of its parent table.
 */
module DbGraphviz {
  import opened Base
  import Strings

  /** One entry of `get_fields_in_table`. */
  datatype FieldInfo = FieldInfo(name: string, kind: string, primaryKey: bool)

  /** A table of the filled hierarchy: its name, its fields and the tables nested in it, in order. */
  datatype Table = Table(name: string, fields: seq<FieldInfo>, children: seq<Table>)

  /** A line of the graph before it is rendered. */
  datatype DotLine = NodeDecl(id: nat, name: string, fields: seq<FieldInfo>) | EdgeDecl(child: nat, parent: nat)

  // ---------------------------------------------------------------------------
  // The graph, as a specification
  // ---------------------------------------------------------------------------

  const ParentField: string := "__parent__"

  /** The label part of one field: the key marker for a primary key, then the name. */
  function FieldLabel(f: FieldInfo): string
  {
    (if f.primaryKey then "<pk> " else "") + f.name
  }

  /** The label parts of the fields, skipping the internal `__parent__` column. */
  function FieldLabels(fs: seq<FieldInfo>): seq<string>
  {
    if fs == [] then []
    else
      var f := fs[|fs| - 1];
      FieldLabels(fs[..|fs| - 1]) + (if f.name == ParentField then [] else [FieldLabel(f)])
  }

  /** The record label: the upper-cased name, an empty separator, then the fields. */
  function Label(name: string, fs: seq<FieldInfo>): string
  {
    Strings.Join(["<name> " + Strings.Upper(name), ""] + FieldLabels(fs), "|")
  }

  function NodeName(id: nat): string
  {
    "n_" + Strings.NatToString(id)
  }

  function Render(l: DotLine): string
  {
    match l
    case NodeDecl(id, name, fields) =>
      NodeName(id) + " [" + "label=\"" + Label(name, fields) + "\"" + ", shape=\"record\"];"
    case EdgeDecl(child, parent) => NodeName(child) + " -> " + NodeName(parent)
  }

  function RenderAll(ls: seq<DotLine>): seq<string>
  {
    if ls == [] then [] else RenderAll(ls[..|ls| - 1]) + [Render(ls[|ls| - 1])]
  }

  /** The number of tables in a forest. */
  function Count(ts: seq<Table>): nat
  {
    if ts == [] then 0
    else Count(ts[..|ts| - 1]) + 1 + Count(ts[|ts| - 1].children)
  }

  /** The tables of a forest in pre-order. */
  function Preorder(ts: seq<Table>): (r: seq<Table>)
  {
    if ts == [] then []
    else Preorder(ts[..|ts| - 1]) + [ts[|ts| - 1]] + Preorder(ts[|ts| - 1].children)
  }

  /** The record line of a table and, below the top level, its edge to the parent node. */
  function Head(t: Table, k: nat, parent: Option<nat>): seq<DotLine>
  {
    [NodeDecl(k, t.name, t.fields)] + (if parent.Some? then [EdgeDecl(k, parent.value)] else [])
  }

  /**
   * The lines of a forest whose first table gets the id `id` and whose tables all hang
   * under the node `parent` (none for the top level).
   */
  function Lines(ts: seq<Table>, id: nat, parent: Option<nat>): seq<DotLine>
  {
    if ts == [] then []
    else
      var t := ts[|ts| - 1];
      var k := id + Count(ts[..|ts| - 1]);
      Lines(ts[..|ts| - 1], id, parent) + Head(t, k, parent) + Lines(t.children, k + 1, Some(k))
  }

  /** The lines of one table and everything nested in it, the table getting the id `k`. */
  function TreeLines(t: Table, k: nat, parent: Option<nat>): seq<DotLine>
  {
    Head(t, k, parent) + Lines(t.children, k + 1, Some(k))
  }

  /** The whole graph, line by line. */
  function GraphLines(roots: seq<Table>): seq<string>
  {
    ["digraph {", "rankdir=LR;"] + RenderAll(Lines(roots, 0, None)) + ["}"]
  }

  function Graphviz(roots: seq<Table>): string
  {
    Strings.Join(GraphLines(roots), "\n")
  }

  // ---------------------------------------------------------------------------
  // What the graph promises
  // ---------------------------------------------------------------------------

  /** The record lines, in order. */
  function Nodes(ls: seq<DotLine>): seq<DotLine>
  {
    if ls == [] then []
    else Nodes(ls[..|ls| - 1]) + (if ls[|ls| - 1].NodeDecl? then [ls[|ls| - 1]] else [])
  }

  /** The number of edge lines. */
  function EdgeCount(ls: seq<DotLine>): nat
  {
    if ls == [] then 0
    else EdgeCount(ls[..|ls| - 1]) + (if ls[|ls| - 1].EdgeDecl? then 1 else 0)
  }

  /** The record lines of `ts`, numbered from `id`. */
  function Numbered(ts: seq<Table>, id: nat): (r: seq<DotLine>)
    ensures |r| == |ts|
  {
    seq(|ts|, i requires 0 <= i < |ts| => NodeDecl(id + i, ts[i].name, ts[i].fields))
  }

  /** Every edge comes right after the record of its child and points to an earlier node. */
  ghost predicate EdgesPlaced(ls: seq<DotLine>)
  {
    forall i :: 0 <= i < |ls| && ls[i].EdgeDecl? ==>
      0 < i && ls[i - 1].NodeDecl? && ls[i - 1].id == ls[i].child && ls[i].parent < ls[i].child
  }

  lemma {:induction false} NodesConcat(a: seq<DotLine>, b: seq<DotLine>)
    ensures Nodes(a + b) == Nodes(a) + Nodes(b)
    ensures EdgeCount(a + b) == EdgeCount(a) + EdgeCount(b)
    decreases |b|
  {
    if b == [] {
      assert a + b == a;
    } else {
      var b' := b[..|b| - 1];
      NodesConcat(a, b');
      assert (a + b)[..|a + b| - 1] == a + b';
      assert (a + b)[|a + b| - 1] == b[|b| - 1];
    }
  }

  lemma NodesJoin(a: seq<DotLine>, h: seq<DotLine>, c: seq<DotLine>)
    ensures Nodes(a + h + c) == Nodes(a) + Nodes(h) + Nodes(c)
    ensures EdgeCount(a + h + c) == EdgeCount(a) + EdgeCount(h) + EdgeCount(c)
  {
    NodesConcat(a, h);
    NodesConcat(a + h, c);
  }

  lemma NumberedStep(a: seq<Table>, t: Table, c: seq<Table>, id: nat, k: nat)
    requires k == id + |a|
    ensures Numbered(a + [t] + c, id) == Numbered(a, id) + [NodeDecl(k, t.name, t.fields)] + Numbered(c, k + 1)
  {
    var l, r := Numbered(a + [t] + c, id), Numbered(a, id) + [NodeDecl(k, t.name, t.fields)] + Numbered(c, k + 1);
    forall i | 0 <= i < |l| ensures l[i] == r[i] {
      if i < |a| {
        assert (a + [t] + c)[i] == a[i];
      } else if i == |a| {
        assert (a + [t] + c)[i] == t;
      } else {
        assert (a + [t] + c)[i] == c[i - |a| - 1];
      }
    }
  }

  lemma {:induction false} EdgesPlacedConcat(a: seq<DotLine>, b: seq<DotLine>)
    requires EdgesPlaced(a) && EdgesPlaced(b) && (b != [] ==> b[0].NodeDecl?)
    ensures EdgesPlaced(a + b)
  {
    forall i | 0 <= i < |a + b| && (a + b)[i].EdgeDecl?
      ensures 0 < i && (a + b)[i - 1].NodeDecl? && (a + b)[i - 1].id == (a + b)[i].child
      ensures (a + b)[i].parent < (a + b)[i].child
    {
      if i < |a| {
        assert (a + b)[i] == a[i] && (a + b)[i - 1] == a[i - 1];
      } else {
        assert (a + b)[i] == b[i - |a|];
        assert i - |a| > 0;
        assert (a + b)[i - 1] == b[i - 1 - |a|];
      }
    }
  }

  lemma EdgesPlacedJoin(a: seq<DotLine>, h: seq<DotLine>, c: seq<DotLine>)
    requires EdgesPlaced(a) && EdgesPlaced(h) && EdgesPlaced(c)
    requires h != [] && h[0].NodeDecl? && (c != [] ==> c[0].NodeDecl?)
    ensures EdgesPlaced(a + h + c)
  {
    EdgesPlacedConcat(a, h);
    EdgesPlacedConcat(a + h, c);
  }

  lemma HeadShape(t: Table, k: nat, parent: Option<nat>)
    ensures Head(t, k, parent) != [] && Head(t, k, parent)[0] == NodeDecl(k, t.name, t.fields)
    ensures Nodes(Head(t, k, parent)) == [NodeDecl(k, t.name, t.fields)]
    ensures EdgeCount(Head(t, k, parent)) == if parent.Some? then 1 else 0
    ensures (parent.Some? ==> parent.value < k) ==> EdgesPlaced(Head(t, k, parent))
  {
    var h, n := Head(t, k, parent), NodeDecl(k, t.name, t.fields);
    assert [n][..0] == [];
    assert Nodes([n]) == [n] && EdgeCount([n]) == 0;
    if parent.Some? {
      assert |h| == 2 && h[..|h| - 1] == [n];
    } else {
      assert h == [n];
    }
  }

  lemma HeadPlaced(t: Table, k: nat, parent: Option<nat>)
    requires parent.Some? ==> parent.value < k
    ensures Head(t, k, parent) != [] && Head(t, k, parent)[0].NodeDecl? && EdgesPlaced(Head(t, k, parent))
  {
    HeadShape(t, k, parent);
  }

  lemma HeadEdgeCount(t: Table, k: nat, parent: Option<nat>)
    ensures EdgeCount(Head(t, k, parent)) == if parent.Some? then 1 else 0
  {
    HeadShape(t, k, parent);
  }

  lemma EdgeCountJoin(a: seq<DotLine>, h: seq<DotLine>, c: seq<DotLine>)
    ensures EdgeCount(a + h + c) == EdgeCount(a) + EdgeCount(h) + EdgeCount(c)
  {
    NodesJoin(a, h, c);
  }

  lemma LinesUnfold(ts: seq<Table>, id: nat, parent: Option<nat>)
    requires ts != []
    ensures var init, t := ts[..|ts| - 1], ts[|ts| - 1];
      var k := id + Count(init);
      Lines(ts, id, parent) == Lines(init, id, parent) + Head(t, k, parent) + Lines(t.children, k + 1, Some(k)) &&
      Count(ts) == Count(init) + 1 + Count(t.children) &&
      Preorder(ts) == Preorder(init) + [t] + Preorder(t.children)
  {
    CountUnfold(ts);
    PreorderUnfold(ts);
  }

  lemma CountUnfold(ts: seq<Table>)
    requires ts != []
    ensures Count(ts) == Count(ts[..|ts| - 1]) + 1 + Count(ts[|ts| - 1].children)
  {
  }

  lemma PreorderUnfold(ts: seq<Table>)
    requires ts != []
    ensures Preorder(ts) == Preorder(ts[..|ts| - 1]) + [ts[|ts| - 1]] + Preorder(ts[|ts| - 1].children)
  {
  }

  /** The lines of a non-empty forest start with the record of its first table. */
  lemma {:induction false} LinesStart(ts: seq<Table>, id: nat, parent: Option<nat>)
    requires ts != []
    ensures Lines(ts, id, parent) != [] && Lines(ts, id, parent)[0] == NodeDecl(id, ts[0].name, ts[0].fields)
    decreases |ts|
  {
    if |ts| > 1 {
      LinesStart(ts[..|ts| - 1], id, parent);
    }
  }

  /** The tables are numbered `id, id + 1, …` in pre-order, one record each. */
  lemma {:induction false} PreorderNumbering(ts: seq<Table>, id: nat, parent: Option<nat>)
    ensures |Preorder(ts)| == Count(ts)
    ensures Nodes(Lines(ts, id, parent)) == Numbered(Preorder(ts), id)
    decreases ts
  {
    if ts != [] {
      var init, t := ts[..|ts| - 1], ts[|ts| - 1];
      var k := id + Count(init);
      PreorderNumbering(init, id, parent);
      PreorderNumbering(t.children, k + 1, Some(k));
      var a, h, c := Lines(init, id, parent), Head(t, k, parent), Lines(t.children, k + 1, Some(k));
      LinesUnfold(ts, id, parent);
      HeadShape(t, k, parent);
      NodesJoin(a, h, c);
      NumberedStep(Preorder(init), t, Preorder(t.children), id, k);
    }
  }

  /** Each table below the top level gets exactly one edge, the top-level tables none. */
  lemma {:induction false} EdgeTotal(ts: seq<Table>, id: nat, parent: Option<nat>)
    ensures EdgeCount(Lines(ts, id, parent)) + (if parent.None? then |ts| else 0) == Count(ts)
    decreases ts
  {
    if ts != [] {
      var init, t := ts[..|ts| - 1], ts[|ts| - 1];
      var k := id + Count(init);
      EdgeTotal(init, id, parent);
      EdgeTotal(t.children, k + 1, Some(k));
      var a, h, c := Lines(init, id, parent), Head(t, k, parent), Lines(t.children, k + 1, Some(k));
      LinesUnfold(ts, id, parent);
      HeadEdgeCount(t, k, parent);
      EdgeCountJoin(a, h, c);
    }
  }

  /** Every edge follows the record of its child and points to a node numbered before it. */
  lemma {:induction false} EdgesFollowChildren(ts: seq<Table>, id: nat, parent: Option<nat>)
    requires parent.Some? ==> parent.value < id
    ensures EdgesPlaced(Lines(ts, id, parent))
    decreases ts
  {
    if ts != [] {
      var init, t := ts[..|ts| - 1], ts[|ts| - 1];
      var k := id + Count(init);
      var a, h, c := Lines(init, id, parent), Head(t, k, parent), Lines(t.children, k + 1, Some(k));
      assert Lines(ts, id, parent) == a + h + c by {
        LinesUnfold(ts, id, parent);
      }
      assert EdgesPlaced(a) by {
        EdgesFollowChildren(init, id, parent);
      }
      assert EdgesPlaced(c) && (c != [] ==> c[0].NodeDecl?) by {
        EdgesFollowChildren(t.children, k + 1, Some(k));
        if t.children != [] {
          LinesStart(t.children, k + 1, Some(k));
        }
      }
      HeadPlaced(t, k, parent);
      EdgesPlacedJoin(a, h, c);
    } else {
      assert Lines(ts, id, parent) == [];
    }
  }

  /**
   * An edge of `Lines(ts, id, parent)` from node `e.child` to node `e.parent`, where node
   * `id + j` is the `j`-th table of `ts` in pre-order: the child is one of those tables, and
   * the parent is either the table it is nested in or, for a table of `ts` itself, `parent`.
   */
  ghost predicate EdgeToParent(e: DotLine, ts: seq<Table>, id: nat, parent: Option<nat>)
    requires e.EdgeDecl?
  {
    var pre := Preorder(ts);
    id <= e.child < id + |pre| &&
    if e.parent < id then parent == Some(e.parent) && pre[e.child - id] in ts
    else e.parent < id + |pre| && pre[e.child - id] in pre[e.parent - id].children
  }

  ghost predicate EdgesToParents(ls: seq<DotLine>, ts: seq<Table>, id: nat, parent: Option<nat>)
  {
    forall e :: e in ls && e.EdgeDecl? ==> EdgeToParent(e, ts, id, parent)
  }

  /** An edge of the earlier tables keeps its parent when the last table is appended. */
  lemma EdgeOfInit(e: DotLine, init: seq<Table>, t: Table, id: nat, parent: Option<nat>)
    requires e.EdgeDecl? && EdgeToParent(e, init, id, parent)
    requires Preorder(init + [t]) == Preorder(init) + [t] + Preorder(t.children)
    ensures EdgeToParent(e, init + [t], id, parent)
  {
    var pre, p1 := Preorder(init + [t]), Preorder(init);
    assert pre[e.child - id] == p1[e.child - id];
    if e.parent >= id {
      assert pre[e.parent - id] == p1[e.parent - id];
    }
  }

  /** An edge inside the last table, numbered after it, is an edge of the whole forest. */
  lemma EdgeOfLast(e: DotLine, init: seq<Table>, t: Table, id: nat, parent: Option<nat>)
    requires e.EdgeDecl? && |Preorder(init)| == Count(init)
    requires EdgeToParent(e, t.children, id + Count(init) + 1, Some(id + Count(init)))
    requires Preorder(init + [t]) == Preorder(init) + [t] + Preorder(t.children)
    ensures EdgeToParent(e, init + [t], id, parent)
  {
    var k := id + Count(init);
    var pre, p2 := Preorder(init + [t]), Preorder(t.children);
    assert pre[k - id] == t;
    assert pre[e.child - id] == p2[e.child - k - 1];
    if e.parent > k {
      assert pre[e.parent - id] == p2[e.parent - k - 1];
    }
  }

  lemma EdgesToParentsJoin(a: seq<DotLine>, h: seq<DotLine>, c: seq<DotLine>, ts: seq<Table>, id: nat, parent: Option<nat>)
    requires EdgesToParents(a, ts, id, parent) && EdgesToParents(h, ts, id, parent) && EdgesToParents(c, ts, id, parent)
    ensures EdgesToParents(a + h + c, ts, id, parent)
  {
    assert forall e :: e in a + h + c <==> e in a || e in h || e in c;
  }

  /** Every edge joins a table to the table it is nested in, or a top table of the forest to `parent`. */
  lemma {:induction false} EdgesToParentTables(ts: seq<Table>, id: nat, parent: Option<nat>)
    requires parent.Some? ==> parent.value < id
    ensures EdgesToParents(Lines(ts, id, parent), ts, id, parent)
    decreases ts
  {
    if ts != [] {
      var init, t := ts[..|ts| - 1], ts[|ts| - 1];
      var k := id + Count(init);
      var a, h, c := Lines(init, id, parent), Head(t, k, parent), Lines(t.children, k + 1, Some(k));
      LinesUnfold(ts, id, parent);
      assert ts == init + [t];
      assert EdgesToParents(a, ts, id, parent) by {
        EdgesToParentTables(init, id, parent);
        forall e | e in a && e.EdgeDecl? ensures EdgeToParent(e, ts, id, parent) {
          EdgeOfInit(e, init, t, id, parent);
        }
      }
      assert EdgesToParents(h, ts, id, parent) by {
        PreorderNumbering(init, id, parent);
        forall e | e in h && e.EdgeDecl? ensures EdgeToParent(e, ts, id, parent) {
          assert e == EdgeDecl(k, parent.value);
          assert Preorder(ts)[k - id] == t;
        }
      }
      assert EdgesToParents(c, ts, id, parent) by {
        PreorderNumbering(init, id, parent);
        EdgesToParentTables(t.children, k + 1, Some(k));
        forall e | e in c && e.EdgeDecl? ensures EdgeToParent(e, ts, id, parent) {
          EdgeOfLast(e, init, t, id, parent);
        }
      }
      EdgesToParentsJoin(a, h, c, ts, id, parent);
      assert Lines(ts, id, parent) == a + h + c;
    } else {
      assert Lines(ts, id, parent) == [];
    }
  }

  /** Numbering the tables from 0, every edge points from a table to the table it is nested in. */
  lemma EdgesToNestingTable(roots: seq<Table>)
    ensures forall e :: e in Lines(roots, 0, None) && e.EdgeDecl? ==>
      e.child < |Preorder(roots)| && e.parent < |Preorder(roots)| &&
      Preorder(roots)[e.child] in Preorder(roots)[e.parent].children
  {
    EdgesToParentTables(roots, 0, None);
    assert forall e :: e in Lines(roots, 0, None) && e.EdgeDecl? ==> EdgeToParent(e, roots, 0, None);
  }

  /** Without internal columns, every field has its label, in order. */
  lemma {:induction false} FieldLabelsAll(fs: seq<FieldInfo>)
    requires forall f :: f in fs ==> f.name != ParentField
    ensures FieldLabels(fs) == seq(|fs|, i requires 0 <= i < |fs| => FieldLabel(fs[i]))
    decreases |fs|
  {
    if fs != [] {
      FieldLabelsAll(fs[..|fs| - 1]);
    }
  }

  /** A label is shown for a field exactly when it is not the internal `__parent__` column. */
  lemma {:induction false} FieldLabelsShown(fs: seq<FieldInfo>)
    ensures forall f :: f in fs && f.name != ParentField ==> FieldLabel(f) in FieldLabels(fs)
    ensures forall l :: l in FieldLabels(fs) ==> exists f :: f in fs && f.name != ParentField && l == FieldLabel(f)
    decreases |fs|
  {
    if fs != [] {
      var init := fs[..|fs| - 1];
      FieldLabelsShown(init);
      assert fs == init + [fs[|fs| - 1]];
      forall l | l in FieldLabels(fs) ensures exists f :: f in fs && f.name != ParentField && l == FieldLabel(f) {
        if l in FieldLabels(init) {
          var f :| f in init && f.name != ParentField && l == FieldLabel(f);
          assert f in fs;
        } else {
          assert fs[|fs| - 1] in fs;
        }
      }
    }
  }

  // ---------------------------------------------------------------------------
  // The writer
  // ---------------------------------------------------------------------------

  const Preamble: seq<string> := ["digraph {", "rankdir=LR;"]

  /** The graph opens with `digraph {` and `rankdir=LR;`, closes with `}`, and has one line per line of the forest between. */
  lemma GraphFrame(roots: seq<Table>)
    ensures |GraphLines(roots)| == |Lines(roots, 0, None)| + 3
    ensures GraphLines(roots)[0] == "digraph {" && GraphLines(roots)[1] == "rankdir=LR;"
    ensures GraphLines(roots)[|GraphLines(roots)| - 1] == "}"
  {
    RenderAllLength(Lines(roots, 0, None));
  }

  lemma {:induction false} RenderAllLength(ls: seq<DotLine>)
    ensures |RenderAll(ls)| == |ls|
  {
    if ls != [] {
      RenderAllLength(ls[..|ls| - 1]);
    }
  }

  lemma Regroup<T>(pre: seq<T>, x: seq<T>, y: seq<T>, xy: seq<T>, before: seq<T>, after: seq<T>)
    requires before == pre + x && after == before + y && xy == x + y
    ensures after == pre + xy
  {
  }

  /** `text` is the preamble followed by the rendering of `ls`, line by line. */
  ghost predicate RenderedAs(text: seq<string>, ls: seq<DotLine>)
    decreases |ls|
  {
    if ls == [] then text == Preamble
    else |text| > 0 && text[|text| - 1] == Render(ls[|ls| - 1]) && RenderedAs(text[..|text| - 1], ls[..|ls| - 1])
  }

  lemma {:induction false} RenderedAll(text: seq<string>, ls: seq<DotLine>)
    requires RenderedAs(text, ls)
    ensures text == Preamble + RenderAll(ls)
    decreases |ls|
  {
    if ls != [] {
      RenderedAll(text[..|text| - 1], ls[..|ls| - 1]);
      assert text == text[..|text| - 1] + [text[|text| - 1]];
    }
  }

  lemma TreeLinesSplit(t: Table, k: nat, parent: Option<nat>)
    ensures TreeLines(t, k, parent) == Head(t, k, parent) + Lines(t.children, k + 1, Some(k))
  {
  }

  lemma {:induction false} LinesSnoc(ts: seq<Table>, i: nat, id: nat, parent: Option<nat>, k: nat)
    requires i < |ts| && k == id + Count(ts[..i])
    ensures Lines(ts[..i + 1], id, parent) == Lines(ts[..i], id, parent) + TreeLines(ts[i], k, parent)
    ensures Count(ts[..i + 1]) == Count(ts[..i]) + 1 + Count(ts[i].children)
  {
    assert ts[..i + 1][..i] == ts[..i];
    assert Lines(ts[..i], id, parent) + Head(ts[i], k, parent) + Lines(ts[i].children, k + 1, Some(k))
      == Lines(ts[..i], id, parent) + TreeLines(ts[i], k, parent);
  }

  /**
   * The state of `hierarchy_to_graphviz`: the `nonlocal idx` and the `result` list, with
   * the lines written so far before they were rendered.
   */
  class DotWriter {
    var idx: nat
    var result: seq<string>
    ghost var lines: seq<DotLine>

    /** `result` holds the preamble, then the text of every line written. */
    ghost predicate Rendered()
      reads this
    {
      RenderedAs(result, lines)
    }

    constructor()
      ensures idx == 0 && lines == [] && Rendered()
    {
      idx := 0;
      result := ["digraph {", "rankdir=LR;"];
      lines := [];
    }

    /** Appends one line. */
    method Emit(text: string, ghost l: DotLine)
      requires Rendered() && text == Render(l)
      modifies this
      ensures idx == old(idx) && lines == old(lines) + [l] && Rendered()
    {
      result, lines := result + [text], lines + [l];
      assert result[..|result| - 1] == old(result) && lines[..|lines| - 1] == old(lines);
    }

    /** `render_node`: takes the next id and appends the record line. */
    method RenderNode(fields: seq<FieldInfo>, name: string) returns (id: nat)
      requires Rendered()
      modifies this
      ensures id == old(idx) && idx == old(idx) + 1
      ensures lines == old(lines) + [NodeDecl(id, name, fields)] && Rendered()
    {
      id := idx;
      idx := idx + 1;
      var parts := ["<name> " + Strings.Upper(name), ""];
      for i := 0 to |fields|
        invariant parts == ["<name> " + Strings.Upper(name), ""] + FieldLabels(fields[..i])
      {
        assert fields[..i + 1][..i] == fields[..i];
        if fields[i].name == ParentField {
          continue;
        }
        parts := parts + [(if fields[i].primaryKey then "<pk> " else "") + fields[i].name];
      }
      assert fields[..|fields|] == fields;
      Emit(NodeName(id) + " [" + "label=\"" + Strings.Join(parts, "|") + "\"" + ", shape=\"record\"];", NodeDecl(id, name, fields));
    }

    /** `rec`: the node, its edge to the parent node, then the nested tables in order. */
    method Rec(node: Table, parent: Option<nat>)
      requires Rendered()
      modifies this
      ensures idx == old(idx) + 1 + Count(node.children)
      ensures lines == old(lines) + TreeLines(node, old(idx), parent) && Rendered()
      decreases node, 1
    {
      var l0 := lines;
      var id := RenderNode(node.fields, node.name);
      if parent.Some? {
        Emit(NodeName(id) + " -> " + NodeName(parent.value), EdgeDecl(id, parent.value));
      }
      ghost var l1 := lines;
      assert l1 == l0 + Head(node, id, parent);
      RecChildren(node, id);
      TreeLinesSplit(node, id, parent);
      Regroup(l0, Head(node, id, parent), Lines(node.children, id + 1, Some(id)), TreeLines(node, id, parent), l1, lines);
    }

    /** The loop of `rec` over the tables nested in `node`, whose node is `id`. */
    method RecChildren(node: Table, id: nat)
      requires Rendered() && idx == id + 1
      modifies this
      ensures idx == old(idx) + Count(node.children)
      ensures lines == old(lines) + Lines(node.children, id + 1, Some(id)) && Rendered()
      decreases node, 0
    {
      var kids := node.children;
      ghost var l0 := lines;
      assert kids[..0] == [];
      for i := 0 to |kids|
        invariant idx == id + 1 + Count(kids[..i])
        invariant lines == l0 + Lines(kids[..i], id + 1, Some(id)) && Rendered()
      {
        ghost var before, k := lines, idx;
        LinesSnoc(kids, i, id + 1, Some(id), k);
        Rec(kids[i], Some(id));
        Regroup(l0, Lines(kids[..i], id + 1, Some(id)), TreeLines(kids[i], k, Some(id)),
          Lines(kids[..i + 1], id + 1, Some(id)), before, lines);
      }
      assert kids[..|kids|] == kids;
    }
  }

  /** `hierarchy_to_graphviz`. */
  method HierarchyToGraphviz(roots: seq<Table>) returns (s: string)
    ensures s == Graphviz(roots)
  {
    var w := new DotWriter();
    assert roots[..0] == [];
    for i := 0 to |roots|
      invariant w.idx == Count(roots[..i])
      invariant w.lines == Lines(roots[..i], 0, None) && w.Rendered()
    {
      ghost var before, k := w.lines, w.idx;
      LinesSnoc(roots, i, 0, None, k);
      w.Rec(roots[i], None);
      Regroup([], Lines(roots[..i], 0, None), TreeLines(roots[i], k, None),
        Lines(roots[..i + 1], 0, None), before, w.lines);
    }
    assert roots[..|roots|] == roots;
    RenderedAll(w.result, w.lines);
    var all := w.result + ["}"];
    s := Strings.Join(all, "\n");
  }
}
