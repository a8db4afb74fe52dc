/**
 * The relational layout of scripts/json-to-sqlite3.py (`generate_create_table_from_schema`):
 * every flattened column path is cut at its list indices into groups, one table per group;
 * the tables are created in the order in which the paths, sorted by their number of groups,
 * first mention them; each table but the main one records the table it hangs under; and
 * each table becomes a `CREATE TABLE` statement.
 *
 * The order in which `flatten_schema` yields the columns depends on the order of the keys of
 * the schema's dicts, which comes from a set union; it is an input here (`cols`), required to
 * list exactly the flattened columns.
 */
module SqlLayout {
  import opened Base
  import opened Seqs
  import Strings
  import StableSort
  import opened JsonSchema

  /** One element of a `graph_path`: a table and the dict keys that lead to the column inside it. */
  datatype Group = Group(table: string, keys: seq<string>)

  /** A column's `graph_path`, main table first, with the column's type. */
  datatype GraphPath = GraphPath(groups: seq<Group>, colType: ColType)

  /** A field of a table: its name (empty for a list of leaves) and its type. */
  datatype Field = Field(name: string, colType: ColType)

  /** The `tables` dict (its keys in insertion order and its field lists) and `parent_graph`. */
  datatype Tables = Tables(order: seq<string>, fields: map<string, seq<Field>>, parent: map<string, Option<string>>)

  // ---------------------------------------------------------------------------
  // Grouping a column path
  // ---------------------------------------------------------------------------

  /** `str(x)` for a path component. */
  function StepText(s: Step): string
  {
    match s
    case Key(k) => k
    case Index(i) => Strings.NatToString(i)
  }

  /** The table opened by a list index that follows `prefix`. */
  function TableName(main: string, prefix: seq<Step>): (name: string)
    ensures |name| > |main| && name[..|main|] == main
  {
    main + Strings.Joiner + Strings.Join(StepTexts(prefix), Strings.Joiner)
  }

  function StepTexts(prefix: seq<Step>): (r: seq<string>)
    ensures |r| == |prefix|
  {
    seq(|prefix|, i requires 0 <= i < |prefix| => StepText(prefix[i]))
  }

  /** The `graph_path` of a column path, one component at a time. */
  function Grouped(main: string, path: seq<Step>): (g: seq<Group>)
    ensures |g| >= 1 && g[0].table == main
    ensures forall k :: 0 < k < |g| ==> g[k].table != main
  {
    if path == [] then [Group(main, [])]
    else
      var g := Grouped(main, path[..|path| - 1]);
      var last := g[|g| - 1];
      match path[|path| - 1]
      case Key(k) => g[..|g| - 1] + [Group(last.table, last.keys + [k])]
      case Index(_) => g + [Group(TableName(main, path[..|path| - 1]), [])]
  }

  /** The loop that builds one `graph_path`. */
  method GroupPath(main: string, path: seq<Step>) returns (g: seq<Group>)
    ensures g == Grouped(main, path)
  {
    g := [Group(main, [])];
    for idx := 0 to |path|
      invariant g == Grouped(main, path[..idx])
    {
      assert path[..idx + 1][..idx] == path[..idx];
      match path[idx]
      case Index(_) =>
        g := g + [Group(TableName(main, path[..idx]), [])];
      case Key(k) =>
        var last := g[|g| - 1];
        g := g[..|g| - 1] + [Group(last.table, last.keys + [k])];
    }
    assert path[..|path|] == path;
  }

  /** The position of the last list index of a path, if it has one. */
  function LastIndex(path: seq<Step>): (r: Option<nat>)
    ensures r.Some? ==> r.value < |path| && path[r.value].Index?
  {
    if path == [] then None
    else if path[|path| - 1].Index? then Some(|path| - 1)
    else LastIndex(path[..|path| - 1])
  }

  /** Only dict keys follow the last list index; a path without one is all dict keys. */
  lemma {:induction false} LastIndexIsLast(path: seq<Step>)
    ensures LastIndex(path).Some? ==> forall j :: LastIndex(path).value < j < |path| ==> path[j].Key?
    ensures LastIndex(path).None? ==> forall j :: 0 <= j < |path| ==> path[j].Key?
    decreases |path|
  {
    if path != [] && path[|path| - 1].Key? {
      var init := path[..|path| - 1];
      LastIndexIsLast(init);
      assert forall j :: 0 <= j < |init| ==> path[j] == init[j];
    }
  }

  /** The dict keys of a path, in order. */
  function KeyNames(path: seq<Step>): seq<string>
  {
    if path == [] then []
    else KeyNames(path[..|path| - 1]) + (if path[|path| - 1].Key? then [path[|path| - 1].name] else [])
  }

  /** The number of list indices in a path. */
  function IndexCount(path: seq<Step>): nat
  {
    if path == [] then 0
    else IndexCount(path[..|path| - 1]) + (if path[|path| - 1].Index? then 1 else 0)
  }

  /** A path has one group per list index, after the main table's. */
  lemma {:induction false} GroupedCount(main: string, path: seq<Step>)
    ensures |Grouped(main, path)| == 1 + IndexCount(path)
    decreases |path|
  {
    if path != [] {
      GroupedCount(main, path[..|path| - 1]);
    }
  }

  /** The group that receives the column: the last of its `graph_path`. */
  function LastGroup(main: string, path: seq<Step>): Group
  {
    var g := Grouped(main, path);
    g[|g| - 1]
  }

  /** A column whose path holds no list index lands in the main table, named by its keys. */
  lemma {:induction false} GroupedNoIndex(main: string, path: seq<Step>)
    requires LastIndex(path).None?
    ensures LastGroup(main, path) == Group(main, KeyNames(path))
    decreases |path|
  {
    if path != [] {
      GroupedNoIndex(main, path[..|path| - 1]);
    }
  }

  /**
   * Otherwise it lands in the table named after the path before its last list index, and
   * its name is made of the dict keys after that index.
   */
  lemma {:induction false} GroupedAfterIndex(main: string, path: seq<Step>)
    requires LastIndex(path).Some?
    ensures LastGroup(main, path) ==
      Group(TableName(main, path[..LastIndex(path).value]), KeyNames(path[LastIndex(path).value + 1..]))
    decreases |path|
  {
    var init, step := path[..|path| - 1], path[|path| - 1];
    if step.Key? {
      GroupedAfterIndex(main, init);
      KeysAfterIndex(path, LastIndex(init).value);
    } else {
      assert path[|path|..] == [];
    }
  }

  lemma KeysAfterIndex(path: seq<Step>, li: nat)
    requires li < |path| - 1 && path[|path| - 1].Key?
    ensures KeyNames(path[li + 1..]) == KeyNames(path[..|path| - 1][li + 1..]) + [path[|path| - 1].name]
    ensures path[..li] == path[..|path| - 1][..li]
  {
    var suffix := path[li + 1..];
    assert suffix[..|suffix| - 1] == path[..|path| - 1][li + 1..];
  }

  /** The `graph_paths` list: the grouping of each column, in the order given. */
  function GraphPaths(main: string, cols: seq<Column>): seq<GraphPath>
  {
    seq(|cols|, i requires 0 <= i < |cols| => GraphPath(Grouped(main, cols[i].path), cols[i].colType))
  }

  /** The loop over the flattened columns that fills `graph_paths`. */
  method GroupPaths(main: string, cols: seq<Column>) returns (gps: seq<GraphPath>)
    ensures gps == GraphPaths(main, cols)
  {
    gps := [];
    for i := 0 to |cols|
      invariant gps == GraphPaths(main, cols[..i])
    {
      var g := GroupPath(main, cols[i].path);
      assert cols[..i + 1][..i] == cols[..i];
      gps := gps + [GraphPath(g, cols[i].colType)];
    }
    assert cols[..|cols|] == cols;
  }

  // ---------------------------------------------------------------------------
  // Sorting by depth
  // ---------------------------------------------------------------------------

  /** The sort key `len(x[0])` of `sorted`, as a strict order. */
  predicate FewerGroups(a: GraphPath, b: GraphPath)
  {
    |a.groups| < |b.groups|
  }

  /** `sorted(graph_paths, key=lambda x: len(x[0]))`: Python's sort is stable. */
  function SortByDepth(gps: seq<GraphPath>): seq<GraphPath>
  {
    StableSort.Sort(gps, FewerGroups)
  }

  function AtDepth(d: nat): GraphPath -> bool
  {
    (gp: GraphPath) => |gp.groups| == d
  }

  /**
   * The sort is a permutation, orders the paths by their number of groups, and keeps the
   * paths of each depth in their original order.
   */
  lemma SortByDepthSpec(gps: seq<GraphPath>, d: nat)
    ensures multiset(SortByDepth(gps)) == multiset(gps)
    ensures forall i :: 0 < i < |SortByDepth(gps)| ==> |SortByDepth(gps)[i - 1].groups| <= |SortByDepth(gps)[i].groups|
    ensures StableSort.Filter(SortByDepth(gps), AtDepth(d)) == StableSort.Filter(gps, AtDepth(d))
  {
    StableSort.SortPermutes(gps, FewerGroups);
    StableSort.SortOrdered(gps, FewerGroups);
    StableSort.SortStable(gps, FewerGroups, AtDepth(d));
  }

  // ---------------------------------------------------------------------------
  // Preparing the tables
  // ---------------------------------------------------------------------------

  /**
   * What the preparation loop meets at one group of one path: the group's table, the table
   * of the group before it in the same path (`inner`), and, at the path's last group, the
   * field the column adds.
   */
  datatype Edge = Edge(table: string, inner: Option<string>, field: Option<Field>)

  /** The name of a column inside its table: its keys joined, possibly empty. */
  function FieldName(keys: seq<string>): string
  {
    Strings.Join(keys, Strings.Joiner)
  }

  /** The loop's view of group `idx` of a path. */
  function EdgeAt(gp: GraphPath, idx: nat): Edge
    requires idx < |gp.groups|
  {
    var gs := gp.groups;
    Edge(gs[idx].table,
         if idx == 0 then None else Some(gs[idx - 1].table),
         if idx + 1 == |gs| then Some(Field(FieldName(gs[idx].keys), gp.colType)) else None)
  }

  function PathEdges(gp: GraphPath): (es: seq<Edge>)
    ensures |es| == |gp.groups|
  {
    seq(|gp.groups|, idx requires 0 <= idx < |gp.groups| => EdgeAt(gp, idx))
  }

  /** All groups of all paths, in the order in which the loop meets them. */
  function Edges(gps: seq<GraphPath>): seq<Edge>
  {
    if gps == [] then [] else Edges(gps[..|gps| - 1]) + PathEdges(gps[|gps| - 1])
  }

  /** One iteration of the inner loop: create the table if it is new, then add the field. */
  function AddEdge(t: Tables, e: Edge): Tables
  {
    var t1 :=
      if e.table in t.fields then t
      else Tables(t.order + [e.table], t.fields[e.table := []], t.parent[e.table := e.inner]);
    match e.field
    case None => t1
    case Some(f) => t1.(fields := t1.fields[e.table := t1.fields[e.table] + [f]])
  }

  /** The tables after the loop has met the groups `es`. */
  function Prepare(es: seq<Edge>): Tables
  {
    if es == [] then Tables([], map[], map[]) else AddEdge(Prepare(es[..|es| - 1]), es[|es| - 1])
  }

  lemma PrepareSnoc(es: seq<Edge>, e: Edge)
    ensures Prepare(es + [e]) == AddEdge(Prepare(es), e)
    ensures LastTable(es + [e]) == Some(e.table)
  {
    assert (es + [e])[..|es|] == es;
  }

  /** The stale loop variable `table` after the loop: the last table met, if any. */
  function LastTable(es: seq<Edge>): Option<string>
  {
    if es == [] then None else Some(es[|es| - 1].table)
  }

  function TableSeq(es: seq<Edge>): seq<string>
  {
    seq(|es|, i requires 0 <= i < |es| => es[i].table)
  }

  /** The fields the groups `es` add to table `t`, in order. */
  function FieldsOf(es: seq<Edge>, t: string): seq<Field>
  {
    if es == [] then []
    else
      var e := es[|es| - 1];
      FieldsOf(es[..|es| - 1], t) + (if e.table == t && e.field.Some? then [e.field.value] else [])
  }

  lemma TableSeqInit(es: seq<Edge>)
    requires es != []
    ensures TableSeq(es) == TableSeq(es[..|es| - 1]) + [es[|es| - 1].table]
    ensures TableSeq(es)[..|es| - 1] == TableSeq(es[..|es| - 1])
  {
  }

  /**
   * The tables are created in the order in which the groups first mention them, and they
   * are exactly the tables of the groups.
   */
  lemma {:induction false} PrepareOrder(es: seq<Edge>)
    ensures Prepare(es).order == FirstOccurrences(TableSeq(es))
    ensures Prepare(es).fields.Keys == Prepare(es).parent.Keys
    ensures forall t :: t in Prepare(es).fields ==> t in TableSeq(es)
    ensures forall t :: t in TableSeq(es) ==> t in Prepare(es).fields
    decreases |es|
  {
    if es != [] {
      var init := es[..|es| - 1];
      PrepareOrder(init);
      TableSeqInit(es);
      FirstOccurrencesMembers(TableSeq(init));
    }
  }

  /** A table's fields are those its groups add, in order. */
  lemma {:induction false} PrepareFields(es: seq<Edge>)
    ensures forall t :: t in Prepare(es).fields ==> Prepare(es).fields[t] == FieldsOf(es, t)
    decreases |es|
  {
    if es != [] {
      var init, e := es[..|es| - 1], es[|es| - 1];
      PrepareFields(init);
      PrepareOrder(init);
      TableSeqInit(es);
      if e.table !in Prepare(init).fields {
        FieldsOfAbsent(init, e.table);
      }
    }
  }

  lemma {:induction false} FieldsOfAbsent(es: seq<Edge>, t: string)
    requires t !in TableSeq(es)
    ensures FieldsOf(es, t) == []
    decreases |es|
  {
    if es != [] {
      TableSeqInit(es);
      FieldsOfAbsent(es[..|es| - 1], t);
    }
  }

  /** A table's parent is the table before it in the group that first mentions it. */
  lemma {:induction false} PrepareParent(es: seq<Edge>)
    ensures forall t :: t in Prepare(es).parent ==> t in TableSeq(es) && Prepare(es).parent[t] == es[IndexOf(TableSeq(es), t)].inner
    decreases |es|
  {
    if es != [] {
      var init, e := es[..|es| - 1], es[|es| - 1];
      PrepareParent(init);
      PrepareOrder(init);
      TableSeqInit(es);
      var ts, ts' := TableSeq(es), TableSeq(init);
      var t := Prepare(es);
      forall x | x in t.parent ensures x in ts && t.parent[x] == es[IndexOf(ts, x)].inner {
        if x in Prepare(init).parent {
          IndexOfPrefix(ts, |es| - 1, x);
          assert es[IndexOf(ts', x)] == init[IndexOf(ts', x)];
        } else {
          assert x == e.table;
          assert forall j :: 0 <= j < |es| - 1 ==> ts[j] == ts'[j] != x;
          assert IndexOf(ts, x) == |es| - 1;
        }
      }
    }
  }

  /** The tables after the loop has met the groups `es`, starting from `t`. */
  function AddEdges(t: Tables, es: seq<Edge>): Tables
  {
    if es == [] then t else AddEdge(AddEdges(t, es[..|es| - 1]), es[|es| - 1])
  }

  lemma {:induction false} PrepareAppend(done: seq<Edge>, es: seq<Edge>)
    ensures Prepare(done + es) == AddEdges(Prepare(done), es)
    decreases |es|
  {
    if es == [] {
      assert done + es == done;
    } else {
      PrepareAppend(done, es[..|es| - 1]);
      assert (done + es)[..|done + es| - 1] == done + es[..|es| - 1];
    }
  }

  /** The loops that fill `tables` and `parent_graph`, and leave `table` behind. */
  method PrepareTables(gps: seq<GraphPath>) returns (tables: Tables, table: Option<string>)
    ensures tables == Prepare(Edges(gps))
    ensures table == LastTable(Edges(gps))
  {
    tables := Tables([], map[], map[]);
    table := None;
    for i := 0 to |gps|
      invariant tables == Prepare(Edges(gps[..i]))
      invariant table == LastTable(Edges(gps[..i]))
    {
      assert gps[..i + 1][..i] == gps[..i];
      ghost var done := Edges(gps[..i]);
      PrepareAppend(done, PathEdges(gps[i]));
      tables, table := AddPath(tables, table, gps[i]);
    }
    assert gps[..|gps|] == gps;
  }

  /** The body of the inner loop: create the group's table if it is new, then add the field. */
  method MeetGroup(order: seq<string>, fields: map<string, seq<Field>>, parent: map<string, Option<string>>,
                   t: string, inner: Option<string>, field: Option<Field>)
    returns (order': seq<string>, fields': map<string, seq<Field>>, parent': map<string, Option<string>>)
    ensures Tables(order', fields', parent') == AddEdge(Tables(order, fields, parent), Edge(t, inner, field))
  {
    order', fields', parent' := order, fields, parent;
    if t !in fields' {
      order' := order' + [t];
      fields' := fields'[t := []];
      parent' := parent'[t := inner];
    }
    if field.Some? {
      fields' := fields'[t := fields'[t] + [field.value]];
    }
  }

  lemma MeetGroupStep(t0: Tables, gp: GraphPath, idx: nat)
    requires idx < |gp.groups|
    ensures AddEdges(t0, PathEdges(gp)[..idx + 1]) == AddEdge(AddEdges(t0, PathEdges(gp)[..idx]), EdgeAt(gp, idx))
  {
    var es := PathEdges(gp);
    assert es[..idx + 1][..idx] == es[..idx];
  }

  /** The inner loop, over the groups of one path. */
  method AddPath(t0: Tables, table0: Option<string>, gp: GraphPath) returns (tables: Tables, table: Option<string>)
    ensures tables == AddEdges(t0, PathEdges(gp))
    ensures table == if gp.groups == [] then table0 else Some(gp.groups[|gp.groups| - 1].table)
  {
    var order, fields, parent := t0.order, t0.fields, t0.parent;
    table := table0;
    var gs := gp.groups;
    var inner: Option<string> := None;
    for idx := 0 to |gs|
      invariant Tables(order, fields, parent) == AddEdges(t0, PathEdges(gp)[..idx])
      invariant inner == (if idx == 0 then None else Some(gs[idx - 1].table)) && table == (if idx == 0 then table0 else inner)
    {
      var t := gs[idx].table;
      MeetGroupStep(t0, gp, idx);
      order, fields, parent := MeetGroup(order, fields, parent, t, inner,
        if idx + 1 == |gs| then Some(Field(FieldName(gs[idx].keys), gp.colType)) else None);
      inner := Some(t);
      table := Some(t);
    }
    assert PathEdges(gp)[..|gs|] == PathEdges(gp);
    tables := Tables(order, fields, parent);
  }

  // ---------------------------------------------------------------------------
  // Parents
  // ---------------------------------------------------------------------------

  /** Every path starts at the main table, and only there. */
  ghost predicate Rooted(gps: seq<GraphPath>, main: string)
  {
    forall i :: 0 <= i < |gps| ==> RootedPath(gps[i], main)
  }

  ghost predicate RootedPath(gp: GraphPath, main: string)
  {
    |gp.groups| >= 1 && gp.groups[0].table == main &&
    forall k :: 0 < k < |gp.groups| ==> gp.groups[k].table != main
  }

  lemma RootedPaths(main: string, cols: seq<Column>)
    ensures Rooted(SortByDepth(GraphPaths(main, cols)), main)
  {
    var gps := GraphPaths(main, cols);
    var sorted := SortByDepth(gps);
    StableSort.SortPermutes(gps, FewerGroups);
    forall i | 0 <= i < |sorted| ensures RootedPath(sorted[i], main) {
      assert sorted[i] in multiset(gps);
      var j :| 0 <= j < |gps| && gps[j] == sorted[i];
    }
  }

  /**
   * In the loop's sequence of groups, a group has no inner table exactly when it is the
   * main table's, and otherwise its inner table is that of the group just before it.
   */
  lemma {:induction false} EdgesShape(gps: seq<GraphPath>, main: string)
    requires Rooted(gps, main)
    ensures forall i :: 0 <= i < |Edges(gps)| && Edges(gps)[i].inner.None? ==> Edges(gps)[i].table == main
    ensures forall i :: 0 <= i < |Edges(gps)| && Edges(gps)[i].table == main ==> Edges(gps)[i].inner.None?
    ensures forall i :: 0 <= i < |Edges(gps)| && Edges(gps)[i].inner.Some? ==>
      0 < i && Edges(gps)[i].inner.value == Edges(gps)[i - 1].table
    decreases |gps|
  {
    if gps != [] {
      var init, gp := gps[..|gps| - 1], gps[|gps| - 1];
      EdgesShape(init, main);
      var es, es', pe := Edges(gps), Edges(init), PathEdges(gp);
      assert es == es' + pe;
      assert RootedPath(gp, main);
      forall i | |es'| <= i < |es| ensures es[i] == pe[i - |es'|] == EdgeAt(gp, i - |es'|) {
      }
      forall i | |es'| < i < |es| && es[i].inner.Some? ensures es[i].inner.value == es[i - 1].table {
        assert es[i - 1] == EdgeAt(gp, i - 1 - |es'|);
      }
    }
  }

  /** Only the main table has no parent. */
  lemma ParentlessIsMain(gps: seq<GraphPath>, main: string)
    requires Rooted(gps, main)
    ensures forall x :: x in Prepare(Edges(gps)).parent && Prepare(Edges(gps)).parent[x].None? ==> x == main
    ensures forall x :: x in Prepare(Edges(gps)).parent && x == main ==> Prepare(Edges(gps)).parent[x].None?
  {
    EdgesShape(gps, main);
    PrepareParent(Edges(gps));
  }

  /** Every other table's parent is a table created before it. */
  lemma ParentsPrecede(gps: seq<GraphPath>, main: string)
    requires Rooted(gps, main)
    ensures forall x :: x in Prepare(Edges(gps)).parent && Prepare(Edges(gps)).parent[x].Some? ==>
      Prepare(Edges(gps)).parent[x].value in Prepare(Edges(gps)).order &&
      x in Prepare(Edges(gps)).order &&
      IndexOf(Prepare(Edges(gps)).order, Prepare(Edges(gps)).parent[x].value) < IndexOf(Prepare(Edges(gps)).order, x)
  {
    var es := Edges(gps);
    var t := Prepare(es);
    var ts := TableSeq(es);
    EdgesShape(gps, main);
    PrepareParent(es);
    PrepareOrder(es);
    forall x | x in t.parent && t.parent[x].Some?
      ensures t.parent[x].value in t.order && x in t.order && IndexOf(t.order, t.parent[x].value) < IndexOf(t.order, x)
    {
      ParentPrecedes(es, ts, x, t.parent[x].value);
    }
  }

  lemma ParentPrecedes(es: seq<Edge>, ts: seq<string>, x: string, p: string)
    requires ts == TableSeq(es) && x in ts
    requires es[IndexOf(ts, x)].inner == Some(p)
    requires forall i :: 0 <= i < |es| && es[i].inner.Some? ==> 0 < i && es[i].inner.value == es[i - 1].table
    ensures p in FirstOccurrences(ts) && x in FirstOccurrences(ts)
    ensures IndexOf(FirstOccurrences(ts), p) < IndexOf(FirstOccurrences(ts), x)
  {
    var i := IndexOf(ts, x);
    assert ts[i - 1] == p;
    assert IndexOf(ts, p) <= i - 1;
    FirstOccurrencesIndexOrder(ts, p, x);
  }

  // ---------------------------------------------------------------------------
  // CREATE TABLE statements
  // ---------------------------------------------------------------------------

  /** The SQL type written for a column type. */
  function TypeName(c: ColType): string
  {
    match c
    case Text => "TEXT"
    case Number => "NUMBER"
  }

  /** `field or "__value__"`: a list of leaves stores its items in a field named `__value__`. */
  function ShownName(name: string): string
  {
    if name == "" then "__value__" else name
  }

  /** The line of a field, marked as the primary key when it is `pk_col` of the main table. */
  function FieldLine(tab: string, f: Field, main: string, pk: string): string
  {
    ShownName(f.name) + " " + TypeName(f.colType) + (if tab == main && f.name == pk then " PRIMARY KEY" else "")
  }

  function Header(tab: string): string
  {
    "CREATE TABLE " + tab + " ("
  }

  /** `'{}'.format(x)` for a parent entry: a table name, or `None`. */
  function RefText(ref: Option<string>): string
  {
    match ref
    case None => "None"
    case Some(t) => t
  }

  function ForeignKey(ref: Option<string>): string
  {
    "FOREIGN KEY(__parent__) REFERENCES " + RefText(ref) + "(rowid)"
  }

  function FieldLines(tab: string, fs: seq<Field>, main: string, pk: string): (ls: seq<string>)
    ensures |ls| == |fs|
  {
    seq(|fs|, i requires 0 <= i < |fs| => FieldLine(tab, fs[i], main, pk))
  }

  /** `tab_ddl[-1] += ','`. */
  function WithComma(ls: seq<string>): (r: seq<string>)
    ensures |r| == |ls|
  {
    if ls == [] then [] else ls[..|ls| - 1] + [ls[|ls| - 1] + ","]
  }

  /** The lines as the loop appends them, each one closing the line before with a comma. */
  function Commas(ls: seq<string>): (r: seq<string>)
    ensures |r| == |ls|
  {
    if |ls| <= 1 then ls else WithComma(Commas(ls[..|ls| - 1])) + [ls[|ls| - 1]]
  }

  /** Every line but the last ends up followed by a comma. */
  lemma {:induction false} CommasSpec(ls: seq<string>)
    ensures forall i :: 0 <= i < |ls| ==> Commas(ls)[i] == ls[i] + (if i + 1 < |ls| then "," else "")
    decreases |ls|
  {
    if |ls| > 1 {
      var init := ls[..|ls| - 1];
      CommasSpec(init);
      forall i | 0 <= i < |ls| ensures Commas(ls)[i] == ls[i] + (if i + 1 < |ls| then "," else "") {
        if i + 1 < |ls| - 1 {
          assert Commas(ls)[i] == Commas(init)[i];
        }
      }
    }
  }

  /** The statement of one table, line by line. */
  function TableLines(tab: string, fs: seq<Field>, main: string, pk: string, ref: Option<string>): seq<string>
  {
    var body := [Header(tab)] + Commas(FieldLines(tab, fs, main, pk));
    if tab == main then body + [");"]
    else WithComma(body) + ["__parent__ INT,", ForeignKey(ref), ");"]
  }

  /**
   * The frame of a statement: the header (which takes the comma of a table without fields
   * that is not the main table), then one line per field, then, for any table but the main
   * one, the `__parent__` column and its foreign key, then the closing line.
   */
  lemma TableLinesFrame(tab: string, fs: seq<Field>, main: string, pk: string, ref: Option<string>)
    ensures |TableLines(tab, fs, main, pk, ref)| == |fs| + (if tab == main then 2 else 4)
    ensures TableLines(tab, fs, main, pk, ref)[0] == Header(tab) + (if tab != main && fs == [] then "," else "")
    ensures tab != main ==> TableLines(tab, fs, main, pk, ref)[|fs| + 1] == "__parent__ INT,"
    ensures tab != main ==> TableLines(tab, fs, main, pk, ref)[|fs| + 2] == ForeignKey(ref)
    ensures TableLines(tab, fs, main, pk, ref)[|TableLines(tab, fs, main, pk, ref)| - 1] == ");"
  {
    var body := [Header(tab)] + Commas(FieldLines(tab, fs, main, pk));
    if tab != main {
      WithCommaSpec(body);
    }
  }

  /** The fields' lines, in order, each closed by a comma unless it is the main table's last. */
  lemma TableLinesFields(tab: string, fs: seq<Field>, main: string, pk: string, ref: Option<string>)
    ensures |TableLines(tab, fs, main, pk, ref)| > |fs|
    ensures forall i :: 0 <= i < |fs| ==>
      TableLines(tab, fs, main, pk, ref)[i + 1] == FieldLine(tab, fs[i], main, pk) + (if i + 1 < |fs| || tab != main then "," else "")
  {
    var fl := FieldLines(tab, fs, main, pk);
    var body := [Header(tab)] + Commas(fl);
    var lines := TableLines(tab, fs, main, pk, ref);
    CommasSpec(fl);
    if tab != main {
      WithCommaSpec(body);
    }
    forall i | 0 <= i < |fs|
      ensures lines[i + 1] == FieldLine(tab, fs[i], main, pk) + (if i + 1 < |fs| || tab != main then "," else "")
    {
      assert body[i + 1] == fl[i] + (if i + 1 < |fs| then "," else "");
      if tab == main {
        assert lines[i + 1] == body[i + 1];
      } else {
        assert lines[i + 1] == body[i + 1] + (if i + 1 == |fs| then "," else "");
      }
    }
  }

  lemma WithCommaSpec(ls: seq<string>)
    ensures forall i :: 0 <= i < |ls| ==> WithComma(ls)[i] == ls[i] + (if i + 1 == |ls| then "," else "")
  {
  }

  predicate EndsWith(s: string, suffix: string)
  {
    |suffix| <= |s| && s[|s| - |suffix|..] == suffix
  }

  /** A field line that declares the primary key. */
  predicate Keyed(line: string)
  {
    EndsWith(line, " PRIMARY KEY") || EndsWith(line, " PRIMARY KEY,")
  }

  /** Exactly the lines of the main table's fields named `pk_col` declare the primary key. */
  lemma PrimaryKeyLines(tab: string, fs: seq<Field>, main: string, pk: string, ref: Option<string>)
    ensures |TableLines(tab, fs, main, pk, ref)| > |fs|
    ensures forall k :: 1 <= k <= |fs| ==>
      (Keyed(TableLines(tab, fs, main, pk, ref)[k]) <==> tab == main && fs[k - 1].name == pk)
  {
    TableLinesFields(tab, fs, main, pk, ref);
    forall k | 1 <= k <= |fs|
      ensures Keyed(TableLines(tab, fs, main, pk, ref)[k]) <==> tab == main && fs[k - 1].name == pk
    {
      KeyedFieldLine(tab, fs, main, pk, ref, k - 1);
    }
  }

  lemma KeyedFieldLine(tab: string, fs: seq<Field>, main: string, pk: string, ref: Option<string>, i: nat)
    requires i < |fs|
    ensures |TableLines(tab, fs, main, pk, ref)| > i + 1
    ensures Keyed(TableLines(tab, fs, main, pk, ref)[i + 1]) <==> tab == main && fs[i].name == pk
  {
    TableLinesFields(tab, fs, main, pk, ref);
    var typeName := TypeName(fs[i].colType);
    var typed := ShownName(fs[i].name) + " " + typeName;
    assert typed[|typed| - 1] == typeName[|typeName| - 1];
    var key := tab == main && fs[i].name == pk;
    var comma := if i + 1 < |fs| || tab != main then "," else "";
    assert TableLines(tab, fs, main, pk, ref)[i + 1] == typed + (if key then " PRIMARY KEY" else "") + comma;
    KeyedLine(typed, key, comma);
  }

  lemma KeyedLine(typed: string, key: bool, comma: string)
    requires |typed| >= 1 && typed[|typed| - 1] in {'T', 'R'}
    requires comma in {"", ","}
    ensures Keyed(typed + (if key then " PRIMARY KEY" else "") + comma) <==> key
  {
    if key {
      KeyedWithKey(typed, comma);
    } else {
      assert typed + "" + comma == typed + comma;
      UnkeyedLine(typed, comma);
    }
  }

  lemma KeyedWithKey(typed: string, comma: string)
    requires comma in {"", ","}
    ensures Keyed(typed + " PRIMARY KEY" + comma)
  {
    var line := typed + " PRIMARY KEY" + comma;
    if comma == "" {
      assert line[|line| - 12..] == " PRIMARY KEY";
    } else {
      assert line[|line| - 13..] == " PRIMARY KEY,";
    }
  }

  lemma UnkeyedLine(typed: string, comma: string)
    requires |typed| >= 1 && typed[|typed| - 1] in {'T', 'R'}
    requires comma in {"", ","}
    ensures !Keyed(typed + comma)
  {
    var line := typed + comma;
    if comma == "" {
      assert line[|line| - 1] == typed[|typed| - 1];
      assert line[|line| - 1] != " PRIMARY KEY"[11];
      assert |line| < 13 || line[|line| - 1] != " PRIMARY KEY,"[12];
    } else {
      assert line[|line| - 2] == typed[|typed| - 1];
      assert line[|line| - 1] != " PRIMARY KEY"[11];
      assert |line| < 13 || line[|line| - 2] != " PRIMARY KEY,"[11];
    }
  }

  /** The loop that writes one table's statement, with its `first` flag. */
  method TableDdl(tab: string, fs: seq<Field>, main: string, pk: string, ref: Option<string>) returns (lines: seq<string>)
    ensures lines == TableLines(tab, fs, main, pk, ref)
  {
    lines := [Header(tab)];
    var first := true;
    for j := 0 to |fs|
      invariant first <==> j == 0
      invariant lines == [Header(tab)] + Commas(FieldLines(tab, fs[..j], main, pk))
    {
      if !first {
        lines := WithComma(lines);
      } else {
        first := false;
      }
      var notes := if tab == main && fs[j].name == pk then " PRIMARY KEY" else "";
      lines := lines + [ShownName(fs[j].name) + " " + TypeName(fs[j].colType) + notes];
      FieldLinesStep(tab, fs, main, pk, j);
    }
    assert fs[..|fs|] == fs;
    if tab != main {
      lines := WithComma(lines);
      lines := lines + ["__parent__ INT,", ForeignKey(ref)];
    }
    lines := lines + [");"];
  }

  lemma FieldLinesStep(tab: string, fs: seq<Field>, main: string, pk: string, j: nat)
    requires j < |fs|
    ensures [Header(tab)] + Commas(FieldLines(tab, fs[..j + 1], main, pk)) ==
      (if j == 0 then [Header(tab)] else WithComma([Header(tab)] + Commas(FieldLines(tab, fs[..j], main, pk))))
      + [FieldLine(tab, fs[j], main, pk)]
  {
    var before, after := FieldLines(tab, fs[..j], main, pk), FieldLines(tab, fs[..j + 1], main, pk);
    FieldLinesSnoc(tab, fs, main, pk, j);
    if j > 0 {
      WithCommaCons(Header(tab), Commas(before));
    }
  }

  lemma FieldLinesSnoc(tab: string, fs: seq<Field>, main: string, pk: string, j: nat)
    requires j < |fs|
    ensures FieldLines(tab, fs[..j + 1], main, pk)[..j] == FieldLines(tab, fs[..j], main, pk)
    ensures FieldLines(tab, fs[..j + 1], main, pk)[j] == FieldLine(tab, fs[j], main, pk)
  {
  }

  lemma WithCommaCons(h: string, c: seq<string>)
    requires c != []
    ensures WithComma([h] + c) == [h] + WithComma(c)
  {
    assert ([h] + c)[..|c|] == [h] + c[..|c| - 1];
  }

  /** The tables the loop lists all have fields and a parent entry. */
  ghost predicate Consistent(t: Tables)
  {
    forall x :: x in t.order ==> x in t.fields && x in t.parent
  }

  /** The statements, line by line, with each table referencing its own parent. */
  function DdlLines(t: Tables, main: string, pk: string): (d: seq<seq<string>>)
    requires Consistent(t)
    ensures |d| == |t.order|
  {
    seq(|t.order|, i requires 0 <= i < |t.order| => OwnLines(t, t.order[i], main, pk))
  }

  /** The statement of one table, referencing its own parent. */
  function OwnLines(t: Tables, tab: string, main: string, pk: string): seq<string>
    requires tab in t.fields && tab in t.parent
  {
    TableLines(tab, t.fields[tab], main, pk, t.parent[tab])
  }

  /**
   * The statements as the loop writes them: every table references the parent of `stale`,
   * the table the preparation loop met last; the `assert table in parent_graph` fails when
   * there is none.
   */
  function DdlLinesAsWritten(t: Tables, stale: Option<string>, main: string, pk: string): (r: Result<seq<seq<string>>, Exc>)
    requires Consistent(t)
    ensures r.Ok? ==> |r.value| == |t.order|
  {
    if !Known(t, stale) && exists x :: x in t.order && x != main then Raise(AssertionError)
    else Ok(StaleLines(t, stale, main, pk))
  }

  /** `table in parent_graph`: the preparation loop met some table. */
  predicate Known(t: Tables, stale: Option<string>)
  {
    stale.Some? && stale.value in t.parent
  }

  /** The parent every foreign key names as written: `parent_graph[table]`. */
  function StaleRef(t: Tables, stale: Option<string>): Option<string>
  {
    if Known(t, stale) then t.parent[stale.value] else None
  }

  /** Every table's lines, with the foreign key to `StaleRef`. */
  function StaleLines(t: Tables, stale: Option<string>, main: string, pk: string): (d: seq<seq<string>>)
    requires Consistent(t)
    ensures |d| == |t.order|
  {
    seq(|t.order|, i requires 0 <= i < |t.order| => TableLines(t.order[i], t.fields[t.order[i]], main, pk, StaleRef(t, stale)))
  }

  /** The statements as written, or the failed assertion. */
  function StatementsAsWritten(t: Tables, stale: Option<string>, main: string, pk: string): Result<seq<string>, Exc>
    requires Consistent(t)
  {
    match DdlLinesAsWritten(t, stale, main, pk)
    case Raise(e) => Raise(e)
    case Ok(d) => Ok(Statements(d))
  }

  /** `'\n'.join(tab_ddl)` for every table. */
  function Statements(d: seq<seq<string>>): (r: seq<string>)
    ensures |r| == |d|
  {
    seq(|d|, i requires 0 <= i < |d| => Strings.Join(d[i], "\n"))
  }

  /** The tables built from the columns `cols`. */
  function Layout(main: string, cols: seq<Column>): Tables
  {
    Prepare(Edges(SortByDepth(GraphPaths(main, cols))))
  }

  /** The value `table` keeps after the preparation loop. */
  function Stale(main: string, cols: seq<Column>): Option<string>
  {
    LastTable(Edges(SortByDepth(GraphPaths(main, cols))))
  }

  /** Every listed table has fields and a parent entry, and they are listed once each, the main table first. */
  lemma LayoutConsistent(main: string, cols: seq<Column>)
    ensures Consistent(Layout(main, cols))
    ensures NoRepeats(Layout(main, cols).order)
    ensures Layout(main, cols).order != [] ==> Layout(main, cols).order[0] == main
  {
    var es := Edges(SortByDepth(GraphPaths(main, cols)));
    PrepareOrder(es);
    FirstOccurrencesMembers(TableSeq(es));
    FirstOccurrencesNoRepeats(TableSeq(es));
    if es != [] {
      RootedPaths(main, cols);
      EdgesShape(SortByDepth(GraphPaths(main, cols)), main);
      FirstOccurrencesHead(TableSeq(es));
    }
  }

  predicate ValidMainName(main: string)
  {
    '[' !in main && ']' !in main
  }

  /** `generate_create_table_from_schema`, with each table referencing its own parent. */
  function CreateTables(schema: map<string, Schema>, cols: seq<Column>, main: string, pk: string): Result<seq<string>, Exc>
  {
    if !ValidMainName(main) then Raise(AssertionError)
    else if Flatten(schema).Raise? then Raise(Flatten(schema).exc)
    else
      LayoutConsistent(main, cols);
      Ok(Statements(DdlLines(Layout(main, cols), main, pk)))
  }

  /**
   * `generate_create_table_from_schema` as written: every foreign key uses the stale `table`.
   * The corrected version is `CreateTables`.
   */
  function CreateTablesAsWritten(schema: map<string, Schema>, cols: seq<Column>, main: string, pk: string): Result<seq<string>, Exc>
  {
    if !ValidMainName(main) then Raise(AssertionError)
    else if Flatten(schema).Raise? then Raise(Flatten(schema).exc)
    else
      LayoutConsistent(main, cols);
      StatementsAsWritten(Layout(main, cols), Stale(main, cols), main, pk)
  }

  /**
   * The stale `table` does no harm exactly when every nested table has the parent of the
   * last table met: then the program writes the corrected statements.
   */
  lemma AsWrittenWhenOneParent(schema: map<string, Schema>, cols: seq<Column>, main: string, pk: string)
    requires forall x :: x in Layout(main, cols).order && x != main ==>
      x in Layout(main, cols).parent && Layout(main, cols).parent[x] == StaleRef(Layout(main, cols), Stale(main, cols))
    ensures CreateTablesAsWritten(schema, cols, main, pk) == CreateTables(schema, cols, main, pk)
  {
    if ValidMainName(main) && Flatten(schema).Ok? {
      var t, stale := Layout(main, cols), Stale(main, cols);
      LayoutConsistent(main, cols);
      if !Known(t, stale) && exists x :: x in t.order && x != main {
        var x :| x in t.order && x != main;
        RootedPaths(main, cols);
        ParentlessIsMain(SortByDepth(GraphPaths(main, cols)), main);
        assert false;
      }
      assert StaleLines(t, stale, main, pk) == DdlLines(t, main, pk);
    }
  }

  /**
   * `generate_create_table_from_schema`, as written. `cols` is what `flatten_schema` yields,
   * in the order it yields it: that order depends on hashing.
   */
  method GenerateCreateTable(schema: map<string, Schema>, cols: seq<Column>, main: string, pk: string)
    returns (r: Result<seq<string>, Exc>)
    requires Flatten(schema).Ok? ==> forall c :: c in cols <==> c in Flatten(schema).value
    ensures r == CreateTablesAsWritten(schema, cols, main, pk)
  {
    if '[' in main || ']' in main {
      return Raise(AssertionError);
    }
    var flat := Flatten(schema);
    if flat.Raise? {
      return Raise(flat.exc);
    }
    var gps := GroupPaths(main, cols);
    var tables, table := PrepareTables(SortByDepth(gps));
    assert tables == Layout(main, cols) && table == Stale(main, cols);
    LayoutConsistent(main, cols);
    r := WriteStatements(tables, table, main, pk);
  }

  /**
   * The loop over `tables.items()`: each table's lines joined into one statement, every
   * foreign key naming `parent_graph[table]`; a nested table fails the assertion when the
   * preparation loop met no table.
   */
  method WriteStatements(t: Tables, table: Option<string>, main: string, pk: string) returns (r: Result<seq<string>, Exc>)
    requires Consistent(t)
    ensures r == StatementsAsWritten(t, table, main, pk)
  {
    ghost var all := Statements(StaleLines(t, table, main, pk));
    var known := table.Some? && table.value in t.parent;
    var ddl := [];
    for i := 0 to |t.order|
      invariant ddl == all[..i]
      invariant !known ==> forall j :: 0 <= j < i ==> t.order[j] == main
    {
      var tab := t.order[i];
      if tab != main && !known {
        assert tab in t.order;
        return Raise(AssertionError);
      }
      var ref := if known then t.parent[table.value] else None;
      var stmt := WriteStatement(t, tab, main, pk, ref);
      PrefixSnoc(all, i);
      ddl := ddl + [stmt];
    }
    assert all[..|t.order|] == all;
    assert !known ==> forall x :: x in t.order ==> x == main;
    return Ok(ddl);
  }

  /** One iteration: the table's lines, with its foreign key to `ref`, joined. */
  method WriteStatement(t: Tables, tab: string, main: string, pk: string, ref: Option<string>) returns (stmt: string)
    requires tab in t.fields
    ensures stmt == Strings.Join(TableLines(tab, t.fields[tab], main, pk, ref), "\n")
  {
    var lines := TableDdl(tab, t.fields[tab], main, pk, ref);
    stmt := Strings.Join(lines, "\n");
  }


  /** Statement `i` ends with a foreign key to a table whose statement comes before it. */
  ghost predicate ReferencesEarlier(t: Tables, d: seq<seq<string>>, i: nat)
    requires |d| == |t.order| && i < |d|
  {
    |d[i]| >= 2 && exists j :: 0 <= j < i && d[i][|d[i]| - 2] == ForeignKey(Some(t.order[j]))
  }

  /**
   * With each table referencing its own parent, every statement but the main table's
   * references a table created by an earlier statement.
   */
  lemma ForeignKeysPrecede(main: string, cols: seq<Column>, pk: string)
    ensures Consistent(Layout(main, cols))
    ensures forall i :: 0 <= i < |Layout(main, cols).order| && Layout(main, cols).order[i] != main ==>
      ReferencesEarlier(Layout(main, cols), DdlLines(Layout(main, cols), main, pk), i)
  {
    var gps := SortByDepth(GraphPaths(main, cols));
    var t := Layout(main, cols);
    LayoutConsistent(main, cols);
    RootedPaths(main, cols);
    ParentlessIsMain(gps, main);
    ParentsPrecede(gps, main);
    var d := DdlLines(t, main, pk);
    forall i | 0 <= i < |t.order| && t.order[i] != main ensures ReferencesEarlier(t, d, i) {
      var x := t.order[i];
      var p := t.parent[x].value;
      var j := IndexOf(t.order, p);
      assert IndexOf(t.order, x) == i;
      TableLinesFrame(x, t.fields[x], main, pk, t.parent[x]);
      assert d[i][|d[i]| - 2] == ForeignKey(Some(t.order[j]));
    }
  }

  /** A single column `a[0].b[0]` of type text, below the main table `main`. */
  const NestedLists: seq<Column> := [Column([Key("a"), Index(0), Key("b"), Index(0)], Text)]

  /** Grouping one more dict key: it joins the keys of the last group. */
  lemma GroupedKey(main: string, path: seq<Step>, k: string)
    ensures Grouped(main, path + [Key(k)]) == Grouped(main, path)[..|Grouped(main, path)| - 1]
      + [Group(Grouped(main, path)[|Grouped(main, path)| - 1].table, Grouped(main, path)[|Grouped(main, path)| - 1].keys + [k])]
  {
    assert (path + [Key(k)])[..|path|] == path;
  }

  /** Grouping one more list index: it opens a group of its own. */
  lemma GroupedIndex(main: string, path: seq<Step>, i: nat)
    ensures Grouped(main, path + [Index(i)]) == Grouped(main, path) + [Group(TableName(main, path), [])]
  {
    assert (path + [Index(i)])[..|path|] == path;
  }

  lemma NestedListsGroup1(main: string)
    ensures Grouped(main, [Key("a")]) == [Group(main, ["a"])]
  {
    var p0: seq<Step> := [];
    GroupedKey(main, p0, "a");
    assert p0 + [Key("a")] == [Key("a")];
    var g := Grouped(main, p0);
    assert g[..0] == [];
    var ks: seq<string> := [];
    assert ks + ["a"] == ["a"];
  }

  lemma NestedListsGroup2(main: string)
    ensures Grouped(main, [Key("a"), Index(0)]) == [Group(main, ["a"]), Group(main + "__a", [])]
  {
    var p1: seq<Step> := [Key("a")];
    NestedListsGroup1(main);
    GroupedIndex(main, p1, 0);
    assert p1 + [Index(0)] == [Key("a"), Index(0)];
    assert StepTexts(p1) == ["a"];
    assert Strings.Joiner + "a" == "__a";
    assert TableName(main, p1) == main + "__a";
  }

  lemma NestedListsGroup3(main: string)
    ensures Grouped(main, [Key("a"), Index(0), Key("b")]) == [Group(main, ["a"]), Group(main + "__a", ["b"])]
  {
    var p2: seq<Step> := [Key("a"), Index(0)];
    NestedListsGroup2(main);
    GroupedKey(main, p2, "b");
    assert p2 + [Key("b")] == [Key("a"), Index(0), Key("b")];
    var ks: seq<string> := [];
    assert ks + ["b"] == ["b"];
  }

  /** The `graph_path` of `a[0].b[0]`. */
  lemma NestedListsGroups(main: string)
    ensures Grouped(main, NestedLists[0].path)
      == [Group(main, ["a"]), Group(main + "__a", ["b"]), Group(main + "__a__0__b", [])]
  {
    var p3: seq<Step> := [Key("a"), Index(0), Key("b")];
    NestedListsGroup3(main);
    GroupedIndex(main, p3, 0);
    assert p3 + [Index(0)] == NestedLists[0].path;
    NestedListsName(main);
  }

  lemma NestedListsName(main: string)
    ensures TableName(main, [Key("a"), Index(0), Key("b")]) == main + "__a__0__b"
  {
    var p3: seq<Step> := [Key("a"), Index(0), Key("b")];
    assert Strings.NatToString(0) == "0";
    assert StepTexts(p3) == ["a", "0", "b"];
    assert Strings.Join(["b"], Strings.Joiner) == "b";
    assert Strings.Join(["0", "b"], Strings.Joiner) == "0__b";
    assert Strings.Join(["a", "0", "b"], Strings.Joiner) == "a__0__b";
    assert Strings.Joiner + "a__0__b" == "__a__0__b";
    assert TableName(main, p3) == main + "__a__0__b";
  }

  /** The tables of `a[0].b[0]`. */
  function NestedListsTables(main: string): Tables
  {
    var a, b := main + "__a", main + "__a__0__b";
    Tables([main, a, b], map[main := [], a := [], b := [Field("", Text)]], map[main := None, a := Some(main), b := Some(a)])
  }

  /** The groups the preparation loop meets for `a[0].b[0]`. */
  lemma NestedListsEdges(main: string)
    ensures Edges(SortByDepth(GraphPaths(main, NestedLists))) == [Edge(main, None, None),
      Edge(main + "__a", Some(main), None), Edge(main + "__a__0__b", Some(main + "__a"), Some(Field("", Text)))]
  {
    var a, b := main + "__a", main + "__a__0__b";
    NestedListsGroups(main);
    var gp := GraphPath([Group(main, ["a"]), Group(a, ["b"]), Group(b, [])], Text);
    assert GraphPaths(main, NestedLists) == [gp];
    assert SortByDepth([gp]) == [gp];
    assert Edges([gp]) == Edges([]) + PathEdges(gp);
  }

  /** The tables of `a[0].b[0]`, and the table the preparation loop meets last. */
  lemma NestedListsLayout(main: string)
    ensures Layout(main, NestedLists) == NestedListsTables(main)
    ensures Stale(main, NestedLists) == Some(main + "__a__0__b")
  {
    var a, b := main + "__a", main + "__a__0__b";
    var e1, e2, e3 := Edge(main, None, None), Edge(a, Some(main), None), Edge(b, Some(a), Some(Field("", Text)));
    NestedListsEdges(main);
    var es0: seq<Edge> := [];
    assert [e1, e2, e3] == es0 + [e1] + [e2] + [e3];
    PrepareSnoc(es0, e1);
    PrepareSnoc(es0 + [e1], e2);
    PrepareSnoc(es0 + [e1] + [e2], e3);
    NestedListsSteps(main, a, b);
  }

  lemma NestedListsSteps(main: string, a: string, b: string)
    requires |main| < |a| < |b|
    ensures AddEdge(Tables([], map[], map[]), Edge(main, None, None)) == Tables([main], map[main := []], map[main := None])
    ensures AddEdge(Tables([main], map[main := []], map[main := None]), Edge(a, Some(main), None))
      == Tables([main, a], map[main := [], a := []], map[main := None, a := Some(main)])
    ensures AddEdge(Tables([main, a], map[main := [], a := []], map[main := None, a := Some(main)]), Edge(b, Some(a), Some(Field("", Text))))
      == Tables([main, a, b], map[main := [], a := [], b := [Field("", Text)]], map[main := None, a := Some(main), b := Some(a)])
  {
    var none: seq<Field> := [];
    assert none + [Field("", Text)] == [Field("", Text)];
  }

  /**
   * The stale `table` makes a table reference itself: with the single column `a[0].b[0]`,
   * the loop meets the table `<main>__a__0__b` last, whose parent is `<main>__a`, and so the
   * statement of `<main>__a` declares a foreign key to `<main>__a` itself, where its own
   * parent is the main table.
   */
  lemma StaleParentExample(main: string, pk: string)
    ensures Consistent(Layout(main, NestedLists)) && |Layout(main, NestedLists).order| == 3
    ensures Layout(main, NestedLists).order[1] == main + "__a"
    ensures DdlLinesAsWritten(Layout(main, NestedLists), Stale(main, NestedLists), main, pk).Ok?
    ensures DdlLinesAsWritten(Layout(main, NestedLists), Stale(main, NestedLists), main, pk).value[1][2]
      == ForeignKey(Some(main + "__a"))
    ensures DdlLines(Layout(main, NestedLists), main, pk)[1][2] == ForeignKey(Some(main))
  {
    NestedListsLayout(main);
    var a := main + "__a";
    assert |main| < |a|;
    TableLinesFrame(a, [], main, pk, Some(a));
    TableLinesFrame(a, [], main, pk, Some(main));
  }
}
