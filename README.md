# A verified model of the data-shaping core of a CVE visualiser

The repository turns NVD vulnerability dumps (one JSON object per line) into an SQLite
database, draws the table hierarchy of that database as a Graphviz graph, and lets a browser
page run SQL queries against it. The page draws the results as bar plots and offers a clickable
query builder. This project models the parts of it that are not I/O or drawing:

- **Schema inference** (`scripts/json-to-sqlite3.py`): `merge_schemas`, `get_data_schema` and
  `flatten_schema`. The schema of a JSON value is a small tree (module `JsonSchema`).
- **Table layout** (`scripts/json-to-sqlite3.py`): `generate_create_table_from_schema` splits
  the column paths at list indices into tables, and writes one `CREATE TABLE` statement per
  table with its primary key and its `__parent__` foreign key (module `SqlLayout`). The method
  follows the code as written, which names the parent of the last table met in every foreign key;
  the corrected layout, each table referencing its own parent, is proved alongside it.
- **Table hierarchy** (`scripts/get_db_graph.py`): `get_table_hierarchy` nests every table
  under its longest `__`-prefix present, and `rec_join_key_names` rejoins the split names
  (module `DbGraph`).
- **Graphviz output** (`scripts/get_db_graph.py`): `hierarchy_to_graphviz` numbers the record
  nodes in pre-order and draws an edge from each child to its parent. It is a class with the
  `idx` counter and the `result` list as fields (module `DbGraphviz`).
- **Stacked bar plots** (`src/plots/barplot.js`): the shape check, `stack`, the severity
  override, the cascade sort, the `MAX_BARS` slice and the percent normalisation (module
  `Barplot`). The sort is a stable in-place insertion sort (module `StableSort`).
- **The query channel** (`src/run-viz.js`): the `dbConnection` object, with its id counter,
  the pending listener table and the query times. It is a class (module `DbConnection`).
- **The query builder** (`src/query_builder.js`): `wire_node`, `find_node`, the click
  listeners and the selection toggle. The builder is a class, and the SVG text elements are
  objects whose class lists change in place (module `QueryBuilder`).

Shared helpers live in `Base` (`Option`, `Result`), `Strings` (the `__` joiner, split and join,
ASCII upper-casing, decimal digits) and `Seqs` (first occurrences, `IndexOf`, no-repeats).

Python's exceptions become the `Raise` case of a `Result`. JSON `null` and the other unknown
values raise `ValueError`. A failed `assert` raises `AssertionError`. A name with no parent
makes `get_table_hierarchy` fail with the chunks of that name.

## Model

| member | source | states |
|---|---|---|
| Strings.JoinSplit | scripts/get_db_graph.py:27-38 | joining with `__` the chunks of a name split at `__` gives the name back |
| Strings.Upper | scripts/get_db_graph.py:84 | upper-casing keeps the length and upper-cases each character on its own |
| StableSort.SortInPlace | src/plots/barplot.js:193-205 | the in-place insertion sort leaves the array holding the stable sort of its old contents |
| StableSort.SortPermutes | src/plots/barplot.js:193-205 | the sort returns a permutation of its input |
| StableSort.SortOrdered | src/plots/barplot.js:193-205 | for an asymmetric comparator, no element ends up after one it should come before |
| StableSort.SortStable | src/plots/barplot.js:193-204 | elements the comparator never separates keep their relative order |
| Barplot.ShapeOf | src/plots/barplot.js:16-22 | a result is stacked iff it has 3 columns; the count column is then 2, otherwise 1 |
| Barplot.TruthyKeysMembers | src/plots/barplot.js:160-166 | a property name is recorded iff some row carries it with a truthy sub-key |
| Barplot.CollectKeysSpec | src/plots/barplot.js:160-167 | the key list holds, exactly once each and in first-occurrence order, the property names of the truthy sub-keys, and nothing else |
| Barplot.GatherKeys | src/plots/barplot.js:160-167 | the key-collecting loop returns that key list |
| Barplot.ZeroFill | src/plots/barplot.js:174-177 | a new record gives 0 to every collected key and to nothing else |
| Barplot.PivotOrder | src/plots/barplot.js:169-184 | the records come in first-occurrence order of the categories, one per distinct category |
| Barplot.PivotCells | src/plots/barplot.js:170-182 | a cell exists iff its key was collected or a row of that category wrote it; its value is the last such row's count, otherwise 0 |
| Barplot.NoCellsWithoutRow | src/plots/barplot.js:170-182 | a category with no record has no row at all |
| Barplot.FillResults | src/plots/barplot.js:169-182 | the pivot loop builds exactly the pivot described above |
| Barplot.StackRecordsSpec | src/plots/barplot.js:169-184 | `stack` yields one record per distinct category, in first-occurrence order |
| Barplot.StackCell | src/plots/barplot.js:173-181 | each cell is the count of the last row with that category and key (last write wins), or 0 for a collected key no row wrote |
| Barplot.NullKeyShared | src/plots/barplot.js:161-181 | a SQL NULL sub-key is not collected, yet its count lands in the same `"null"` cell as the string `"null"`, overwriting it |
| Barplot.Stack | src/plots/barplot.js:158-185 | `stack` returns those records and the collected key list |
| Barplot.SeverityOverrideFires | src/plots/barplot.js:72-75 | the legend becomes the five severity labels iff every row's sub-key is falsy or names a severity label; no key at all also qualifies |
| Barplot.LegendNoRepeats | src/plots/barplot.js:72-75 | the legend never repeats a key |
| Barplot.Reversed | src/plots/barplot.js:189 | the reversed list has the same length and holds position `i` at `n - 1 - i` |
| Barplot.Cascade | src/plots/barplot.js:187-190 | the cascade is CRITICAL, HIGH, MEDIUM, LOW, NONE |
| Barplot.LexAt | src/plots/barplot.js:195-203 | the first differing priority decides the comparison |
| Barplot.LexIrreflexive | src/plots/barplot.js:195-203 | no record precedes itself |
| Barplot.LexAsymmetric | src/plots/barplot.js:195-203 | two records never precede each other |
| Barplot.LexTransitive | src/plots/barplot.js:195-203 | precedence is transitive |
| Barplot.LexTotal | src/plots/barplot.js:195-203 | of two different count vectors, one precedes the other |
| Barplot.Compare | src/plots/barplot.js:194-204 | the comparator is negative iff `a` precedes `b`, positive iff `b` precedes `a`, and zero iff the count vectors are equal (a missing key counts 0) |
| Barplot.SortByCascade | src/plots/barplot.js:192-206 | the array is sorted in place and ends up as the stable sort by the cascade |
| Barplot.SortSeverityStacks | src/plots/barplot.js:187-190 | the severity sort is the cascade sort with CRITICAL first |
| Barplot.CascadeSortPermutes | src/plots/barplot.js:192-206 | the cascade sort returns a permutation of the records |
| Barplot.CascadeSortOrdered | src/plots/barplot.js:192-206 | after the sort, the count vectors are lexicographically non-increasing |
| Barplot.CascadeSortStable | src/plots/barplot.js:193-204 | records with equal count vectors keep their relative order |
| Barplot.OrderedPairs | src/plots/barplot.js:192-206 | in a sorted list no later record's vector is greater than an earlier one's |
| Barplot.Truncate | src/plots/barplot.js:78 | the slice keeps exactly the first min(n, 20) records, whatever the width |
| Barplot.SumCells | src/plots/barplot.js:104-105 | the total is the sum of the truthy cells of the legend keys |
| Barplot.RescaleCells | src/plots/barplot.js:107 | the rewrite loop divides each truthy legend cell by the total and scales it to 100 |
| Barplot.NormaliseRecord | src/plots/barplot.js:102-108 | one record of percent mode: summed, then rescaled |
| Barplot.NormalisePercent | src/plots/barplot.js:102-108 | every record of the array is replaced by its normalised form, in place |
| Barplot.RescaledAt | src/plots/barplot.js:107 | rescaling keeps the set of cells, changes only truthy legend cells, and leaves zero and other cells as they were |
| Barplot.TotalScaled | src/plots/barplot.js:104-107 | scaling every legend cell scales the total by the same factor |
| Barplot.NormalisedKeepsZeros | src/plots/barplot.js:102-108 | percent mode keeps the category and the cells, keeps zeros at zero, leaves keys outside the legend alone, and leaves an all-zero record unchanged |
| Barplot.AllZeroTotal | src/plots/barplot.js:104-105 | a record with no truthy legend cell totals 0 |
| Barplot.NormalisedSumsTo100 | src/plots/barplot.js:102-108 | a record with a non-zero total sums to 100 after normalisation |
| Barplot.PrepareStackedBars | src/plots/barplot.js:65-108 | the stacked branch yields the legend and the bars: stacked, overridden and sorted, sliced, normalised |
| Barplot.BarsCount | src/plots/barplot.js:72-78 | the number of bars is the number of categories, capped at 20 |
| Barplot.PercentBars | src/plots/barplot.js:94-108 | in percent mode a bar whose legend cells total non-zero sums to 100, and a zero-total bar is left as it was |
| JsonSchema.MergedFields | scripts/json-to-sqlite3.py:27-37 | a dict merge considers exactly the union of the two key sets |
| JsonSchema.CollectOk | scripts/json-to-sqlite3.py:27-37 | when every key merges, the result is the dict of the merged values |
| JsonSchema.MergeCommutes | scripts/json-to-sqlite3.py:11-39 | merging is commutative, failures and error kinds included |
| JsonSchema.MergeIdempotent | scripts/json-to-sqlite3.py:11-39 | merging a well-formed schema with itself returns it |
| JsonSchema.MergeEmptyDict | scripts/json-to-sqlite3.py:27-37 | merging `{}` with a dict gives that dict; with anything else it fails the type assertion |
| JsonSchema.MergeEmptyList | scripts/json-to-sqlite3.py:16-21 | merging `[]` with a list, on either side, gives that list; with anything else it fails the type assertion |
| JsonSchema.MergeShape | scripts/json-to-sqlite3.py:12-37 | a successful merge has two sides of one type, equal leaves, and a dict whose one-sided keys keep their schema and whose shared keys merge |
| JsonSchema.MergeDictFails | scripts/json-to-sqlite3.py:27-37 | a dict merge fails iff some shared key fails to merge |
| JsonSchema.MergeValueError | scripts/json-to-sqlite3.py:11-39 | without unknown nodes a merge never raises `ValueError` |
| JsonSchema.MergeWellFormed | scripts/json-to-sqlite3.py:11-39 | merging well-formed schemas gives a well-formed schema |
| JsonSchema.WellFormedNoOther | scripts/json-to-sqlite3.py:11-39 | a well-formed schema has no unknown node |
| JsonSchema.MergeSchemas | scripts/json-to-sqlite3.py:11-39 | the loop over the key union succeeds exactly when the merge does, with the same result, and matches it fully when the first side has no unknown node |
| JsonSchema.FoldMergeWellFormed | scripts/json-to-sqlite3.py:57-59 | folding well-formed schemas gives a well-formed schema and never `ValueError` |
| JsonSchema.FoldMergeSame | scripts/json-to-sqlite3.py:57-59 | folding equal schemas gives that schema |
| JsonSchema.FoldMergeRaise | scripts/json-to-sqlite3.py:57-59 | once the fold fails, the rest of the list is irrelevant |
| JsonSchema.MergeAll | scripts/json-to-sqlite3.py:57-59 | the loop computes the left fold of the merge |
| JsonSchema.FieldsWellFormed | scripts/json-to-sqlite3.py:61-66 | a dict's schema has exactly the object's keys, each holding a well-formed schema |
| JsonSchema.DataSchemaWellFormed | scripts/json-to-sqlite3.py:42-68 | every inferred schema is well formed, and a value without `null` never raises `ValueError` |
| JsonSchema.NullRaises | scripts/json-to-sqlite3.py:67-68 | a value containing `null` makes inference fail |
| JsonSchema.UniformList | scripts/json-to-sqlite3.py:50-60 | a non-empty list whose items all have schema `s` has schema `[s]` |
| JsonSchema.GetDataSchema | scripts/json-to-sqlite3.py:42-68 | the inference routine computes the recursive schema definition |
| JsonSchema.ListSchema | scripts/json-to-sqlite3.py:50-60 | a list's schema: `[]` when empty, else the fold of its items' schemas in a one-element list, the first error winning |
| JsonSchema.DictSchema | scripts/json-to-sqlite3.py:61-66 | a dict's schema maps each key to its value's schema, the first error winning |
| JsonSchema.SchemaOfOneLine | scripts/json-to-sqlite3.py:71-82 | starting from `{}`, one object line gives its own schema; a non-object line fails the type assertion |
| JsonSchema.FlattenNodeSpec | scripts/json-to-sqlite3.py:90-102 | a node flattens to exactly its leaf paths, typed TEXT or NUMBER, or fails iff it holds a list longer than one |
| JsonSchema.FlattenSpec | scripts/json-to-sqlite3.py:89-105 | flattening raises `AssertionError` iff some list is longer than one; otherwise the columns are exactly the leaf paths, strings as TEXT and floats as NUMBER, with index 0 for list steps |
| SqlLayout.TableName | scripts/json-to-sqlite3.py:122-124 | a nested table's name extends the main table's name |
| SqlLayout.Grouped | scripts/json-to-sqlite3.py:119-127 | a column's groups start at the main table and every later group is a nested table |
| SqlLayout.GroupPath | scripts/json-to-sqlite3.py:119-127 | the grouping loop for one column computes those groups |
| SqlLayout.GroupedCount | scripts/json-to-sqlite3.py:119-127 | a column has one group per list index, plus the main table |
| SqlLayout.GroupedNoIndex | scripts/json-to-sqlite3.py:119-127 | a column with no list index goes to the main table, named by all of its keys |
| SqlLayout.GroupedAfterIndex | scripts/json-to-sqlite3.py:119-127 | otherwise it goes to the table named after the path before its last index, named by the keys after it |
| SqlLayout.GroupPaths | scripts/json-to-sqlite3.py:117-128 | the outer loop groups every column, in order |
| SqlLayout.SortByDepthSpec | scripts/json-to-sqlite3.py:131 | sorting by depth permutes the paths, orders them by group count, and keeps paths of equal depth in order |
| SqlLayout.PrepareOrder | scripts/json-to-sqlite3.py:132-144 | tables are created in first-occurrence order of the groups met, each getting a field list and a parent entry |
| SqlLayout.PrepareFields | scripts/json-to-sqlite3.py:146-147 | each table's fields are the columns whose last group it is, in order |
| SqlLayout.PrepareParent | scripts/json-to-sqlite3.py:133-144 | each table's parent is the group before it on the path that first created it |
| SqlLayout.PrepareTables | scripts/json-to-sqlite3.py:132-147 | the preparation loop computes those tables and the last table it met |
| SqlLayout.AddPath | scripts/json-to-sqlite3.py:134-147 | one path adds its groups as edges, and its last group becomes the current table |
| SqlLayout.MeetGroup | scripts/json-to-sqlite3.py:136-147 | one group: create the table and its parent entry if new, append the field at the path's end |
| SqlLayout.EdgesShape | scripts/json-to-sqlite3.py:133-144 | exactly the main table has no inner table, and every other group's inner table is the group before it |
| SqlLayout.ParentlessIsMain | scripts/json-to-sqlite3.py:133-144 | the main table, and only it, has no parent |
| SqlLayout.ParentsPrecede | scripts/json-to-sqlite3.py:131-144 | every parent is created before its child |
| SqlLayout.LayoutConsistent | scripts/json-to-sqlite3.py:131-147 | every listed table has fields and a parent entry, none is listed twice, and the main table comes first |
| SqlLayout.CommasSpec | scripts/json-to-sqlite3.py:152-157 | every field line but the last gets a trailing comma |
| SqlLayout.WithCommaSpec | scripts/json-to-sqlite3.py:166 | the extra comma goes on the last line only |
| SqlLayout.TableLinesFrame | scripts/json-to-sqlite3.py:149-172 | a statement is the header, the fields, for a nested table `__parent__ INT,` and the foreign key, then `);` |
| SqlLayout.TableLinesFields | scripts/json-to-sqlite3.py:152-162 | field `i` is line `i + 1`, named `__value__` when empty, with its comma |
| SqlLayout.PrimaryKeyLines | scripts/json-to-sqlite3.py:159-162 | a field line says PRIMARY KEY iff it is `pk_col` of the main table |
| SqlLayout.TableDdl | scripts/json-to-sqlite3.py:150-172 | the statement-building loop produces those lines |
| SqlLayout.WriteStatement | scripts/json-to-sqlite3.py:150-173 | one statement is the table's lines, with the foreign key it is given, joined by newlines |
| SqlLayout.WriteStatements | scripts/json-to-sqlite3.py:149-174 | one statement per table, in creation order, every nested table's foreign key naming the parent of the stale `table`; a nested table with no such parent stops the loop with `AssertionError` |
| SqlLayout.GenerateCreateTable | scripts/json-to-sqlite3.py:107-174 | a main name with `[` or `]` and an unflattenable schema fail the assertion; otherwise it returns the statements of the layout as the code writes them, each nested table referencing `parent_graph[table]` for the last `table` met |
| SqlLayout.ForeignKeysPrecede | scripts/json-to-sqlite3.py:164-170 | with each table referencing its own parent, every nested table's foreign key names a table created by an earlier statement |
| SqlLayout.NestedListsLayout | scripts/json-to-sqlite3.py:117-147 | for the column `a[0].b[0]` the tables are `main`, `main__a` and `main__a__0__b`, and the loop ends with `table` at the last of them |
| SqlLayout.AsWrittenWhenOneParent | scripts/json-to-sqlite3.py:164-170 | when every nested table has the same parent as the last table met, the statements as written equal those in which each table references its own parent |
| SqlLayout.StaleParentExample | scripts/json-to-sqlite3.py:165-169 | as written, `main__a` references `main__a` itself, while its parent is `main` |
| DbGraph.FindParent | scripts/get_db_graph.py:44-49 | the search returns the longest proper prefix present, or none if there is none |
| DbGraph.FindParentCandidate | scripts/get_db_graph.py:44-49 | the `for`-`else` loop returns that prefix |
| DbGraph.BuildRaise | scripts/get_db_graph.py:37-51 | the first name without a parent stops the build with its error |
| DbGraph.PlaceNames | scripts/get_db_graph.py:34-51 | the loop sorts the names by length and places each in turn |
| DbGraph.BuildKeys | scripts/get_db_graph.py:37-51 | a successful build places exactly the given names |
| DbGraph.BuildOrder | scripts/get_db_graph.py:37-51 | names are inserted in first-occurrence order |
| DbGraph.ByLengthSpec | scripts/get_db_graph.py:34 | the stable sort by length permutes the names and orders them by length |
| DbGraph.PrefixShorter | scripts/get_db_graph.py:34-49 | a name whose chunks are a proper prefix of another's is shorter, so it is placed first |
| DbGraph.BuildSortedOk | scripts/get_db_graph.py:37-51 | on length-sorted names, a prefix of the list builds iff each of its names is a single chunk or has a proper prefix among all the names |
| DbGraph.BuildSortedPlaced | scripts/get_db_graph.py:37-51 | on length-sorted names, every name is placed under its longest proper prefix present |
| DbGraph.HierarchySpec | scripts/get_db_graph.py:33-51 | the hierarchy is built iff every nested name has a proper prefix among the names; it then holds exactly the names, single chunks at the root and the rest under their longest prefix |
| DbGraph.ParentPrecedesChild | scripts/get_db_graph.py:34-51 | a parent is placed before its child |
| DbGraph.ParentsFirst | scripts/get_db_graph.py:34-51 | in a built hierarchy every parent is present and placed earlier |
| DbGraph.HierarchyWellFormed | scripts/get_db_graph.py:37-51 | a built hierarchy is a forest: parents present and shorter |
| DbGraph.Reach | scripts/get_db_graph.py:37-53 | every placed name appears in the nested forest, with its own subtree |
| DbGraph.RecJoinKeys | scripts/get_db_graph.py:27-31 | the rejoined keys are the joins of the chunked keys, at every depth |
| DbGraph.JoinedNames | scripts/get_db_graph.py:27-53 | the output's keys, at every depth, are exactly the input table names |
| DbGraph.GetTableHierarchy | scripts/get_db_graph.py:33-53 | the function computes the nested, rejoined hierarchy or its error |
| DbGraphviz.FieldLabelsAll | scripts/get_db_graph.py:86-98 | without `__parent__`, every field gets a label, in order |
| DbGraphviz.FieldLabelsShown | scripts/get_db_graph.py:86-98 | the labels are exactly those of the fields other than `__parent__`, with `<pk> ` for primary keys |
| DbGraphviz.GraphFrame | scripts/get_db_graph.py:114-118 | the output opens with `digraph {` and `rankdir=LR;`, closes with `}`, and has one line per node or edge between |
| DbGraphviz.PreorderNumbering | scripts/get_db_graph.py:79-112 | the nodes are `n_0`, `n_1`, … in pre-order of the tables |
| DbGraphviz.EdgeTotal | scripts/get_db_graph.py:106-112 | there is exactly one edge per table that is not a root |
| DbGraphviz.EdgesFollowChildren | scripts/get_db_graph.py:106-112 | each edge follows its child's node and points to an earlier node |
| DbGraphviz.EdgesToParentTables | scripts/get_db_graph.py:106-112 | every edge of a forest numbered from `id` leaves one of its tables and points to the table it is nested in, or, for a top table, to the given parent node |
| DbGraphviz.EdgesToNestingTable | scripts/get_db_graph.py:79-118 | with the tables numbered from 0 in pre-order, every edge points from a table to the table it is nested in |
| DbGraphviz.DotWriter.RenderNode | scripts/get_db_graph.py:78-104 | a node takes the current id, bumps the counter and appends its record line |
| DbGraphviz.DotWriter.Rec | scripts/get_db_graph.py:106-112 | a table emits its node, its edge to the parent if any, then its children's lines |
| DbGraphviz.DotWriter.RecChildren | scripts/get_db_graph.py:110-112 | the children follow each other, numbered on from the parent |
| DbGraphviz.HierarchyToGraphviz | scripts/get_db_graph.py:76-118 | the output is the preamble, the lines of every root's tree and the closing brace, joined by newlines |
| DbConnection.Thrown | src/run-viz.js:45-52 | the errors reported are registered listeners that throw, never more than the listeners |
| DbConnection.NumberedIncreasing | src/run-viz.js:18 | later posts carry larger ids, so ids are unique |
| DbConnection.DeliveredInOrder | src/run-viz.js:44-52 | every registered listener is called, in order, on the reply |
| DbConnection.RepeatDeliversNothing | src/run-viz.js:44-54 | after a delivery, a repeated reply with that id calls nobody and changes nothing |
| DbConnection.CallAll | src/run-viz.js:45-52 | the delivery loop calls each listener in order, reporting those that throw and going on |
| DbConnection.Connection.Load | src/run-viz.js:12-72 | the two `open` posts take ids 1 and 2, no listener waits, the next id is 3 |
| DbConnection.Connection.Query | src/run-viz.js:17-36 | a query takes the next id, larger than every earlier one, notes the time, registers one resolver and posts the statement with `params` or `{}` |
| DbConnection.Connection.OnMessage | src/run-viz.js:37-55 | a reply drops its id's time and listeners, calls those listeners in order, and changes nothing else; an unknown id changes no table |
| DbConnection.FirstQuery | src/run-viz.js:12-72 | the first query gets id 3 and is the third post |
| DbConnection.ReplyTwice | src/run-viz.js:44-54 | two replies with one id have the effect of one: the second calls nobody, and the id's listeners and time are gone while the id counter and the posts are untouched |
| DbConnection.PendingArePosted | src/run-viz.js:17-33 | every id with a waiting listener or a recorded time is that of an `exec` post already sent, at position id - 1 |
| QueryBuilder.WireNode | src/query_builder.js:4-28 | the first text is the title, the second is dropped and the rest are the fields in order, each element's classes marked accordingly; no text is a `TypeError` |
| QueryBuilder.FindNode | src/query_builder.js:37-43 | returns the first node whose title matches the name, upper-cased, or none if none does |
| QueryBuilder.WithoutKeepsOthers | src/query_builder.js:97-100 | the splice removes that one element and keeps every other one |
| QueryBuilder.ToggledFlipsOne | src/query_builder.js:84-101 | a toggle flips that element's membership only and keeps the list free of repeats |
| QueryBuilder.ToggleTwiceRestores | src/query_builder.js:84-101 | toggling an unselected field twice restores the list |
| QueryBuilder.ToggleTwiceMovesLast | src/query_builder.js:84-101 | toggling a selected field twice moves it to the end |
| QueryBuilder.AfterClicksToggles | src/query_builder.js:14-19 | a click toggles the field once per registered toggle listener |
| QueryBuilder.Builder.Show | src/query_builder.js:82-84 | the builder starts with no selection and with the toggle listener registered |
| QueryBuilder.Builder.ListenOnNodeClick | src/query_builder.js:35 | a listener is appended to the listener list, nothing else changes |
| QueryBuilder.Builder.Toggle | src/query_builder.js:84-101 | an unselected field is appended and marked `selected`; a selected one is removed and unmarked; the list stays free of repeats |
| QueryBuilder.Builder.CallListener | src/query_builder.js:16-18 | one listener call is logged and, for the toggle, toggles the field |
| QueryBuilder.Builder.ClickField | src/query_builder.js:14-19 | a click calls every listener in registration order; the selection becomes the toggles applied in turn, and the field's mark follows its membership |

## Left out

- Drawing: the d3 scales, axes, colours, rectangles and the SVG clearing are left out, and so is the whole non-stacked branch of `render_query_barplot`. `src/plots/areaplot.js` and `src/plots/lineplot.js` are not part of this model.
- I/O: reading JSON lines, `count_lines`, the SQLite ingestion (`ingest_row_in_db`, `ingest_in_db`, `build_db_with_schema`), and `scripts/pull-all-nist.py` (HTTP and temporary files).
- `get_schema_from_file` is modelled only as its accumulator (`SchemaOfLines`), one line after another; the file, `json.loads` and tqdm are left out.
- `get_table_names`, `get_fields_in_table` and `rec_fill_fields_for_tables` call `sqlite3` through a subprocess. The table names and each table's fields are inputs here. The `__fields__` key that the real hierarchy dict shares with its child tables is not modelled: a table named `__fields__` would collide.
- Printing the DDL and the DOT text, and `json.dumps`.
- The browser: the Worker, `postMessage` (it is an outbox sequence here), Promise resolution (a listener is a resolver recorded in a call log), `Date` (the time is a parameter), `console`, `initSqlJs`, `fetch`, the buttons of `run`, and the database buffer of the `open` posts.
- `scroll_to_node` and the layout styling of `show_query_builder`. The `onclick` property that `wire_node` installs is modelled by `QueryBuilder.Builder.ClickField`, not stored on the element.
- `scroll_to_node('CVE')` at src/query_builder.js:80 calls `find_node` (src/query_builder.js:37-43), which returns `undefined` when no node is titled `CVE`; reading `.node` from it at src/query_builder.js:46 then throws a `TypeError`, and the toggle listener is never registered. QueryBuilder.Builder.Show starts from the state after that call succeeds.
- The empty `if` at src/query_builder.js:105-107 does nothing, so it is not modelled.
- Strings.Upper: upper-cases ASCII letters only; JavaScript's `toUpperCase` and Python's `upper` also map other letters.
- Hash and engine order: Python's `set(...) | set(...)` and dict iteration are unordered here, so schemas are maps and `flatten_schema` gives a set. The column order of the table layout is an input, holding exactly the flattened columns. JavaScript's `Object.keys` and `Object.values` list integer-like keys first: the model lists keys and records in insertion order, as they are for keys that do not look like integers.
- Property names: a category and a sub-key are modelled by the string they become as an object property (SQL NULL becomes `"null"`, 0 becomes `"0"`), with the sub-key's truthiness kept beside it. Two cases of JavaScript objects are not modelled: a category such as `constructor` or `__proto__`, for which `results[xkey] === undefined` is false before any record exists (src/plots/barplot.js:173), and a sub-key equal to `__x__`, whose count overwrites the category stored in that property (src/plots/barplot.js:174-181).
- JSON objects with a repeated key: `json.loads` keeps the last value, so such a member list stands for no Python dict; the model computes something for it that says nothing about the script.
- Numbers: counts and percentages are exact reals, not IEEE doubles. Only the non-zero cells matter, as in the source.
- Barplot.NormaliseRecord: when the non-zero cells cancel out to a total of 0, JavaScript divides by zero and writes infinities or NaN; the model leaves such a record unchanged.
- JsonSchema.MergeSchemas: when one dict merge has a key that fails an assertion and another that meets an unknown node, the error raised depends on set iteration order. The contract fixes the result on success and, when the first schema has no unknown node, the exact error.
- DbConnection.Connection.OnMessage: a listener is one of the resolvers that `query` registers. Arbitrary user callbacks, and a reply that arrives while the loop is still calling listeners, are not modelled; throwing is a set of listeners given as input.
- QueryBuilder.Builder.ClickField: the listeners are the toggle handler and observers with no effect. A listener that throws would abort the JavaScript loop; the model does not let listeners throw.

## Findings

| source | as written | input that shows it | evidently intended | confidence | as-written member | corrected member |
|---|---|---|---|---|---|---|
| scripts/json-to-sqlite3.py:165-169 | every nested table's foreign key names `parent_graph[table]`, where `table` is the last table the preparation loop met, not `tab_name` | a single column `a[0].b[0]` under main table `main`: table `main__a` gets `REFERENCES main__a(rowid)`, although its parent is `main` | each nested table references its own parent, `parent_graph[tab_name]`, which is always created by an earlier statement | not executed | SqlLayout.StaleParentExample | SqlLayout.ForeignKeysPrecede |
