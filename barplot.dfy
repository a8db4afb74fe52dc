/**
 * The data side of the stacked bar chart (src/plots/barplot.js): the pivot of
 * (category, sub-key, count) rows into one record per category, the severity override
 * with its cascade sort, the cap on the number of bars and percent normalisation.
 *
 * Property names of JavaScript objects are strings; a category or sub-key is modelled by
 * the string it becomes as a property name (SQL NULL becomes "null", 0 becomes "0"), and a
 * sub-key also carries whether the value itself is truthy. Counts are `real`s.
 */
module Barplot {
  import opened Base
  import opened Seqs
  import StableSort

  /** `SEVERITY_KEYS`, in the legend's order. */
  const SeverityKeys: seq<string> := ["NONE", "LOW", "MEDIUM", "HIGH", "CRITICAL"]

  /** `MAX_BARS`: a cap that does not depend on the width. */
  function MaxBars(width: int): nat
  {
    20
  }

  /**
   * A row of a three-column result: category, sub-key, count. `key` is the property name the
   * sub-key becomes, and `truthy` whether the sub-key value passes the `if (key)` test.
   */
  datatype Row = Row(x: string, key: string, truthy: bool, count: real)

  /** A pivoted record: `__x__` holds the category, `cells` the other properties. */
  datatype Record = Record(x: string, cells: map<string, real>)

  /** The shape check of the renderer: which column holds the count, and whether to stack. */
  datatype Shape = Shape(countCol: nat, stacked: bool)

  function ShapeOf(columnCount: nat): (s: Shape)
    ensures s.stacked <==> columnCount == 3
    ensures columnCount in {2, 3} ==> s.countCol == columnCount - 1
    ensures s.countCol in {1, 2}
  {
    if columnCount == 3 then Shape(2, true) else Shape(1, false)
  }

  // ---------------------------------------------------------------------------
  // stack
  // ---------------------------------------------------------------------------

  /** The truthy sub-keys of `rows`, repeats included. */
  function TruthyKeys(rows: seq<Row>): seq<string>
  {
    if rows == [] then []
    else TruthyKeys(rows[..|rows| - 1]) + (if rows[|rows| - 1].truthy then [rows[|rows| - 1].key] else [])
  }

  /** Some row carries a truthy sub-key whose property name is `k`. */
  predicate HasTruthyKey(rows: seq<Row>, k: string)
  {
    exists i :: 0 <= i < |rows| && rows[i].truthy && rows[i].key == k
  }

  lemma {:induction false} TruthyKeysMembers(rows: seq<Row>)
    ensures forall k :: k in TruthyKeys(rows) <==> HasTruthyKey(rows, k)
    decreases |rows|
  {
    if rows != [] {
      var init := rows[..|rows| - 1];
      TruthyKeysMembers(init);
      forall k ensures k in TruthyKeys(rows) <==> HasTruthyKey(rows, k) {
        if k in TruthyKeys(init) {
          var i :| 0 <= i < |init| && init[i].truthy && init[i].key == k;
          assert rows[i].truthy && rows[i].key == k;
        }
        if HasTruthyKey(rows, k) {
          var i :| 0 <= i < |rows| && rows[i].truthy && rows[i].key == k;
          if i < |init| { assert init[i].truthy && init[i].key == k; }
        }
      }
    }
  }

  /** The key list of `stack`: `Object.keys(keysReader)`. */
  function CollectKeys(rows: seq<Row>): seq<string>
  {
    FirstOccurrences(TruthyKeys(rows))
  }

  /**
   * The key list holds each truthy sub-key of the rows exactly once, in order of first
   * appearance, and never a falsy one.
   */
  lemma CollectKeysSpec(rows: seq<Row>)
    ensures forall k :: k in CollectKeys(rows) <==> HasTruthyKey(rows, k)
    ensures NoRepeats(CollectKeys(rows))
    ensures InFirstOccurrenceOrder(CollectKeys(rows), TruthyKeys(rows))
  {
    TruthyKeysMembers(rows);
    FirstOccurrencesMembers(TruthyKeys(rows));
    FirstOccurrencesNoRepeats(TruthyKeys(rows));
    FirstOccurrencesOrder(TruthyKeys(rows));
  }

  /** The categories of `rows`, repeats included. */
  function Categories(rows: seq<Row>): (r: seq<string>)
    ensures |r| == |rows|
  {
    seq(|rows|, i requires 0 <= i < |rows| => rows[i].x)
  }

  /** The `results` object of `stack`: its keys in insertion order and the cells under each. */
  datatype Pivot = Pivot(order: seq<string>, cells: map<string, map<string, real>>)

  /** A fresh record's cells: every collected key at 0. */
  function ZeroCells(keys: seq<string>): map<string, real>
  {
    map k | k in keys :: 0.0
  }

  /** The `results` object once the rows have been folded in, one at a time. */
  function PivotOf(rows: seq<Row>, keys: seq<string>): Pivot
  {
    if rows == [] then Pivot([], map[])
    else
      var p := PivotOf(rows[..|rows| - 1], keys);
      var row := rows[|rows| - 1];
      var base := if row.x in p.cells then p.cells[row.x] else ZeroCells(keys);
      Pivot(if row.x in p.cells then p.order else p.order + [row.x],
            p.cells[row.x := base[row.key := row.count]])
  }

  /** `Object.values(results)`. */
  function Records(p: Pivot): (r: seq<Record>)
    ensures |r| == |p.order|
  {
    seq(|p.order|, i requires 0 <= i < |p.order| =>
      Record(p.order[i], if p.order[i] in p.cells then p.cells[p.order[i]] else map[]))
  }

  /** The records `stack` returns. */
  function StackRecords(rows: seq<Row>): seq<Record>
  {
    Records(PivotOf(rows, CollectKeys(rows)))
  }

  /** The count of the last row for category `x` and sub-key `k`, if there is one. */
  function LastCount(rows: seq<Row>, x: string, k: string): Option<real>
  {
    if rows == [] then None
    else if rows[|rows| - 1].x == x && rows[|rows| - 1].key == k then Some(rows[|rows| - 1].count)
    else LastCount(rows[..|rows| - 1], x, k)
  }

  lemma {:induction false} PivotOrder(rows: seq<Row>, keys: seq<string>)
    ensures PivotOf(rows, keys).order == FirstOccurrences(Categories(rows))
    ensures forall x :: x in PivotOf(rows, keys).cells <==> x in PivotOf(rows, keys).order
    decreases |rows|
  {
    if rows != [] {
      var init := rows[..|rows| - 1];
      PivotOrder(init, keys);
      assert Categories(rows)[..|rows| - 1] == Categories(init);
    }
  }

  lemma {:induction false} PivotCells(rows: seq<Row>, keys: seq<string>, x: string, k: string)
    requires x in PivotOf(rows, keys).cells
    ensures k in PivotOf(rows, keys).cells[x] <==> k in keys || LastCount(rows, x, k).Some?
    ensures k in PivotOf(rows, keys).cells[x] ==>
      PivotOf(rows, keys).cells[x][k] == if LastCount(rows, x, k).Some? then LastCount(rows, x, k).value else 0.0
    decreases |rows|
  {
    var init, row := rows[..|rows| - 1], rows[|rows| - 1];
    if row.x == x && x !in PivotOf(init, keys).cells {
      NoCellsWithoutRow(init, keys, x, k);
    } else if x in PivotOf(init, keys).cells {
      PivotCells(init, keys, x, k);
    }
  }

  lemma {:induction false} NoCellsWithoutRow(rows: seq<Row>, keys: seq<string>, x: string, k: string)
    requires x !in PivotOf(rows, keys).cells
    ensures LastCount(rows, x, k) == None
    decreases |rows|
  {
    if rows != [] {
      NoCellsWithoutRow(rows[..|rows| - 1], keys, x, k);
    }
  }

  /**
   * The records of `stack`: one per distinct category, in order of first appearance;
   * every collected key is present in every record; a cell holds the count of the last
   * row with that category and sub-key (duplicates are last-write-wins), and 0 when no
   * row of the category carries the key; no other property is created.
   */
  lemma StackRecordsSpec(rows: seq<Row>)
    ensures |StackRecords(rows)| == |FirstOccurrences(Categories(rows))|
    ensures forall i :: 0 <= i < |StackRecords(rows)| ==> StackRecords(rows)[i].x == FirstOccurrences(Categories(rows))[i]
  {
    PivotOrder(rows, CollectKeys(rows));
  }

  /** The cells of the `i`-th record of `stack`, under any property name `k`. */
  lemma StackCell(rows: seq<Row>, i: nat, k: string)
    requires i < |StackRecords(rows)|
    ensures k in StackRecords(rows)[i].cells <==> k in CollectKeys(rows) || LastCount(rows, StackRecords(rows)[i].x, k).Some?
    ensures k in StackRecords(rows)[i].cells && LastCount(rows, StackRecords(rows)[i].x, k).Some? ==>
      StackRecords(rows)[i].cells[k] == LastCount(rows, StackRecords(rows)[i].x, k).value
    ensures k in StackRecords(rows)[i].cells && LastCount(rows, StackRecords(rows)[i].x, k) == None ==>
      StackRecords(rows)[i].cells[k] == 0.0
  {
    var keys := CollectKeys(rows);
    var p := PivotOf(rows, keys);
    PivotOrder(rows, keys);
    assert StackRecords(rows)[i] == Record(p.order[i], p.cells[p.order[i]]);
    PivotCells(rows, keys, p.order[i], k);
  }

  /**
   * A falsy sub-key shares its property with a truthy one of the same name: the string
   * "null" is collected, and a later SQL NULL row writes over its cell.
   */
  lemma NullKeyShared()
    ensures CollectKeys([Row("2020", "null", true, 1.0), Row("2020", "null", false, 2.0)]) == ["null"]
    ensures StackRecords([Row("2020", "null", true, 1.0), Row("2020", "null", false, 2.0)])
      == [Record("2020", map["null" := 2.0])]
  {
    var rows := [Row("2020", "null", true, 1.0), Row("2020", "null", false, 2.0)];
    var keys := ["null"];
    assert rows[..1] == [rows[0]] && [rows[0]][..0] == [];
    assert TruthyKeys([rows[0]]) == keys;
    assert TruthyKeys(rows) == keys;
    assert keys[..0] == [];
    assert FirstOccurrences(keys) == keys;
    assert ZeroCells(keys) == map["null" := 0.0];
    var first := PivotOf([rows[0]], keys);
    assert PivotOf([rows[0]][..0], keys) == Pivot([], map[]);
    assert ZeroCells(keys)["null" := 1.0] == map["null" := 1.0];
    assert first == Pivot(["2020"], map["2020" := map["null" := 1.0]]);
    assert rows[..|rows| - 1] == [rows[0]];
    assert map["null" := 1.0]["null" := 2.0] == map["null" := 2.0];
    assert PivotOf(rows, keys) == Pivot(["2020"], map["2020" := map["null" := 2.0]]);
  }

  /** The inner loop of `stack`: a new record gets every collected key at 0. */
  method ZeroFill(keys: seq<string>) returns (m: map<string, real>)
    ensures m == ZeroCells(keys)
  {
    m := map[];
    for j := 0 to |keys|
      invariant m == map k | k in keys[..j] :: 0.0
    {
      assert keys[..j + 1] == keys[..j] + [keys[j]];
      m := m[keys[j] := 0.0];
    }
    assert keys[..|keys|] == keys;
  }

  lemma TruthyKeysStep(rows: seq<Row>, i: nat)
    requires i < |rows|
    ensures TruthyKeys(rows[..i + 1]) ==
      TruthyKeys(rows[..i]) + (if rows[i].truthy then [rows[i].key] else [])
  {
    assert rows[..i + 1][..i] == rows[..i];
  }

  /** The first loop of `stack`: each truthy sub-key not yet in `keys` is appended. */
  method GatherKeys(rows: seq<Row>) returns (keys: seq<string>)
    ensures keys == CollectKeys(rows)
  {
    keys := [];
    for i := 0 to |rows|
      invariant keys == FirstOccurrences(TruthyKeys(rows[..i]))
    {
      var key := rows[i].key;
      TruthyKeysStep(rows, i);
      if rows[i].truthy {
        FirstOccurrencesSnoc(TruthyKeys(rows[..i]), key);
      } else {
        assert TruthyKeys(rows[..i + 1]) == TruthyKeys(rows[..i]);
      }
      if rows[i].truthy && key !in keys {
        keys := keys + [key];
      }
    }
    assert rows[..|rows|] == rows;
  }

  lemma PivotStep(rows: seq<Row>, keys: seq<string>, i: nat)
    requires i < |rows|
    ensures PivotOf(rows[..i + 1], keys) ==
      var p := PivotOf(rows[..i], keys);
      var base := if rows[i].x in p.cells then p.cells[rows[i].x] else ZeroCells(keys);
      Pivot(if rows[i].x in p.cells then p.order else p.order + [rows[i].x],
            p.cells[rows[i].x := base[rows[i].key := rows[i].count]])
  {
    assert rows[..i + 1][..i] == rows[..i];
  }

  /** The second loop of `stack`: the `results` object, a fresh record zero-filled. */
  method FillResults(rows: seq<Row>, keys: seq<string>) returns (p: Pivot)
    ensures p == PivotOf(rows, keys)
  {
    var order: seq<string> := [];
    var results: map<string, map<string, real>> := map[];
    for i := 0 to |rows|
      invariant Pivot(order, results) == PivotOf(rows[..i], keys)
    {
      PivotStep(rows, keys, i);
      var row := rows[i];
      if row.x !in results {
        var newResult := ZeroFill(keys);
        results := results[row.x := newResult];
        order := order + [row.x];
      }
      results := results[row.x := results[row.x][row.key := row.count]];
    }
    assert rows[..|rows|] == rows;
    p := Pivot(order, results);
  }

  /** `stack`: the records and the key list, both built by loops over the rows. */
  method Stack(rows: seq<Row>) returns (stacks: seq<Record>, keys: seq<string>)
    ensures keys == CollectKeys(rows)
    ensures stacks == StackRecords(rows)
  {
    keys := GatherKeys(rows);
    var p := FillResults(rows, keys);
    stacks := Records(p);
  }

  // ---------------------------------------------------------------------------
  // The severity override and the cascade sort
  // ---------------------------------------------------------------------------

  /** The override test: every collected key is one of `SEVERITY_KEYS`. */
  predicate AllSeverity(keys: seq<string>)
  {
    forall k :: k in keys ==> k in SeverityKeys
  }

  /** The legend: the five severity labels when the override fires, the collected keys otherwise. */
  function Legend(keys: seq<string>): seq<string>
  {
    if AllSeverity(keys) then SeverityKeys else keys
  }

  /**
   * The override fires exactly when every row's sub-key is falsy or names a severity label;
   * a result without any truthy sub-key (no collected key) also triggers it.
   */
  lemma SeverityOverrideFires(rows: seq<Row>)
    ensures AllSeverity(CollectKeys(rows)) <==>
      forall i :: 0 <= i < |rows| ==> !rows[i].truthy || rows[i].key in SeverityKeys
  {
    CollectKeysSpec(rows);
    if AllSeverity(CollectKeys(rows)) {
      forall i | 0 <= i < |rows| && rows[i].truthy ensures rows[i].key in SeverityKeys {
        assert HasTruthyKey(rows, rows[i].key);
        assert rows[i].key in CollectKeys(rows);
      }
    }
  }

  /** The legend has no repeated key, with or without the override. */
  lemma LegendNoRepeats(rows: seq<Row>)
    ensures NoRepeats(Legend(CollectKeys(rows)))
  {
    CollectKeysSpec(rows);
    assert |SeverityKeys[0]| == 4 && |SeverityKeys[1]| == 3 && |SeverityKeys[2]| == 6;
    assert |SeverityKeys[3]| == 4 && |SeverityKeys[4]| == 8;
    assert SeverityKeys[0][0] != SeverityKeys[3][0];
  }

  function Reversed<T>(s: seq<T>): (r: seq<T>)
    ensures |r| == |s|
    ensures forall i :: 0 <= i < |s| ==> r[i] == s[|s| - 1 - i]
  {
    if s == [] then [] else Reversed(s[1..]) + [s[0]]
  }

  /** `SEVERITY_KEYS.concat([]).reverse()`: CRITICAL, HIGH, MEDIUM, LOW, NONE. */
  function Cascade(): (c: seq<string>)
    ensures c == ["CRITICAL", "HIGH", "MEDIUM", "LOW", "NONE"]
  {
    Reversed(SeverityKeys)
  }

  /** `a[key] || 0`: a missing property counts as 0. */
  function Cell(r: Record, k: string): real
  {
    if k in r.cells then r.cells[k] else 0.0
  }

  /** A record's counts under the keys of `prio`, in that order. */
  function Vector(r: Record, prio: seq<string>): (v: seq<real>)
    ensures |v| == |prio|
  {
    seq(|prio|, i requires 0 <= i < |prio| => Cell(r, prio[i]))
  }

  /** Lexicographic "greater than" on count vectors of equal length. */
  predicate LexGreater(u: seq<real>, v: seq<real>)
    requires |u| == |v|
  {
    |u| > 0 && (u[0] > v[0] || (u[0] == v[0] && LexGreater(u[1..], v[1..])))
  }

  lemma {:induction false} LexAt(u: seq<real>, v: seq<real>, i: nat)
    requires |u| == |v| && i < |u| && u[..i] == v[..i] && u[i] != v[i]
    ensures LexGreater(u, v) <==> u[i] > v[i]
    ensures LexGreater(v, u) <==> v[i] > u[i]
  {
    if i > 0 {
      assert u[0] == u[..i][0] == v[..i][0] == v[0];
      assert u[1..][..i - 1] == u[1..i] == v[1..i] == v[1..][..i - 1];
      LexAt(u[1..], v[1..], i - 1);
    }
  }

  lemma {:induction false} LexIrreflexive(u: seq<real>)
    ensures !LexGreater(u, u)
  {
    if |u| > 0 {
      LexIrreflexive(u[1..]);
    }
  }

  lemma {:induction false} LexAsymmetric(u: seq<real>, v: seq<real>)
    requires |u| == |v| && LexGreater(u, v)
    ensures !LexGreater(v, u)
  {
    if u[0] == v[0] {
      LexAsymmetric(u[1..], v[1..]);
    }
  }

  lemma {:induction false} LexTransitive(u: seq<real>, v: seq<real>, w: seq<real>)
    requires |u| == |v| == |w| && LexGreater(u, v) && LexGreater(v, w)
    ensures LexGreater(u, w)
  {
    if u[0] == v[0] == w[0] {
      LexTransitive(u[1..], v[1..], w[1..]);
    }
  }

  lemma {:induction false} LexTotal(u: seq<real>, v: seq<real>)
    requires |u| == |v| && u != v
    ensures LexGreater(u, v) || LexGreater(v, u)
  {
    if u[0] == v[0] {
      assert u == [u[0]] + u[1..] && v == [v[0]] + v[1..];
      LexTotal(u[1..], v[1..]);
    }
  }

  /** The comparator returns a negative number: `a` goes before `b`. */
  predicate Precedes(a: Record, b: Record, prio: seq<string>)
  {
    LexGreater(Vector(a, prio), Vector(b, prio))
  }

  function Before(prio: seq<string>): (Record, Record) -> bool
  {
    (a, b) => Precedes(a, b, prio)
  }

  /**
   * The comparator of `sort_stacks_by_priority_cascade`: at the first key of the cascade
   * where the counts differ it returns the second minus the first, and 0 when none differ.
   */
  method Compare(a: Record, b: Record, prio: seq<string>) returns (c: real)
    ensures c < 0.0 <==> Precedes(a, b, prio)
    ensures c > 0.0 <==> Precedes(b, a, prio)
    ensures c == 0.0 <==> Vector(a, prio) == Vector(b, prio)
  {
    ghost var u, v := Vector(a, prio), Vector(b, prio);
    for i := 0 to |prio|
      invariant u[..i] == v[..i]
    {
      var av := Cell(a, prio[i]);
      var bv := Cell(b, prio[i]);
      if av != bv {
        LexAt(u, v, i);
        return bv - av;
      }
      assert u[..i + 1] == u[..i] + [av] && v[..i + 1] == v[..i] + [bv];
    }
    assert u == u[..|prio|] && v == v[..|prio|];
    LexIrreflexive(u);
    return 0.0;
  }

  /**
   * `sort_stacks_by_priority_cascade`: `data.sort(comparator)` reorders the array in
   * place; the outcome is the stable sort by the ordering `Before(prio)`, which is
   * exactly when `Compare` returns a negative number.
   */
  method SortByCascade(a: array<Record>, prio: seq<string>)
    modifies a
    ensures a[..] == StableSort.Sort(old(a[..]), Before(prio))
  {
    StableSort.SortInPlace(a, Before(prio));
  }

  /** `sort_severity_stacks`: the cascade sort over CRITICAL, HIGH, MEDIUM, LOW, NONE. */
  method SortSeverityStacks(a: array<Record>)
    modifies a
    ensures a[..] == StableSort.Sort(old(a[..]), Before(Cascade()))
  {
    SortByCascade(a, Cascade());
  }

  /** Selects the records whose cascade vector is `v`. */
  function WithVector(prio: seq<string>, v: seq<real>): Record -> bool
  {
    (t: Record) => Vector(t, prio) == v
  }

  /** The cascade sort returns a permutation of its input. */
  lemma CascadeSortPermutes(s: seq<Record>, prio: seq<string>)
    ensures multiset(StableSort.Sort(s, Before(prio))) == multiset(s)
  {
    StableSort.SortPermutes(s, Before(prio));
  }

  /** After the cascade sort the count vectors are lexicographically non-increasing. */
  lemma CascadeSortOrdered(s: seq<Record>, prio: seq<string>)
    ensures forall i, j :: 0 <= i < j < |s| ==>
      !LexGreater(Vector(StableSort.Sort(s, Before(prio))[j], prio), Vector(StableSort.Sort(s, Before(prio))[i], prio))
  {
    var before := Before(prio);
    var r := StableSort.Sort(s, before);
    forall a, b | before(a, b) ensures !before(b, a) {
      LexAsymmetric(Vector(a, prio), Vector(b, prio));
    }
    StableSort.SortOrdered(s, before);
    forall i, j | 0 <= i < j < |r| ensures !LexGreater(Vector(r[j], prio), Vector(r[i], prio)) {
      OrderedPairs(r, prio, i, j);
    }
  }

  /** The cascade sort is stable: records with equal count vectors keep their relative order. */
  lemma CascadeSortStable(s: seq<Record>, prio: seq<string>, v: seq<real>)
    ensures StableSort.Filter(StableSort.Sort(s, Before(prio)), WithVector(prio, v))
         == StableSort.Filter(s, WithVector(prio, v))
  {
    var before, p := Before(prio), WithVector(prio, v);
    forall a, b | before(a, b) ensures !(p(a) && p(b)) {
      LexIrreflexive(v);
    }
    StableSort.SortStable(s, before, p);
  }

  lemma {:induction false} OrderedPairs(r: seq<Record>, prio: seq<string>, i: nat, j: nat)
    requires StableSort.Ordered(r, Before(prio))
    requires i < j < |r|
    ensures !LexGreater(Vector(r[j], prio), Vector(r[i], prio))
    decreases j - i
  {
    assert !Before(prio)(r[i + 1], r[i]);
    if i + 1 < j {
      OrderedPairs(r, prio, i + 1, j);
      var u, v, w := Vector(r[j], prio), Vector(r[i + 1], prio), Vector(r[i], prio);
      if LexGreater(u, w) && u != v {
        LexTotal(u, v);
        LexTransitive(v, u, w);
      }
    }
  }

  // ---------------------------------------------------------------------------
  // Truncation and percent normalisation
  // ---------------------------------------------------------------------------

  /** `stacks.slice(0, MAX_BARS(width))`: the first min(n, 20) records, whatever the width. */
  function Truncate(stacks: seq<Record>, width: int): (r: seq<Record>)
    ensures |r| == if |stacks| < 20 then |stacks| else 20
    ensures r == stacks[..|r|]
  {
    var end := MaxBars(width);
    if end < |stacks| then stacks[..end] else stacks
  }

  /** `tot` of percent mode: the sum of the truthy cells under `keys`. */
  function Total(d: Record, keys: seq<string>): real
  {
    if keys == [] then 0.0
    else
      var c := Cell(d, keys[|keys| - 1]);
      Total(d, keys[..|keys| - 1]) + (if c != 0.0 then c else 0.0)
  }

  /** The second loop of percent mode: each truthy cell divided by `tot`, times 100. */
  function Rescaled(cells: map<string, real>, keys: seq<string>, tot: real): map<string, real>
    requires tot != 0.0
  {
    if keys == [] then cells
    else
      var c := Rescaled(cells, keys[..|keys| - 1], tot);
      var k := keys[|keys| - 1];
      if k in c && c[k] != 0.0 then c[k := c[k] / tot * 100.0] else c
  }

  /** A record after percent mode. */
  function Normalised(d: Record, keys: seq<string>): Record
  {
    var tot := Total(d, keys);
    if tot == 0.0 then d else Record(d.x, Rescaled(d.cells, keys, tot))
  }

  /** The first loop of percent mode: `tot` summed over the truthy cells. */
  method SumCells(d: Record, keys: seq<string>) returns (tot: real)
    ensures tot == Total(d, keys)
  {
    tot := 0.0;
    for i := 0 to |keys|
      invariant tot == Total(d, keys[..i])
    {
      assert keys[..i + 1][..i] == keys[..i];
      var name := keys[i];
      if name in d.cells && d.cells[name] != 0.0 {
        tot := tot + d.cells[name];
      }
    }
    assert keys[..|keys|] == keys;
  }

  /** The second loop of percent mode, rewriting the truthy cells one key at a time. */
  method RescaleCells(d: Record, keys: seq<string>, tot: real) returns (e: Record)
    requires tot != 0.0
    ensures e == Record(d.x, Rescaled(d.cells, keys, tot))
  {
    e := d;
    for i := 0 to |keys|
      invariant e == Record(d.x, Rescaled(d.cells, keys[..i], tot))
    {
      assert keys[..i + 1][..i] == keys[..i];
      var name := keys[i];
      if name in e.cells && e.cells[name] != 0.0 {
        e := e.(cells := e.cells[name := e.cells[name] / tot * 100.0]);
      }
    }
    assert keys[..|keys|] == keys;
  }

  /** The percent-mode body for one record: total, then rewrite the truthy cells. */
  method NormaliseRecord(d: Record, keys: seq<string>) returns (e: Record)
    ensures e == Normalised(d, keys)
  {
    var tot := SumCells(d, keys);
    e := d;
    if tot != 0.0 {
      e := RescaleCells(d, keys, tot);
    }
  }

  /** `stacks.forEach(...)` of percent mode, rewriting the records of the array in place. */
  method NormalisePercent(a: array<Record>, keys: seq<string>)
    modifies a
    ensures forall i :: 0 <= i < a.Length ==> a[i] == Normalised(old(a[i]), keys)
  {
    for i := 0 to a.Length
      invariant forall j :: 0 <= j < i ==> a[j] == Normalised(old(a[j]), keys)
      invariant forall j :: i <= j < a.Length ==> a[j] == old(a[j])
    {
      a[i] := NormaliseRecord(a[i], keys);
    }
  }

  lemma {:induction false} RescaledAt(cells: map<string, real>, keys: seq<string>, tot: real, k: string)
    requires tot != 0.0 && NoRepeats(keys)
    ensures k in Rescaled(cells, keys, tot) <==> k in cells
    ensures k in cells ==>
      Rescaled(cells, keys, tot)[k] == (if k in keys && cells[k] != 0.0 then cells[k] / tot * 100.0 else cells[k])
    decreases |keys|
  {
    if keys != [] {
      var init := keys[..|keys| - 1];
      RescaledAt(cells, init, tot, k);
      RescaledAt(cells, init, tot, keys[|keys| - 1]);
      assert keys == init + [keys[|keys| - 1]];
    }
  }

  lemma {:induction false} TotalScaled(d: Record, e: Record, keys: seq<string>, tot: real)
    requires tot != 0.0
    requires forall k :: k in keys ==> Cell(e, k) == Cell(d, k) / tot * 100.0
    ensures Total(e, keys) == Total(d, keys) / tot * 100.0
    decreases |keys|
  {
    if keys != [] {
      var init, k := keys[..|keys| - 1], keys[|keys| - 1];
      TotalScaled(d, e, init, tot);
      var t, c := Total(d, init), Cell(d, k);
      assert Total(d, keys) == t + c;
      assert Total(e, keys) == Total(e, init) + Cell(e, k);
      Distribute(t, c, tot);
    }
  }

  lemma WholeIsHundred(tot: real)
    requires tot != 0.0
    ensures tot / tot * 100.0 == 100.0
  {
  }

  lemma Distribute(t: real, c: real, tot: real)
    requires tot != 0.0
    ensures (t + c) / tot * 100.0 == t / tot * 100.0 + c / tot * 100.0
  {
  }

  /**
   * Percent mode changes only the truthy cells under the legend's keys: zero and missing
   * cells stay zero or missing, no property is added or removed, other properties keep
   * their values, and a record whose cells under the keys are all zero is left unchanged,
   * without any division.
   */
  lemma NormalisedKeepsZeros(d: Record, keys: seq<string>)
    requires NoRepeats(keys)
    ensures Normalised(d, keys).x == d.x
    ensures Normalised(d, keys).cells.Keys == d.cells.Keys
    ensures forall k :: Cell(Normalised(d, keys), k) == 0.0 <==> Cell(d, k) == 0.0
    ensures forall k :: k !in keys ==> Cell(Normalised(d, keys), k) == Cell(d, k)
    ensures (forall k :: k in keys ==> Cell(d, k) == 0.0) ==> Normalised(d, keys) == d
  {
    var tot := Total(d, keys);
    if (forall k :: k in keys ==> Cell(d, k) == 0.0) {
      AllZeroTotal(d, keys);
    }
    if tot != 0.0 {
      forall k ensures (k in Rescaled(d.cells, keys, tot) <==> k in d.cells) {
        RescaledAt(d.cells, keys, tot, k);
      }
      forall k ensures Cell(Normalised(d, keys), k) == 0.0 <==> Cell(d, k) == 0.0 {
        RescaledAt(d.cells, keys, tot, k);
      }
      forall k | k !in keys ensures Cell(Normalised(d, keys), k) == Cell(d, k) {
        RescaledAt(d.cells, keys, tot, k);
      }
    }
  }

  lemma {:induction false} AllZeroTotal(d: Record, keys: seq<string>)
    requires forall k :: k in keys ==> Cell(d, k) == 0.0
    ensures Total(d, keys) == 0.0
    decreases |keys|
  {
    if keys != [] {
      AllZeroTotal(d, keys[..|keys| - 1]);
    }
  }

  /** After percent mode a record whose total is not zero sums to 100 over the legend's keys. */
  lemma NormalisedSumsTo100(d: Record, keys: seq<string>)
    requires NoRepeats(keys)
    requires Total(d, keys) != 0.0
    ensures Total(Normalised(d, keys), keys) == 100.0
  {
    var tot := Total(d, keys);
    var e := Normalised(d, keys);
    forall k | k in keys ensures Cell(e, k) == Cell(d, k) / tot * 100.0 {
      RescaledAt(d.cells, keys, tot, k);
    }
    TotalScaled(d, e, keys, tot);
    WholeIsHundred(tot);
  }

  // ---------------------------------------------------------------------------
  // The stacked branch of render_query_barplot
  // ---------------------------------------------------------------------------

  /** The records in bar order: the severity sort when the override fires. */
  function BarOrder(rows: seq<Row>): seq<Record>
  {
    if AllSeverity(CollectKeys(rows)) then StableSort.Sort(StackRecords(rows), Before(Cascade()))
    else StackRecords(rows)
  }

  /** The records drawn: in bar order, truncated, and normalised in percent mode. */
  function Bars(rows: seq<Row>, width: int, percent: bool): seq<Record>
  {
    var bars := Truncate(BarOrder(rows), width);
    if percent then seq(|bars|, i requires 0 <= i < |bars| => Normalised(bars[i], Legend(CollectKeys(rows))))
    else bars
  }

  /**
   * The stacked branch of `render_query_barplot` up to the drawing: pivot, severity
   * override, slice, percent normalisation.
   */
  method PrepareStackedBars(rows: seq<Row>, width: int, percent: bool) returns (bars: seq<Record>, keys: seq<string>)
    ensures keys == Legend(CollectKeys(rows))
    ensures bars == Bars(rows, width, percent)
  {
    var stacks;
    stacks, keys := Stack(rows);
    var a := new Record[|stacks|](i requires 0 <= i < |stacks| => stacks[i]);
    assert forall i :: 0 <= i < |stacks| ==> a[..][i] == stacks[i];
    assert a[..] == stacks;
    if AllSeverity(keys) {
      keys := SeverityKeys;
      SortSeverityStacks(a);
    }
    var sliced := Truncate(a[..], width);
    var b := new Record[|sliced|](i requires 0 <= i < |sliced| => sliced[i]);
    if percent {
      NormalisePercent(b, keys);
    }
    bars := b[..];
  }

  /** The number of bars is the number of distinct categories, capped at 20 for every width. */
  lemma BarsCount(rows: seq<Row>, width: int, percent: bool)
    ensures |Bars(rows, width, percent)| ==
      if |FirstOccurrences(Categories(rows))| < 20 then |FirstOccurrences(Categories(rows))| else 20
  {
    var keys := CollectKeys(rows);
    PivotOrder(rows, keys);
    StableSort.SortPermutes(StackRecords(rows), Before(Cascade()));
  }

  /**
   * In percent mode every drawn record whose total over the legend is not zero sums to
   * 100, and every other drawn record is the one of the bar order, unchanged.
   */
  lemma PercentBars(rows: seq<Row>, width: int, i: nat)
    requires i < |Bars(rows, width, true)|
    ensures Total(BarOrder(rows)[i], Legend(CollectKeys(rows))) != 0.0 ==>
      Total(Bars(rows, width, true)[i], Legend(CollectKeys(rows))) == 100.0
    ensures Total(BarOrder(rows)[i], Legend(CollectKeys(rows))) == 0.0 ==>
      Bars(rows, width, true)[i] == BarOrder(rows)[i]
  {
    LegendNoRepeats(rows);
    if Total(BarOrder(rows)[i], Legend(CollectKeys(rows))) != 0.0 {
      NormalisedSumsTo100(BarOrder(rows)[i], Legend(CollectKeys(rows)));
    }
  }
}
