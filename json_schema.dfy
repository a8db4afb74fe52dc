/**
 * Schema inference for line-delimited JSON (scripts/json-to-sqlite3.py): the schema of one
 * JSON value, the merge of two schemas, and the flattening of a schema into typed column
 * paths.
 *
 * A schema is a tree whose leaves are the Python type objects `int`, `float` and `str`,
 * whose inner nodes are lists (of at most one element, when built from data) and dicts,
 * and which may hold a node of any other Python type, which the merge rejects.  Python
 * dicts become maps: the order in which `set(...) | set(...)` yields keys depends on
 * hashing and is not modelled.
 */
module JsonSchema {
  import opened Base

  /** A value as `json.loads` returns it; `JBool` is Python's `bool`, a subclass of `int`. */
  datatype Json =
    | JInt(i: int)
    | JFloat(f: real)
    | JBool(b: bool)
    | JStr(s: string)
    | JNull
    | JArray(items: seq<Json>)
    | JObject(members: seq<Member>)

  /**
   * One item of a decoded JSON object, in document order. The dict `json.loads` returns has
   * distinct keys (a repeated key keeps its last value); a member list with a repeated key
   * stands for no Python value, and what the model computes for it says nothing about the script.
   */
  datatype Member = Member(key: string, value: Json)

  datatype Exc = AssertionError | ValueError

  datatype Schema =
    | SInt
    | SFloat
    | SStr
    | SList(items: seq<Schema>)
    | SDict(fields: map<string, Schema>)
    | SOther(typeName: string)

  /** The Python type of a schema node: the three leaves are all of type `type`. */
  datatype PyType = TypeObject | ListType | DictType | OtherType(name: string)

  function TypeOf(s: Schema): PyType
  {
    match s
    case SList(_) => ListType
    case SDict(_) => DictType
    case SOther(t) => OtherType(t)
    case _ => TypeObject
  }

  /** `s1 in (int, str, float)`. */
  predicate IsLeaf(s: Schema)
  {
    s.SInt? || s.SFloat? || s.SStr?
  }

  /** No node of an unknown type anywhere in the tree. */
  ghost predicate NoOther(s: Schema)
  {
    match s
    case SList(items) => forall i :: 0 <= i < |items| ==> NoOther(items[i])
    case SDict(fields) => forall k :: k in fields ==> NoOther(fields[k])
    case SOther(_) => false
    case _ => true
  }

  /** The schemas that data produces: no unknown nodes and no list of two or more schemas. */
  ghost predicate WellFormed(s: Schema)
  {
    match s
    case SList(items) => |items| <= 1 && forall i :: 0 <= i < |items| ==> WellFormed(items[i])
    case SDict(fields) => forall k :: k in fields ==> WellFormed(fields[k])
    case SOther(_) => false
    case _ => true
  }

  // ---------------------------------------------------------------------------
  // merge_schemas
  // ---------------------------------------------------------------------------

  /** `merge_schemas(s1, s2)`. */
  function Merge(s1: Schema, s2: Schema): Result<Schema, Exc>
    decreases s1, 1
  {
    if IsLeaf(s1) then
      if s1 == s2 then Ok(s1) else Raise(AssertionError)
    else if TypeOf(s1) != TypeOf(s2) then Raise(AssertionError)
    else
      match s1
      case SList(l1) =>
        var l2 := s2.items;
        if |l1| == 0 then Ok(s2)
        else if |l2| == 0 then Ok(s1)
        else if |l1| != 1 || |l2| != 1 then Raise(AssertionError)
        else
          (match Merge(l1[0], l2[0])
           case Ok(m) => Ok(SList([m]))
           case Raise(e) => Raise(e))
      case SDict(d1) => Collect(MergedFields(s1, s2))
      case _ => Raise(ValueError)
  }

  /** The loop over `set(s1.keys()) | set(s2.keys())`: each key's schema, or its merge's error. */
  function MergedFields(s1: Schema, s2: Schema): (m: map<string, Result<Schema, Exc>>)
    requires s1.SDict? && s2.SDict?
    ensures m.Keys == s1.fields.Keys + s2.fields.Keys
    decreases s1, 0
  {
    var d1, d2 := s1.fields, s2.fields;
    map k | k in d1.Keys + d2.Keys ::
      if k in d1 && k in d2 then Merge(d1[k], d2[k])
      else if k in d1 then Ok(d1[k])
      else Ok(d2[k])
  }

  /**
   * The result dict of a dict merge.  When several keys fail, which exception surfaces
   * depends on the iteration order of the key set; the model reports `AssertionError`
   * whenever one of them raised it.
   */
  function Collect(merged: map<string, Result<Schema, Exc>>): Result<Schema, Exc>
  {
    if exists k :: k in merged && merged[k] == Raise(AssertionError) then Raise(AssertionError)
    else if exists k :: k in merged && merged[k].Raise? then Raise(ValueError)
    else Ok(SDict(map k | k in merged :: merged[k].value))
  }

  lemma CollectOk(merged: map<string, Result<Schema, Exc>>, d: map<string, Schema>)
    requires merged.Keys == d.Keys
    requires forall k :: k in d ==> merged[k] == Ok(d[k])
    ensures Collect(merged) == Ok(SDict(d))
  {
    assert (map k | k in merged :: merged[k].value) == d;
  }

  /** Merging is commutative, errors included. */
  lemma {:induction false} MergeCommutes(a: Schema, b: Schema)
    ensures Merge(a, b) == Merge(b, a)
    decreases a
  {
    match a
    case SList(l1) =>
      if b.SList? && |l1| == 1 && |b.items| == 1 {
        MergeCommutes(l1[0], b.items[0]);
      }
    case SDict(d1) =>
      if b.SDict? {
        var d2 := b.fields;
        forall k | k in d1 && k in d2 ensures Merge(d1[k], d2[k]) == Merge(d2[k], d1[k]) {
          MergeCommutes(d1[k], d2[k]);
        }
        assert MergedFields(a, b) == MergedFields(b, a);
      }
    case _ =>
  }

  /** A well-formed schema merged with itself is itself. */
  lemma {:induction false} MergeIdempotent(s: Schema)
    requires WellFormed(s)
    ensures Merge(s, s) == Ok(s)
    decreases s
  {
    match s
    case SList(l) =>
      if |l| == 1 {
        MergeIdempotent(l[0]);
        assert s == SList([l[0]]);
      }
    case SDict(d) =>
      forall k | k in d ensures Merge(d[k], d[k]) == Ok(d[k]) {
        MergeIdempotent(d[k]);
      }
      CollectOk(MergedFields(s, s), d);
    case _ =>
  }

  /**
   * The empty dict, the accumulator's start value, is an identity for dicts; anything that
   * is not a dict cannot be merged with it.
   */
  lemma MergeEmptyDict(s: Schema)
    ensures Merge(SDict(map[]), s) == if s.SDict? then Ok(s) else Raise(AssertionError)
  {
    if s.SDict? {
      CollectOk(MergedFields(SDict(map[]), s), s.fields);
    }
  }

  /** The empty list is an identity for lists; anything that is not a list cannot be merged with it. */
  lemma MergeEmptyList(s: Schema)
    ensures Merge(SList([]), s) == if s.SList? then Ok(s) else Raise(AssertionError)
    ensures Merge(s, SList([])) == if s.SList? then Ok(s) else Raise(AssertionError)
  {
    MergeCommutes(s, SList([]));
  }

  /**
   * A successful merge joins nodes of one Python type, and two leaves only when they are
   * the same type; a dict merge that succeeds has exactly the union of the keys, keeps the
   * schema of a key found on one side, and merges the schemas of a key found on both.
   */
  lemma MergeShape(a: Schema, b: Schema)
    ensures Merge(a, b).Ok? ==> TypeOf(a) == TypeOf(b) && (IsLeaf(a) ==> a == b)
    ensures Merge(a, b).Ok? && a.SDict? ==>
      Merge(a, b).value.SDict? && Merge(a, b).value.fields.Keys == a.fields.Keys + b.fields.Keys
    ensures Merge(a, b).Ok? && a.SDict? ==> forall k :: k in a.fields && k !in b.fields ==>
      Merge(a, b).value.fields[k] == a.fields[k]
    ensures Merge(a, b).Ok? && a.SDict? ==> forall k :: k in b.fields && k !in a.fields ==>
      Merge(a, b).value.fields[k] == b.fields[k]
    ensures Merge(a, b).Ok? && a.SDict? ==> forall k :: k in a.fields && k in b.fields ==>
      Merge(a.fields[k], b.fields[k]) == Ok(Merge(a, b).value.fields[k])
  {
  }

  /** A dict merge fails exactly when the merge of some key found on both sides fails. */
  lemma MergeDictFails(d1: map<string, Schema>, d2: map<string, Schema>)
    ensures Merge(SDict(d1), SDict(d2)).Raise? <==>
      exists k :: k in d1 && k in d2 && Merge(d1[k], d2[k]).Raise?
  {
    var merged := map k | k in d1.Keys + d2.Keys ::
      if k in d1 && k in d2 then Merge(d1[k], d2[k]) else if k in d1 then Ok(d1[k]) else Ok(d2[k]);
    if exists k :: k in d1 && k in d2 && Merge(d1[k], d2[k]).Raise? {
      var k :| k in d1 && k in d2 && Merge(d1[k], d2[k]).Raise?;
      assert merged[k].Raise?;
    }
  }

  /** `ValueError` comes only from a node of unknown type in the first schema. */
  lemma {:induction false} MergeValueError(a: Schema, b: Schema)
    requires NoOther(a)
    ensures Merge(a, b) != Raise(ValueError)
    decreases a
  {
    match a
    case SList(l1) =>
      if b.SList? && |l1| == 1 && |b.items| == 1 {
        MergeValueError(l1[0], b.items[0]);
      }
    case SDict(d1) =>
      if b.SDict? {
        var d2 := b.fields;
        var merged := MergedFields(a, b);
        forall k | k in merged ensures merged[k] != Raise(ValueError) {
          if k in d1 && k in d2 {
            MergeValueError(d1[k], d2[k]);
            assert merged[k] == Merge(d1[k], d2[k]);
          } else {
            assert merged[k].Ok?;
          }
        }
        if exists k :: k in merged && merged[k].Raise? {
          var k :| k in merged && merged[k].Raise?;
          assert merged[k] != Raise(ValueError);
          assert merged[k].exc.AssertionError?;
          assert merged[k] == Raise(AssertionError);
        }
      }
    case _ =>
  }

  /** Merging well-formed schemas yields a well-formed schema. */
  lemma {:induction false} MergeWellFormed(a: Schema, b: Schema)
    requires WellFormed(a) && WellFormed(b) && Merge(a, b).Ok?
    ensures WellFormed(Merge(a, b).value)
    decreases a
  {
    match a
    case SList(l1) =>
      if |l1| == 1 && |b.items| == 1 {
        MergeWellFormed(l1[0], b.items[0]);
      }
    case SDict(d1) =>
      var d2 := b.fields;
      MergeShape(a, b);
      var d := Merge(a, b).value.fields;
      forall k | k in d ensures WellFormed(d[k]) {
        if k in d1 && k in d2 {
          MergeWellFormed(d1[k], d2[k]);
        }
      }
    case _ =>
  }

  lemma {:induction false} WellFormedNoOther(s: Schema)
    requires WellFormed(s)
    ensures NoOther(s)
    decreases s
  {
    match s
    case SList(l) =>
      forall i | 0 <= i < |l| ensures NoOther(l[i]) {
        WellFormedNoOther(l[i]);
      }
    case SDict(d) =>
      forall k | k in d ensures NoOther(d[k]) {
        WellFormedNoOther(d[k]);
      }
    case _ =>
  }

  /**
   * `merge_schemas` as the source runs it: the dict branch walks the key union in some order
   * and stops at the first key whose merge raises.  It succeeds exactly when `Merge` does,
   * with the same schema; when it fails, it raises what `Merge` raises whenever `s1` holds no
   * unknown node (otherwise the exception depends on the order of the keys).
   */
  method MergeSchemas(s1: Schema, s2: Schema) returns (r: Result<Schema, Exc>)
    ensures r.Ok? <==> Merge(s1, s2).Ok?
    ensures r.Ok? ==> r == Merge(s1, s2)
    ensures NoOther(s1) ==> r == Merge(s1, s2)
    decreases s1
  {
    if IsLeaf(s1) {
      if s1 != s2 {
        return Raise(AssertionError);
      }
      return Ok(s1);
    }
    if TypeOf(s1) != TypeOf(s2) {
      return Raise(AssertionError);
    }
    match s1
    case SList(l1) =>
      var l2 := s2.items;
      if |l1| == 0 {
        return Ok(s2);
      } else if |l2| == 0 {
        return Ok(s1);
      }
      if |l1| != 1 || |l2| != 1 {
        return Raise(AssertionError);
      }
      var m := MergeSchemas(l1[0], l2[0]);
      if m.Raise? {
        return m;
      }
      return Ok(SList([m.value]));
    case SDict(d1) =>
      var d2 := s2.fields;
      ghost var merged := MergedFields(s1, s2);
      var keys := d1.Keys + d2.Keys;
      var result: map<string, Schema> := map[];
      while keys != {}
        invariant keys <= d1.Keys + d2.Keys
        invariant result.Keys == d1.Keys + d2.Keys - keys
        invariant forall k :: k in result ==> merged[k] == Ok(result[k])
        decreases keys
      {
        var k :| k in keys;
        if k in d1 && k !in d2 {
          result := result[k := d1[k]];
        } else if k in d2 && k !in d1 {
          result := result[k := d2[k]];
        } else {
          var m := MergeSchemas(d1[k], d2[k]);
          if m.Raise? {
            assert merged[k].Raise?;
            if NoOther(s1) {
              MergeValueError(d1[k], d2[k]);
              assert merged[k].exc.AssertionError?;
            }
            return m;
          }
          result := result[k := m.value];
        }
        keys := keys - {k};
      }
      CollectOk(merged, result);
      return Ok(SDict(result));
    case SOther(_) =>
      return Raise(ValueError);
  }

  // ---------------------------------------------------------------------------
  // get_data_schema
  // ---------------------------------------------------------------------------

  /** The first error of a sequence of results, or all their values. */
  function AllOk(rs: seq<Result<Schema, Exc>>): (r: Result<seq<Schema>, Exc>)
    ensures r.Ok? <==> forall i :: 0 <= i < |rs| ==> rs[i].Ok?
    ensures r.Ok? ==> |r.value| == |rs| && forall i :: 0 <= i < |rs| ==> rs[i] == Ok(r.value[i])
  {
    if rs == [] then Ok([])
    else
      match rs[0]
      case Raise(e) => Raise(e)
      case Ok(s) =>
        match AllOk(rs[1..])
        case Raise(e) => Raise(e)
        case Ok(ss) => Ok([s] + ss)
  }

  /** `rs[i]` is the first error of `rs`, and it is `e`. */
  ghost predicate FirstErrorAt(rs: seq<Result<Schema, Exc>>, i: nat, e: Exc)
  {
    i < |rs| && rs[i] == Raise(e) && forall j :: 0 <= j < i ==> rs[j].Ok?
  }

  /** The error of `AllOk` is that of the first result that is an error. */
  lemma {:induction false} AllOkFirstError(rs: seq<Result<Schema, Exc>>) returns (i: nat)
    requires AllOk(rs).Raise?
    ensures FirstErrorAt(rs, i, AllOk(rs).exc)
  {
    if rs[0].Raise? {
      return 0;
    }
    var i' := AllOkFirstError(rs[1..]);
    i := i' + 1;
    forall j | 0 <= j < i ensures rs[j].Ok? {
      if j > 0 { assert rs[j] == rs[1..][j - 1]; }
    }
  }

  /** The loop `schema = merge_schemas(schema, subschema)` over the items' schemas. */
  function FoldMerge(ss: seq<Schema>): Result<Schema, Exc>
    requires ss != []
  {
    if |ss| == 1 then Ok(ss[0])
    else
      match FoldMerge(ss[..|ss| - 1])
      case Ok(acc) => Merge(acc, ss[|ss| - 1])
      case Raise(e) => Raise(e)
  }

  /** The dict `schema[k] = get_data_schema(v)` builds, given the members' schemas. */
  function Fields(ms: seq<Member>, ss: seq<Schema>): map<string, Schema>
    requires |ms| == |ss|
  {
    if ms == [] then map[]
    else Fields(ms[..|ms| - 1], ss[..|ss| - 1])[ms[|ms| - 1].key := ss[|ss| - 1]]
  }

  lemma FieldsStep(ms: seq<Member>, ss: seq<Schema>, i: nat, s: Schema)
    requires i < |ms| && |ss| == i
    ensures Fields(ms[..i + 1], ss + [s]) == Fields(ms[..i], ss)[ms[i].key := s]
  {
    assert ms[..i + 1][..i] == ms[..i];
    assert (ss + [s])[..i] == ss;
  }

  /** `get_data_schema(data)`. */
  function DataSchema(j: Json): Result<Schema, Exc>
    decreases j
  {
    match j
    case JInt(_) => Ok(SFloat)
    case JBool(_) => Ok(SFloat)
    case JFloat(_) => Ok(SFloat)
    case JStr(_) => Ok(SStr)
    case JNull => Raise(ValueError)
    case JArray(items) =>
      var subs := seq(|items|, i requires 0 <= i < |items| => DataSchema(items[i]));
      (match AllOk(subs)
       case Raise(e) => Raise(e)
       case Ok(ss) =>
         if ss == [] then Ok(SList([]))
         else
           (match FoldMerge(ss)
            case Ok(s) => Ok(SList([s]))
            case Raise(e) => Raise(e)))
    case JObject(ms) =>
      var subs := seq(|ms|, i requires 0 <= i < |ms| => DataSchema(ms[i].value));
      match AllOk(subs)
      case Raise(e) => Raise(e)
      case Ok(ss) => Ok(SDict(Fields(ms, ss)))
  }

  /** A null anywhere in the value. */
  predicate ContainsNull(j: Json)
  {
    match j
    case JNull => true
    case JArray(items) => exists i :: 0 <= i < |items| && ContainsNull(items[i])
    case JObject(ms) => exists i :: 0 <= i < |ms| && ContainsNull(ms[i].value)
    case _ => false
  }

  lemma {:induction false} FoldMergeWellFormed(ss: seq<Schema>)
    requires ss != [] && forall i :: 0 <= i < |ss| ==> WellFormed(ss[i])
    ensures FoldMerge(ss).Ok? ==> WellFormed(FoldMerge(ss).value)
    ensures FoldMerge(ss) != Raise(ValueError)
    decreases |ss|
  {
    if |ss| > 1 {
      FoldMergeWellFormed(ss[..|ss| - 1]);
      if FoldMerge(ss[..|ss| - 1]).Ok? {
        var acc := FoldMerge(ss[..|ss| - 1]).value;
        WellFormedNoOther(acc);
        MergeValueError(acc, ss[|ss| - 1]);
        if Merge(acc, ss[|ss| - 1]).Ok? {
          MergeWellFormed(acc, ss[|ss| - 1]);
        }
      }
    }
  }

  lemma {:induction false} FieldsWellFormed(ms: seq<Member>, ss: seq<Schema>)
    requires |ms| == |ss| && forall i :: 0 <= i < |ss| ==> WellFormed(ss[i])
    ensures forall k :: k in Fields(ms, ss) ==> WellFormed(Fields(ms, ss)[k])
    ensures forall k :: k in Fields(ms, ss) ==> exists i :: 0 <= i < |ms| && ms[i].key == k
    ensures forall i :: 0 <= i < |ms| ==> ms[i].key in Fields(ms, ss)
    decreases |ms|
  {
    if ms != [] {
      var ms', ss' := ms[..|ms| - 1], ss[..|ss| - 1];
      FieldsWellFormed(ms', ss');
      forall k | k in Fields(ms, ss) ensures exists i :: 0 <= i < |ms| && ms[i].key == k {
        if k != ms[|ms| - 1].key {
          var i :| 0 <= i < |ms'| && ms'[i].key == k;
          assert ms[i].key == k;
        }
      }
      forall i | 0 <= i < |ms| ensures ms[i].key in Fields(ms, ss) {
        var k := ms[i].key;
        if i < |ms'| {
          assert ms'[i].key == k;
        }
      }
    }
  }

  /**
   * The schema of any value is well formed (lists of at most one schema, no unknown
   * nodes), and the only `ValueError` comes from a null in the value.
   */
  lemma {:induction false} DataSchemaWellFormed(j: Json)
    ensures DataSchema(j).Ok? ==> WellFormed(DataSchema(j).value)
    ensures !ContainsNull(j) ==> DataSchema(j) != Raise(ValueError)
    decreases j
  {
    match j
    case JArray(items) =>
      var subs := seq(|items|, i requires 0 <= i < |items| => DataSchema(items[i]));
      forall i | 0 <= i < |items|
        ensures subs[i].Ok? ==> WellFormed(subs[i].value)
        ensures !ContainsNull(items[i]) ==> subs[i] != Raise(ValueError)
      {
        DataSchemaWellFormed(items[i]);
      }
      if AllOk(subs).Raise? {
        var _ := AllOkFirstError(subs);
      } else if AllOk(subs).value != [] {
        FoldMergeWellFormed(AllOk(subs).value);
      }
    case JObject(ms) =>
      var subs := seq(|ms|, i requires 0 <= i < |ms| => DataSchema(ms[i].value));
      forall i | 0 <= i < |ms|
        ensures subs[i].Ok? ==> WellFormed(subs[i].value)
        ensures !ContainsNull(ms[i].value) ==> subs[i] != Raise(ValueError)
      {
        DataSchemaWellFormed(ms[i].value);
      }
      if AllOk(subs).Raise? {
        var _ := AllOkFirstError(subs);
      } else {
        FieldsWellFormed(ms, AllOk(subs).value);
      }
    case _ =>
  }

  /** A null anywhere in the value makes `get_data_schema` raise. */
  lemma {:induction false} NullRaises(j: Json)
    requires ContainsNull(j)
    ensures DataSchema(j).Raise?
    decreases j
  {
    match j
    case JArray(items) =>
      var i :| 0 <= i < |items| && ContainsNull(items[i]);
      NullRaises(items[i]);
      var subs := seq(|items|, i requires 0 <= i < |items| => DataSchema(items[i]));
      assert subs[i].Raise?;
    case JObject(ms) =>
      var i :| 0 <= i < |ms| && ContainsNull(ms[i].value);
      NullRaises(ms[i].value);
      var subs := seq(|ms|, i requires 0 <= i < |ms| => DataSchema(ms[i].value));
      assert subs[i].Raise?;
    case _ =>
  }

  lemma {:induction false} FoldMergeSame(ss: seq<Schema>, s: Schema)
    requires ss != [] && WellFormed(s)
    requires forall i :: 0 <= i < |ss| ==> ss[i] == s
    ensures FoldMerge(ss) == Ok(s)
    decreases |ss|
  {
    if |ss| > 1 {
      FoldMergeSame(ss[..|ss| - 1], s);
      MergeIdempotent(s);
    }
  }

  /**
   * A non-empty list whose items all have one schema `s` has the schema `[s]`: the fold
   * of the merge over equal schemas is that schema.
   */
  lemma UniformList(items: seq<Json>, s: Schema)
    requires items != [] && forall i :: 0 <= i < |items| ==> DataSchema(items[i]) == Ok(s)
    ensures DataSchema(JArray(items)) == Ok(SList([s]))
  {
    DataSchemaWellFormed(items[0]);
    var subs := seq(|items|, i requires 0 <= i < |items| => DataSchema(items[i]));
    var ss := AllOk(subs).value;
    FoldMergeSame(ss, s);
  }

  /** The first error of a sequence of results is the error of `AllOk`. */
  lemma {:induction false} AllOkAt(rs: seq<Result<Schema, Exc>>, i: nat)
    requires i < |rs| && rs[i].Raise? && forall j :: 0 <= j < i ==> rs[j].Ok?
    ensures AllOk(rs) == Raise(rs[i].exc)
  {
    if i > 0 {
      AllOkAt(rs[1..], i - 1);
    }
  }

  /** Once the fold fails on a prefix, it fails with that error. */
  lemma {:induction false} FoldMergeRaise(ss: seq<Schema>, i: nat)
    requires 1 <= i <= |ss| && FoldMerge(ss[..i]).Raise?
    ensures FoldMerge(ss) == FoldMerge(ss[..i])
    decreases |ss| - i
  {
    if i < |ss| {
      assert ss[..i + 1][..i] == ss[..i];
      FoldMergeRaise(ss, i + 1);
    } else {
      assert ss[..i] == ss;
    }
  }

  /** The loop `schema = merge_schemas(schema, subschema)` over well-formed schemas. */
  method MergeAll(ss: seq<Schema>) returns (r: Result<Schema, Exc>)
    requires ss != [] && forall k :: 0 <= k < |ss| ==> WellFormed(ss[k])
    ensures r == FoldMerge(ss)
  {
    var schema := ss[0];
    for i := 1 to |ss|
      invariant FoldMerge(ss[..i]) == Ok(schema)
    {
      assert ss[..i + 1][..i] == ss[..i];
      FoldMergeWellFormed(ss[..i]);
      WellFormedNoOther(schema);
      var m := MergeSchemas(schema, ss[i]);
      if m.Raise? {
        assert FoldMerge(ss[..i + 1]) == m;
        FoldMergeRaise(ss, i + 1);
        return m;
      }
      schema := m.value;
    }
    assert ss[..|ss|] == ss;
    return Ok(schema);
  }

  /**
   * `get_data_schema` as the source runs it: the items' (or members') schemas one by one,
   * stopping at the first error, then the fold of `merge_schemas` over the items' schemas.
   */
  method GetDataSchema(j: Json) returns (r: Result<Schema, Exc>)
    ensures r == DataSchema(j)
    decreases j, 1
  {
    match j
    case JInt(_) =>
      return Ok(SFloat);
    case JBool(_) =>
      return Ok(SFloat);
    case JFloat(_) =>
      return Ok(SFloat);
    case JStr(_) =>
      return Ok(SStr);
    case JNull =>
      return Raise(ValueError);
    case JArray(items) =>
      r := ListSchema(items);
    case JObject(ms) =>
      r := DictSchema(ms);
  }

  /** The list branch of `get_data_schema`. */
  method ListSchema(items: seq<Json>) returns (r: Result<Schema, Exc>)
    ensures r == DataSchema(JArray(items))
    decreases JArray(items), 0
  {
    ghost var subs := seq(|items|, i requires 0 <= i < |items| => DataSchema(items[i]));
    var subschemas: seq<Schema> := [];
    for i := 0 to |items|
      invariant |subschemas| == i
      invariant forall k :: 0 <= k < i ==> subs[k] == Ok(subschemas[k])
    {
      var s := GetDataSchema(items[i]);
      if s.Raise? {
        AllOkAt(subs, i);
        return s;
      }
      subschemas := subschemas + [s.value];
    }
    assert AllOk(subs).Ok?;
    assert AllOk(subs).value == subschemas;
    if |subschemas| == 0 {
      return Ok(SList([]));
    }
    forall k | 0 <= k < |items| ensures WellFormed(subschemas[k]) {
      DataSchemaWellFormed(items[k]);
    }
    var schema := MergeAll(subschemas);
    if schema.Raise? {
      return schema;
    }
    return Ok(SList([schema.value]));
  }

  /** The dict branch of `get_data_schema`. */
  method DictSchema(ms: seq<Member>) returns (r: Result<Schema, Exc>)
    ensures r == DataSchema(JObject(ms))
    decreases JObject(ms), 0
  {
    ghost var subs := seq(|ms|, i requires 0 <= i < |ms| => DataSchema(ms[i].value));
    ghost var ss: seq<Schema> := [];
    var schema: map<string, Schema> := map[];
    for i := 0 to |ms|
      invariant |ss| == i
      invariant forall k :: 0 <= k < i ==> subs[k] == Ok(ss[k])
      invariant schema == Fields(ms[..i], ss)
    {
      var s := GetDataSchema(ms[i].value);
      if s.Raise? {
        AllOkAt(subs, i);
        return s;
      }
      FieldsStep(ms, ss, i, s.value);
      schema := schema[ms[i].key := s.value];
      ss := ss + [s.value];
    }
    assert AllOk(subs).Ok?;
    assert AllOk(subs).value == ss;
    assert ms[..|ms|] == ms;
    return Ok(SDict(schema));
  }

  /** The accumulator of `get_schema_from_file`: `{}` merged with each line's schema in turn. */
  function SchemaOfLines(lines: seq<Json>): Result<Schema, Exc>
  {
    if lines == [] then Ok(SDict(map[]))
    else
      match SchemaOfLines(lines[..|lines| - 1])
      case Raise(e) => Raise(e)
      case Ok(acc) =>
        match DataSchema(lines[|lines| - 1])
        case Raise(e) => Raise(e)
        case Ok(s) => Merge(acc, s)
  }

  /** A file of one JSON object has that object's schema; a first line that is not an object fails. */
  lemma SchemaOfOneLine(j: Json)
    ensures DataSchema(j).Ok? && j.JObject? ==> SchemaOfLines([j]) == DataSchema(j)
    ensures DataSchema(j).Ok? && !j.JObject? ==> SchemaOfLines([j]) == Raise(AssertionError)
  {
    assert [j][..0] == [];
    if DataSchema(j).Ok? {
      MergeEmptyDict(DataSchema(j).value);
    }
  }

  // ---------------------------------------------------------------------------
  // flatten_schema
  // ---------------------------------------------------------------------------

  /** A component of a column path: a dict key, or a list index. */
  datatype Step = Key(name: string) | Index(i: nat)

  datatype ColType = Text | Number

  /** A `(path, type)` pair of `flatten_schema`. */
  datatype Column = Column(path: seq<Step>, colType: ColType)

  /** The columns of the sub-tree below `path`. */
  function FlattenNode(node: Schema, path: seq<Step>): Result<set<Column>, Exc>
    decreases node
  {
    match node
    case SStr => Ok({Column(path, Text)})
    case SFloat => Ok({Column(path, Number)})
    case SList(items) =>
      if |items| == 0 then Ok({})
      else if |items| > 1 then Raise(AssertionError)
      else FlattenNode(items[0], path + [Index(0)])
    case SDict(fields) => Union(map k | k in fields :: FlattenNode(fields[k], path + [Key(k)]))
    case _ => Ok({})
  }

  function Union(parts: map<string, Result<set<Column>, Exc>>): Result<set<Column>, Exc>
  {
    if exists k :: k in parts && parts[k].Raise? then Raise(AssertionError)
    else Ok(set k, c | k in parts && c in parts[k].value :: c)
  }

  /** `flatten_schema(schema)`, as the set of what it yields. */
  function Flatten(schema: map<string, Schema>): Result<set<Column>, Exc>
  {
    Union(map k | k in schema :: FlattenNode(schema[k], [Key(k)]))
  }

  /** The node a path leads to. */
  function Lookup(node: Schema, path: seq<Step>): Option<Schema>
    decreases node
  {
    if path == [] then Some(node)
    else
      match path[0]
      case Key(k) => if node.SDict? && k in node.fields then Lookup(node.fields[k], path[1..]) else None
      case Index(i) => if node.SList? && i < |node.items| then Lookup(node.items[i], path[1..]) else None
  }

  /** The column type of a leaf, if it yields a column. */
  function LeafType(s: Option<Schema>): Option<ColType>
  {
    match s
    case Some(SStr) => Some(Text)
    case Some(SFloat) => Some(Number)
    case _ => None
  }

  /** A list of two or more schemas somewhere in the tree. */
  predicate HasLongList(node: Schema)
  {
    match node
    case SList(items) => |items| > 1 || (|items| == 1 && HasLongList(items[0]))
    case SDict(fields) => exists k :: k in fields && HasLongList(fields[k])
    case _ => false
  }

  /** Column `c` lies under `path`, and the rest of its path leads from `node` to a leaf of its type. */
  ghost predicate Under(node: Schema, path: seq<Step>, c: Column)
  {
    |path| <= |c.path| && c.path[..|path|] == path && LeafType(Lookup(node, c.path[|path|..])) == Some(c.colType)
  }

  /** Descending one step from `path` into `child` keeps a column under the parent node. */
  lemma UnderStep(node: Schema, child: Schema, path: seq<Step>, step: Step, c: Column)
    requires Lookup(node, [step]) == Some(child)
    requires forall r :: Lookup(node, [step] + r) == Lookup(child, r)
    ensures Under(child, path + [step], c) <==> (Under(node, path, c) && |path| < |c.path| && c.path[|path|] == step)
  {
    var p' := path + [step];
    if Under(child, p', c) {
      assert c.path[..|path|] == c.path[..|p'|][..|path|];
      assert c.path[|path|] == c.path[..|p'|][|path|];
      assert c.path[|path|..] == [step] + c.path[|p'|..];
    }
    if Under(node, path, c) && |path| < |c.path| && c.path[|path|] == step {
      assert c.path[..|p'|] == c.path[..|path|] + [c.path[|path|]];
      assert c.path[|path|..] == [step] + c.path[|p'|..];
    }
  }

  lemma LookupKey(fields: map<string, Schema>, k: string, r: seq<Step>)
    requires k in fields
    ensures Lookup(SDict(fields), [Key(k)] + r) == Lookup(fields[k], r)
  {
    assert ([Key(k)] + r)[1..] == r;
  }

  lemma LookupIndex(items: seq<Schema>, r: seq<Step>)
    requires |items| == 1
    ensures Lookup(SList(items), [Index(0)] + r) == Lookup(items[0], r)
  {
    assert ([Index(0)] + r)[1..] == r;
  }

  /**
   * What `recur(node, path)` yields: it fails exactly when `node` holds a list of two or more
   * schemas, always with an `AssertionError`; otherwise it yields exactly the columns under
   * `path` whose remaining path leads from `node` to a leaf of their type.
   */
  ghost predicate FlattensCorrectly(node: Schema, path: seq<Step>)
  {
    && (FlattenNode(node, path).Raise? <==> HasLongList(node))
    && (FlattenNode(node, path).Raise? ==> FlattenNode(node, path).exc == AssertionError)
    && (FlattenNode(node, path).Ok? ==> forall c :: c in FlattenNode(node, path).value ==> Under(node, path, c))
    && (FlattenNode(node, path).Ok? ==> forall c :: Under(node, path, c) ==> c in FlattenNode(node, path).value)
  }

  lemma FlattenListCase(items: seq<Schema>, path: seq<Step>)
    requires |items| == 1 && FlattensCorrectly(items[0], path + [Index(0)])
    ensures FlattensCorrectly(SList(items), path)
  {
    var node := SList(items);
    var p' := path + [Index(0)];
    assert FlattenNode(node, path) == FlattenNode(items[0], p');
    forall r | true ensures Lookup(node, [Index(0)] + r) == Lookup(items[0], r) {
      LookupIndex(items, r);
    }
    LookupIndex(items, []);
    forall c | Under(node, path, c) ensures Under(items[0], p', c) {
      UnderStep(node, items[0], path, Index(0), c);
    }
    forall c | Under(items[0], p', c) ensures Under(node, path, c) {
      UnderStep(node, items[0], path, Index(0), c);
    }
  }

  lemma FlattenDictCase(fields: map<string, Schema>, path: seq<Step>)
    requires forall k :: k in fields ==> FlattensCorrectly(fields[k], path + [Key(k)])
    ensures FlattensCorrectly(SDict(fields), path)
  {
    var node := SDict(fields);
    var parts := map k | k in fields :: FlattenNode(fields[k], path + [Key(k)]);
    assert FlattenNode(node, path) == Union(parts);
    if HasLongList(node) {
      var k :| k in fields && HasLongList(fields[k]);
      assert parts[k].Raise?;
    }
    if Union(parts).Raise? {
      var k :| k in parts && parts[k].Raise?;
      assert HasLongList(fields[k]);
    }
    if Union(parts).Ok? {
      DictColumnsUnder(fields, path, parts);
      DictUnderColumns(fields, path, parts);
    }
  }

  /** Descending into the member `k` of a dict node. */
  lemma DictStep(fields: map<string, Schema>, path: seq<Step>, k: string, c: Column)
    requires k in fields
    ensures Under(fields[k], path + [Key(k)], c) <==>
      (Under(SDict(fields), path, c) && |path| < |c.path| && c.path[|path|] == Key(k))
  {
    forall r | true ensures Lookup(SDict(fields), [Key(k)] + r) == Lookup(fields[k], r) {
      LookupKey(fields, k, r);
    }
    LookupKey(fields, k, []);
    UnderStep(SDict(fields), fields[k], path, Key(k), c);
  }

  /** Every column a dict's members yield lies under the dict. */
  lemma DictColumnsUnder(fields: map<string, Schema>, path: seq<Step>, parts: map<string, Result<set<Column>, Exc>>)
    requires parts == map k | k in fields :: FlattenNode(fields[k], path + [Key(k)])
    requires forall k :: k in fields ==> FlattensCorrectly(fields[k], path + [Key(k)])
    requires Union(parts).Ok?
    ensures forall c :: c in Union(parts).value ==> Under(SDict(fields), path, c)
  {
    forall c | c in Union(parts).value ensures Under(SDict(fields), path, c) {
      var k :| k in parts && c in parts[k].value;
      DictStep(fields, path, k, c);
    }
  }

  /** Every column under a dict is yielded by one of its members. */
  lemma DictUnderColumns(fields: map<string, Schema>, path: seq<Step>, parts: map<string, Result<set<Column>, Exc>>)
    requires parts == map k | k in fields :: FlattenNode(fields[k], path + [Key(k)])
    requires forall k :: k in fields ==> FlattensCorrectly(fields[k], path + [Key(k)])
    requires Union(parts).Ok?
    ensures forall c :: Under(SDict(fields), path, c) ==> c in Union(parts).value
  {
    forall c | Under(SDict(fields), path, c) ensures c in Union(parts).value {
      var rest := c.path[|path|..];
      if rest != [] && rest[0].Key? && rest[0].name in fields {
        var k := rest[0].name;
        DictStep(fields, path, k, c);
        assert c in parts[k].value;
      }
    }
  }

  lemma FlattenOtherCase(node: Schema, path: seq<Step>)
    requires !node.SDict? && !(node.SList? && |node.items| == 1)
    ensures FlattensCorrectly(node, path)
  {
    match node
    case SStr =>
      forall c | Under(node, path, c) ensures c == Column(path, Text) {
        UnderLeaf(node, path, c);
      }
    case SFloat =>
      forall c | Under(node, path, c) ensures c == Column(path, Number) {
        UnderLeaf(node, path, c);
      }
    case _ =>
  }

  /** Under a leaf, the only column is the leaf's own. */
  lemma UnderLeaf(node: Schema, path: seq<Step>, c: Column)
    requires Under(node, path, c) && (node.SStr? || node.SFloat?)
    ensures c.path == path && Some(c.colType) == LeafType(Some(node))
  {
    var rest := c.path[|path|..];
    assert c.path == c.path[..|path|] + rest;
  }

  /** `recur` yields what `FlattensCorrectly` says, by induction on the node. */
  lemma {:induction false} FlattenNodeSpec(node: Schema, path: seq<Step>)
    ensures FlattensCorrectly(node, path)
    decreases node
  {
    match node
    case SList(items) =>
      if |items| == 1 {
        FlattenNodeSpec(items[0], path + [Index(0)]);
        FlattenListCase(items, path);
      } else {
        FlattenOtherCase(node, path);
      }
    case SDict(fields) =>
      forall k | k in fields ensures FlattensCorrectly(fields[k], path + [Key(k)]) {
        FlattenNodeSpec(fields[k], path + [Key(k)]);
      }
      FlattenDictCase(fields, path);
    case _ =>
      FlattenOtherCase(node, path);
  }

  /**
   * `flatten_schema` fails with an `AssertionError` exactly when the schema holds a list of
   * two or more schemas; otherwise it yields a `(path, type)` pair for each path that leads
   * to `str` (TEXT) or `float` (NUMBER), a list step being index 0, and nothing for `int`,
   * unknown nodes, empty lists and empty dicts.
   */
  lemma FlattenSpec(schema: map<string, Schema>)
    ensures Flatten(schema).Raise? ==> exists k :: k in schema && HasLongList(schema[k])
    ensures (exists k :: k in schema && HasLongList(schema[k])) ==> Flatten(schema).Raise?
    ensures Flatten(schema).Raise? ==> Flatten(schema).exc == AssertionError
    ensures Flatten(schema).Ok? ==> forall c :: c in Flatten(schema).value ==> LeafType(Lookup(SDict(schema), c.path)) == Some(c.colType)
    ensures Flatten(schema).Ok? ==> forall c: Column :: LeafType(Lookup(SDict(schema), c.path)) == Some(c.colType) ==> c in Flatten(schema).value
  {
    FlattenNodeSpec(SDict(schema), []);
    var empty: seq<Step> := [];
    assert forall k :: empty + [Key(k)] == [Key(k)];
    assert (map k | k in schema :: FlattenNode(schema[k], [Key(k)]))
        == (map k | k in schema :: FlattenNode(schema[k], empty + [Key(k)]));
    assert Flatten(schema) == FlattenNode(SDict(schema), empty);
    forall c ensures Under(SDict(schema), empty, c) <==> LeafType(Lookup(SDict(schema), c.path)) == Some(c.colType) {
      assert c.path[0..] == c.path;
    }
  }
}
