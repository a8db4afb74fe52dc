/**
 * The table hierarchy of scripts/get_db_graph.py: tables whose names are nested column
 * paths (`main__a__0__b`) are arranged into a tree, each one under the longest of its
 * `__`-prefixes that is itself a table, and the tree is written out as a Graphviz graph
 * of record nodes.
 *
 * The script keeps the tree as nested dicts and reaches each dict through a second dict,
 * `positions`, that aliases them. Here the two are one value: every name met so far, in
 * the order it was first inserted, with the key of the dict it went into; the dict
 * `positions[k]` is then the list of names whose parent is `k`, in that order.
 */
module DbGraph {
  import opened Base
  import opened Seqs
  import Strings
  import StableSort

  /** A table name cut at its `__` separators (`tuple(tab.split('__'))`). */
  type Chunks = seq<string>

  // ---------------------------------------------------------------------------
  // The hierarchy
  // ---------------------------------------------------------------------------

  /** The sort key `len(n)` of `sorted`, as a strict order. */
  predicate Shorter(a: string, b: string)
  {
    |a| < |b|
  }

  /** `sorted(table_names, key=lambda n: len(n))`: Python's sort is stable. */
  function ByLength(names: seq<string>): seq<string>
  {
    StableSort.Sort(names, Shorter)
  }

  /** `positions` with the nesting of `hierarchy`: the names in insertion order and the dict each went into. */
  datatype Hierarchy = Hierarchy(order: seq<Chunks>, parent: map<Chunks, Option<Chunks>>)

  /** The loop `for sz in range(sz, 0, -1)`: the longest prefix of `c` of at most `sz` chunks that is present. */
  function FindParent(present: set<Chunks>, c: Chunks, sz: nat): (r: Option<Chunks>)
    requires sz < |c|
    ensures r.Some? ==> 1 <= |r.value| <= sz && r.value == c[..|r.value|] && r.value in present
    ensures r.Some? ==> forall j :: |r.value| < j <= sz ==> c[..j] !in present
    ensures r.None? ==> forall j :: 1 <= j <= sz ==> c[..j] !in present
  {
    if sz == 0 then None
    else if c[..sz] in present then Some(c[..sz])
    else FindParent(present, c, sz - 1)
  }

  /** The dict a name goes into: `hierarchy` for a single chunk, else its longest present proper prefix. */
  function ParentIn(present: set<Chunks>, c: Chunks): Option<Chunks>
    requires |c| >= 1
  {
    if |c| == 1 then None else FindParent(present, c, |c| - 1)
  }

  /** A name finds its dict: it is a single chunk, or one of its proper prefixes is present. */
  predicate Fits(present: set<Chunks>, name: string)
  {
    var c := Strings.Split(name);
    |c| == 1 || FindParent(present, c, |c| - 1).Some?
  }

  /** `positions[c] = ...[c] = {}`: a key already there keeps its place. */
  function Put(h: Hierarchy, c: Chunks, p: Option<Chunks>): Hierarchy
  {
    Hierarchy(if c in h.parent then h.order else h.order + [c], h.parent[c := p])
  }

  /** One iteration of the loop over the sorted names; the `ValueError` carries the chunks. */
  function AddName(h: Hierarchy, tab: string): Result<Hierarchy, Chunks>
  {
    var c := Strings.Split(tab);
    if !Fits(h.parent.Keys, tab) then Raise(c)
    else Ok(Put(h, c, ParentIn(h.parent.Keys, c)))
  }

  /** The loop over `names`, stopping at the first name that finds no dict. */
  function Build(names: seq<string>): Result<Hierarchy, Chunks>
  {
    if names == [] then Ok(Hierarchy([], map[]))
    else
      match Build(names[..|names| - 1])
      case Raise(c) => Raise(c)
      case Ok(h) => AddName(h, names[|names| - 1])
  }

  /** `get_table_hierarchy`, before the keys are joined back. */
  function TableHierarchy(names: seq<string>): Result<Hierarchy, Chunks>
  {
    Build(ByLength(names))
  }

  /** The search for the parent candidate, with its `for ... else`. */
  method FindParentCandidate(positions: map<Chunks, Option<Chunks>>, c: Chunks) returns (p: Option<Chunks>)
    requires |c| > 1
    ensures p == FindParent(positions.Keys, c, |c| - 1)
  {
    var sz := |c| - 1;
    while sz > 0
      invariant 0 <= sz < |c|
      invariant FindParent(positions.Keys, c, |c| - 1) == FindParent(positions.Keys, c, sz)
    {
      if c[..sz] in positions {
        return Some(c[..sz]);
      }
      sz := sz - 1;
    }
    return None;
  }

  lemma {:induction false} BuildRaise(names: seq<string>, i: nat)
    requires i < |names| && Build(names[..i + 1]).Raise?
    ensures Build(names) == Build(names[..i + 1])
    decreases |names|
  {
    if i + 1 < |names| {
      var init := names[..|names| - 1];
      assert init[..i + 1] == names[..i + 1];
      BuildRaise(init, i);
    } else {
      assert names[..i + 1] == names;
    }
  }

  lemma BuildStep(names: seq<string>, i: nat)
    requires i < |names|
    ensures Build(names[..i + 1]) ==
      match Build(names[..i]) case Raise(c) => Raise(c) case Ok(h) => AddName(h, names[i])
  {
    assert names[..i + 1][..i] == names[..i];
  }

  /** The loop of `get_table_hierarchy`, filling `positions`. */
  method PlaceNames(tableNames: seq<string>) returns (r: Result<Hierarchy, Chunks>)
    ensures r == TableHierarchy(tableNames)
  {
    var names := ByLength(tableNames);
    var order: seq<Chunks> := [];
    var positions: map<Chunks, Option<Chunks>> := map[];
    for i := 0 to |names|
      invariant Build(names[..i]) == Ok(Hierarchy(order, positions))
    {
      BuildStep(names, i);
      var c := Strings.Split(names[i]);
      var p: Option<Chunks> := None;
      if |c| > 1 {
        p := FindParentCandidate(positions, c);
        if p.None? {
          BuildRaise(names, i);
          return Raise(c);
        }
      }
      if c !in positions {
        order := order + [c];
      }
      positions := positions[c := p];
    }
    assert names[..|names|] == names;
    return Ok(Hierarchy(order, positions));
  }

  /** The chunks of every name. */
  function ChunkSet(names: seq<string>): set<Chunks>
  {
    set n | n in names :: Strings.Split(n)
  }

  /** The chunks of each name, in order. */
  function Chunked(names: seq<string>): (cs: seq<Chunks>)
    ensures |cs| == |names|
  {
    seq(|names|, i requires 0 <= i < |names| => Strings.Split(names[i]))
  }

  lemma ChunkSetSnoc(init: seq<string>, n: string)
    ensures ChunkSet(init + [n]) == ChunkSet(init) + {Strings.Split(n)}
  {
    forall m | m in init + [n] ensures m in init || m == n {}
  }

  lemma ChunkSetChunked(s: seq<string>)
    ensures forall c :: c in ChunkSet(s) <==> c in Chunked(s)
  {
    forall c | c in Chunked(s) ensures c in ChunkSet(s) {
      var k :| 0 <= k < |s| && Chunked(s)[k] == c;
      assert s[k] in s;
    }
    forall c | c in ChunkSet(s) ensures c in Chunked(s) {
      var n :| n in s && Strings.Split(n) == c;
      var k :| 0 <= k < |s| && s[k] == n;
      assert Chunked(s)[k] == c;
    }
  }

  /** The keys are the chunks of the names. */
  lemma {:induction false} BuildKeys(s: seq<string>)
    ensures Build(s).Ok? ==> Build(s).value.parent.Keys == ChunkSet(s)
    decreases |s|
  {
    if s != [] {
      var init := s[..|s| - 1];
      BuildKeys(init);
      assert s == init + [s[|s| - 1]];
      ChunkSetSnoc(init, s[|s| - 1]);
    }
  }

  /** The keys are listed in the order in which the names that give them first occur. */
  lemma {:induction false} BuildOrder(s: seq<string>)
    ensures Build(s).Ok? ==> Build(s).value.order == FirstOccurrences(Chunked(s))
    decreases |s|
  {
    if s != [] && Build(s).Ok? {
      var init := s[..|s| - 1];
      BuildOrder(init);
      BuildKeys(init);
      ChunkSetChunked(init);
      FirstOccurrencesMembers(Chunked(init));
      assert Chunked(s)[..|s| - 1] == Chunked(init);
    }
  }

  /** Names in order of non-decreasing length. */
  ghost predicate LengthSorted(s: seq<string>)
  {
    forall i, j :: 0 <= i < j < |s| ==> |s[i]| <= |s[j]|
  }

  lemma {:induction false} OrderedChain(s: seq<string>, i: nat, j: nat)
    requires StableSort.Ordered(s, Shorter) && i <= j < |s|
    ensures |s[i]| <= |s[j]|
    decreases j - i
  {
    if i < j {
      OrderedChain(s, i, j - 1);
      assert !Shorter(s[j], s[j - 1]);
    }
  }

  /** Sorting by length orders the names by length and keeps them all. */
  lemma ByLengthSpec(names: seq<string>)
    ensures LengthSorted(ByLength(names))
    ensures ChunkSet(ByLength(names)) == ChunkSet(names)
    ensures multiset(ByLength(names)) == multiset(names)
  {
    var s := ByLength(names);
    StableSort.SortOrdered(names, Shorter);
    StableSort.SortPermutes(names, Shorter);
    forall i, j | 0 <= i < j < |s| ensures |s[i]| <= |s[j]| {
      OrderedChain(s, i, j);
    }
    forall n ensures n in s <==> n in names {
      assert n in s <==> n in multiset(s);
    }
  }

  /** A name whose chunks are a proper prefix of another name's chunks is shorter. */
  lemma PrefixShorter(a: string, b: string, j: nat)
    requires 1 <= j < |Strings.Split(b)| && Strings.Split(a) == Strings.Split(b)[..j]
    ensures |a| < |b|
  {
    var cb := Strings.Split(b);
    Strings.JoinSplit(a);
    Strings.JoinSplit(b);
    assert cb == cb[..j] + cb[j..];
    Strings.JoinConcat(cb[..j], cb[j..], Strings.Joiner);
  }

  lemma {:induction false} FindParentSame(a: set<Chunks>, b: set<Chunks>, c: Chunks, sz: nat)
    requires sz < |c|
    requires forall j :: 1 <= j <= sz ==> (c[..j] in a <==> c[..j] in b)
    ensures FindParent(a, c, sz) == FindParent(b, c, sz)
    decreases sz
  {
    if sz > 0 {
      FindParentSame(a, b, c, sz - 1);
    }
  }

  /** Every key sits in the dict of its longest proper prefix among `all`, or at the top. */
  ghost predicate Placed(h: Hierarchy, all: set<Chunks>)
  {
    forall c :: c in h.parent ==> |c| >= 1 && h.parent[c] == ParentIn(all, c)
  }

  /**
   * When a name's turn comes, every shorter name is already in: the prefixes present then
   * are all the prefixes there will ever be.
   */
  lemma PresentPrefixes(s: seq<string>, i: nat)
    requires LengthSorted(s) && i < |s|
    ensures forall j :: 1 <= j < |Strings.Split(s[i])| ==>
      (Strings.Split(s[i])[..j] in ChunkSet(s[..i]) <==> Strings.Split(s[i])[..j] in ChunkSet(s))
  {
    var c := Strings.Split(s[i]);
    forall j | 1 <= j < |c| && c[..j] in ChunkSet(s) ensures c[..j] in ChunkSet(s[..i]) {
      var m :| m in s && Strings.Split(m) == c[..j];
      PrefixShorter(m, s[i], j);
      var k :| 0 <= k < |s| && s[k] == m;
      assert s[..i][k] == m;
    }
    forall j | 1 <= j < |c| && c[..j] in ChunkSet(s[..i]) ensures c[..j] in ChunkSet(s) {
      var m :| m in s[..i] && Strings.Split(m) == c[..j];
      assert m in s;
    }
  }

  /** A name finds the same dict among the names before it as among all the names. */
  lemma SameDict(s: seq<string>, i: nat)
    requires LengthSorted(s) && i < |s|
    ensures Fits(ChunkSet(s[..i]), s[i]) == Fits(ChunkSet(s), s[i])
    ensures ParentIn(ChunkSet(s[..i]), Strings.Split(s[i])) == ParentIn(ChunkSet(s), Strings.Split(s[i]))
  {
    var c := Strings.Split(s[i]);
    PresentPrefixes(s, i);
    if |c| > 1 {
      FindParentSame(ChunkSet(s[..i]), ChunkSet(s), c, |c| - 1);
    }
  }

  /** The first `i` names all find a dict among `all`. */
  ghost predicate AllFit(s: seq<string>, all: set<Chunks>, i: nat)
    requires i <= |s|
  {
    forall j :: 0 <= j < i ==> Fits(all, s[j])
  }

  lemma BuildSnoc(s: seq<string>, i: nat)
    requires 0 < i <= |s|
    ensures Build(s[..i]).Ok? <==>
      Build(s[..i - 1]).Ok? && Fits(Build(s[..i - 1]).value.parent.Keys, s[i - 1])
  {
    assert s[..i][..i - 1] == s[..i - 1];
  }

  /** The loop over names sorted by length gets through the first `i` exactly when they all fit. */
  lemma {:induction false} BuildSortedOk(s: seq<string>, i: nat)
    requires LengthSorted(s) && i <= |s|
    ensures Build(s[..i]).Ok? <==> AllFit(s, ChunkSet(s), i)
    decreases i
  {
    if i > 0 {
      var init, K := s[..i - 1], ChunkSet(s);
      BuildSortedOk(s, i - 1);
      assert Build(init).Ok? ==> Fits(Build(init).value.parent.Keys, s[i - 1]) == Fits(K, s[i - 1]) by {
        BuildKeys(init);
        SameDict(s, i - 1);
      }
      BuildSnoc(s, i);
      assert AllFit(s, K, i) <==> AllFit(s, K, i - 1) && Fits(K, s[i - 1]);
    }
  }

  /** Putting a key in the dict it has among `all` keeps every key placed. */
  lemma PutPlaced(h: Hierarchy, c: Chunks, all: set<Chunks>)
    requires Placed(h, all) && |c| >= 1
    ensures Placed(Put(h, c, ParentIn(all, c)), all)
  {
  }

  /** ... and each name it has put is placed as among all the names. */
  lemma {:induction false} BuildSortedPlaced(s: seq<string>, i: nat)
    requires LengthSorted(s) && i <= |s|
    ensures Build(s[..i]).Ok? ==> Placed(Build(s[..i]).value, ChunkSet(s))
    decreases i
  {
    if i > 0 && Build(s[..i]).Ok? {
      var init, K := s[..i - 1], ChunkSet(s);
      var c := Strings.Split(s[i - 1]);
      assert s[..i][..i - 1] == init;
      var h := Build(init).value;
      assert Build(s[..i]) == AddName(h, s[i - 1]);
      BuildSortedPlaced(s, i - 1);
      assert ParentIn(h.parent.Keys, c) == ParentIn(K, c) by {
        BuildKeys(init);
        SameDict(s, i - 1);
      }
      PutPlaced(h, c, K);
    }
  }

  /**
   * `get_table_hierarchy` succeeds exactly when every name of more than one chunk has a
   * proper prefix among the names; it then holds every name, a name of one chunk at the
   * top and any other in the dict of its longest proper prefix among all the names.
   */
  lemma HierarchySpec(names: seq<string>)
    ensures TableHierarchy(names).Ok? ==> forall n :: n in names ==> Fits(ChunkSet(names), n)
    ensures (forall n :: n in names ==> Fits(ChunkSet(names), n)) ==> TableHierarchy(names).Ok?
    ensures TableHierarchy(names).Ok? ==> TableHierarchy(names).value.parent.Keys == ChunkSet(names)
    ensures TableHierarchy(names).Ok? ==> Placed(TableHierarchy(names).value, ChunkSet(names))
  {
    var s := ByLength(names);
    ByLengthSpec(names);
    BuildSortedOk(s, |s|);
    BuildSortedPlaced(s, |s|);
    BuildKeys(s);
    assert s[..|s|] == s;
    forall n | n in names ensures n in s {
      assert n in multiset(names);
    }
    forall n | n in s ensures n in names {
      assert n in multiset(s);
    }
  }

  lemma ParentPrecedesChild(s: seq<string>, c: Chunks)
    requires LengthSorted(s) && c in ChunkSet(s) && |c| >= 1 && ParentIn(ChunkSet(s), c).Some?
    ensures ParentIn(ChunkSet(s), c).value in Chunked(s) && c in Chunked(s)
    ensures IndexOf(Chunked(s), ParentIn(ChunkSet(s), c).value) < IndexOf(Chunked(s), c)
  {
    var p := ParentIn(ChunkSet(s), c).value;
    ChunkSetChunked(s);
    var cs := Chunked(s);
    var kp, kc := IndexOf(cs, p), IndexOf(cs, c);
    assert Strings.Split(s[kp]) == p && Strings.Split(s[kc]) == c;
    assert |p| < |c| && p == c[..|p|];
    PrefixShorter(s[kp], s[kc], |p|);
    assert kp != kc;
  }

  /**
   * A name of one chunk is at the top and any other is in a dict, whose name is inserted
   * before it.
   */
  lemma ParentsFirst(names: seq<string>)
    ensures TableHierarchy(names).Ok? ==> forall c :: c in TableHierarchy(names).value.parent ==>
      (TableHierarchy(names).value.parent[c].None? <==> |c| == 1)
    ensures TableHierarchy(names).Ok? ==> forall c ::
      c in TableHierarchy(names).value.parent && TableHierarchy(names).value.parent[c].Some? ==>
        var order := TableHierarchy(names).value.order;
        var p := TableHierarchy(names).value.parent[c].value;
        p in order && c in order && IndexOf(order, p) < IndexOf(order, c)
  {
    if TableHierarchy(names).Ok? {
      var s := ByLength(names);
      var h := TableHierarchy(names).value;
      HierarchySpec(names);
      ByLengthSpec(names);
      BuildOrder(s);
      forall c | c in h.parent ensures h.parent[c].None? <==> |c| == 1 {
        var n :| n in names && Strings.Split(n) == c;
      }
      forall c | c in h.parent && h.parent[c].Some?
        ensures h.parent[c].value in h.order && c in h.order
        ensures IndexOf(h.order, h.parent[c].value) < IndexOf(h.order, c)
      {
        ParentPrecedesChild(s, c);
        FirstOccurrencesIndexOrder(Chunked(s), h.parent[c].value, c);
      }
    }
  }

  // ---------------------------------------------------------------------------
  // The nested dicts and `rec_join_key_names`
  // ---------------------------------------------------------------------------

  /** A dict of dicts: a key and the dict it maps to, whose items are in insertion order. */
  datatype Tree<K> = Tree(key: K, children: seq<Tree<K>>)

  /** What `positions` keeps: the listed keys are the keys, and a key's dict is a shorter key. */
  ghost predicate WellFormed(h: Hierarchy)
  {
    (forall c :: c in h.parent <==> c in h.order) &&
    forall c :: c in h.parent ==>
      1 <= |c| && (h.parent[c].Some? ==> h.parent[c].value in h.parent && |h.parent[c].value| < |c|)
  }

  function MaxLen(cs: seq<Chunks>): (m: nat)
    ensures forall c :: c in cs ==> |c| <= m
  {
    if cs == [] then 0
    else
      assert cs == cs[..|cs| - 1] + [cs[|cs| - 1]];
      var m := MaxLen(cs[..|cs| - 1]);
      if |cs[|cs| - 1]| > m then |cs[|cs| - 1]| else m
  }

  function Depth(p: Option<Chunks>): nat
  {
    if p.None? then 0 else |p.value|
  }

  /**
   * The dict `p` (`hierarchy` itself for `None`): the keys of `cs` that went into it, in
   * order, each with its own dict.
   */
  function Forest(h: Hierarchy, p: Option<Chunks>, cs: seq<Chunks>): seq<Tree<Chunks>>
    requires WellFormed(h)
    requires forall c :: c in cs ==> c in h.parent
    requires Depth(p) <= MaxLen(h.order)
    decreases MaxLen(h.order) - Depth(p), |cs|
  {
    if cs == [] then []
    else
      var c := cs[|cs| - 1];
      var init := Forest(h, p, cs[..|cs| - 1]);
      if h.parent[c] == p then init + [Tree(c, Forest(h, Some(c), h.order))] else init
  }

  /** The dict `hierarchy`, with the dicts nested in it. */
  function Nest(h: Hierarchy): seq<Tree<Chunks>>
    requires WellFormed(h)
  {
    Forest(h, None, h.order)
  }

  /** Every key anywhere in the nested dicts. */
  function AllKeys<K>(ts: seq<Tree<K>>): set<K>
  {
    if ts == [] then {}
    else AllKeys(ts[..|ts| - 1]) + {ts[|ts| - 1].key} + AllKeys(ts[|ts| - 1].children)
  }

  /** `rec_join_key_names`: every key joined back with `__`, at every level. */
  function RecJoin(ts: seq<Tree<Chunks>>): (r: seq<Tree<string>>)
    ensures |r| == |ts|
  {
    if ts == [] then []
    else
      var t := ts[|ts| - 1];
      RecJoin(ts[..|ts| - 1]) + [Tree(Strings.Join(t.key, Strings.Joiner), RecJoin(t.children))]
  }

  /** The last tree's keys join the keys of the trees before it. */
  lemma AllKeysSnoc<K>(ts: seq<Tree<K>>)
    requires ts != []
    ensures AllKeys(ts) == AllKeys(ts[..|ts| - 1]) + {ts[|ts| - 1].key} + AllKeys(ts[|ts| - 1].children)
  {
  }

  /** Each of a set of chunk lists joined with `__`. */
  function JoinAll(cs: set<Chunks>): set<string>
  {
    set c | c in cs :: Strings.Join(c, Strings.Joiner)
  }

  lemma JoinAllUnion(a: set<Chunks>, b: set<Chunks>, c: set<Chunks>)
    ensures JoinAll(a + b + c) == JoinAll(a) + JoinAll(b) + JoinAll(c)
  {
  }

  /** The keys after joining are exactly the joined keys. */
  lemma {:induction false} RecJoinKeys(ts: seq<Tree<Chunks>>)
    ensures AllKeys(RecJoin(ts)) == JoinAll(AllKeys(ts))
    decreases ts
  {
    if ts != [] {
      var t, init := ts[|ts| - 1], ts[..|ts| - 1];
      RecJoinKeys(init);
      RecJoinKeys(t.children);
      var r := RecJoin(ts);
      assert r[..|r| - 1] == RecJoin(init);
      AllKeysSnoc(r);
      AllKeysSnoc(ts);
      JoinAllUnion(AllKeys(init), {t.key}, AllKeys(t.children));
      assert JoinAll({t.key}) == {Strings.Join(t.key, Strings.Joiner)};
    }
  }

  lemma {:induction false} AllKeysMember<K>(ts: seq<Tree<K>>, t: Tree<K>)
    requires t in ts
    ensures t.key in AllKeys(ts) && AllKeys(t.children) <= AllKeys(ts)
    decreases |ts|
  {
    if t != ts[|ts| - 1] {
      assert ts == ts[..|ts| - 1] + [ts[|ts| - 1]];
      AllKeysMember(ts[..|ts| - 1], t);
    }
  }

  /** The nested dicts hold keys of the hierarchy only. */
  lemma {:induction false} ForestKeys(h: Hierarchy, p: Option<Chunks>, cs: seq<Chunks>)
    requires WellFormed(h)
    requires forall c :: c in cs ==> c in h.parent
    requires Depth(p) <= MaxLen(h.order)
    ensures AllKeys(Forest(h, p, cs)) <= h.parent.Keys
    decreases MaxLen(h.order) - Depth(p), |cs|
  {
    if cs != [] {
      var c := cs[|cs| - 1];
      ForestKeys(h, p, cs[..|cs| - 1]);
      if h.parent[c] == p {
        ForestKeys(h, Some(c), h.order);
      }
    }
  }

  /** A key of `cs` that went into `p` is an item of the dict `p`. */
  lemma {:induction false} ForestHas(h: Hierarchy, p: Option<Chunks>, cs: seq<Chunks>, c: Chunks)
    requires WellFormed(h)
    requires forall c :: c in cs ==> c in h.parent
    requires Depth(p) <= MaxLen(h.order)
    requires c in cs && h.parent[c] == p
    ensures Tree(c, Forest(h, Some(c), h.order)) in Forest(h, p, cs)
    decreases |cs|
  {
    if c != cs[|cs| - 1] {
      assert cs == cs[..|cs| - 1] + [cs[|cs| - 1]];
      ForestHas(h, p, cs[..|cs| - 1], c);
    }
  }

  /** Every key is reached from `hierarchy`, along with everything in its dict. */
  lemma {:induction false} Reach(h: Hierarchy, c: Chunks)
    requires WellFormed(h) && c in h.parent
    ensures c in AllKeys(Nest(h)) && AllKeys(Forest(h, Some(c), h.order)) <= AllKeys(Nest(h))
    decreases |c|
  {
    match h.parent[c]
    case None =>
      ForestHas(h, None, h.order, c);
      AllKeysMember(Nest(h), Tree(c, Forest(h, Some(c), h.order)));
    case Some(q) =>
      Reach(h, q);
      ForestHas(h, Some(q), h.order, c);
      AllKeysMember(Forest(h, Some(q), h.order), Tree(c, Forest(h, Some(c), h.order)));
  }

  /** The hierarchy built from any names is well formed. */
  lemma HierarchyWellFormed(names: seq<string>)
    requires TableHierarchy(names).Ok?
    ensures WellFormed(TableHierarchy(names).value)
  {
    var s := ByLength(names);
    var h := TableHierarchy(names).value;
    HierarchySpec(names);
    ByLengthSpec(names);
    BuildOrder(s);
    ChunkSetChunked(s);
    FirstOccurrencesMembers(Chunked(s));
  }

  /** `get_table_hierarchy`: the nested dicts with their keys joined back. */
  function JoinedHierarchy(names: seq<string>): Result<seq<Tree<string>>, Chunks>
  {
    match TableHierarchy(names)
    case Raise(c) => Raise(c)
    case Ok(h) =>
      HierarchyWellFormed(names);
      Ok(RecJoin(Nest(h)))
  }

  /** Each key of the result is one of the names, and each name is a key of the result. */
  lemma JoinedNames(names: seq<string>)
    ensures JoinedHierarchy(names).Ok? ==> forall n :: n in AllKeys(JoinedHierarchy(names).value) <==> n in names
  {
    if JoinedHierarchy(names).Ok? {
      var h := TableHierarchy(names).value;
      HierarchySpec(names);
      HierarchyWellFormed(names);
      RecJoinKeys(Nest(h));
      ForestKeys(h, None, h.order);
      forall n | n in AllKeys(RecJoin(Nest(h))) ensures n in names {
        var c :| c in AllKeys(Nest(h)) && n == Strings.Join(c, Strings.Joiner);
        var m :| m in names && Strings.Split(m) == c;
        Strings.JoinSplit(m);
      }
      forall n | n in names ensures n in AllKeys(RecJoin(Nest(h))) {
        Reach(h, Strings.Split(n));
        Strings.JoinSplit(n);
      }
    }
  }

  /** `get_table_hierarchy`. */
  method GetTableHierarchy(tableNames: seq<string>) returns (r: Result<seq<Tree<string>>, Chunks>)
    ensures r == JoinedHierarchy(tableNames)
  {
    var placed := PlaceNames(tableNames);
    match placed
    case Raise(c) =>
      return Raise(c);
    case Ok(h) =>
      HierarchyWellFormed(tableNames);
      return Ok(RecJoin(Nest(h)));
  }
}
