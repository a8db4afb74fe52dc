/**
 * Sequence helpers shared by the models: the first occurrences of the elements of a
 * sequence, which is the order in which a JavaScript object or a Python dict lists keys
 * assigned one after another.
 */
module Seqs {
  /** `s` with every repeat of an earlier element dropped. */
  function FirstOccurrences<T(==)>(s: seq<T>): seq<T>
  {
    if s == [] then []
    else
      var r := FirstOccurrences(s[..|s| - 1]);
      if s[|s| - 1] in r then r else r + [s[|s| - 1]]
  }

  lemma FirstOccurrencesSnoc<T>(t: seq<T>, x: T)
    ensures FirstOccurrences(t + [x]) ==
      (if x in FirstOccurrences(t) then FirstOccurrences(t) else FirstOccurrences(t) + [x])
  {
    assert (t + [x])[..|t|] == t;
  }

  /** A prefix one longer is the prefix with the next element appended. */
  lemma PrefixSnoc<T>(s: seq<T>, i: nat)
    requires i < |s|
    ensures s[..i + 1] == s[..i] + [s[i]]
  {
  }

  /** The position of the first `y` in `s`. */
  function IndexOf<T(==)>(s: seq<T>, y: T): (k: nat)
    requires y in s
    ensures k < |s| && s[k] == y
    ensures forall j :: 0 <= j < k ==> s[j] != y
  {
    if s[0] == y then 0 else 1 + IndexOf(s[1..], y)
  }

  ghost predicate NoRepeats<T>(s: seq<T>)
  {
    forall i, j :: 0 <= i < j < |s| ==> s[i] != s[j]
  }

  /** The elements of `r` appear in the order in which they first occur in `s`. */
  ghost predicate InFirstOccurrenceOrder<T>(r: seq<T>, s: seq<T>)
  {
    forall i, j :: 0 <= i < j < |r| && r[i] in s && r[j] in s ==> IndexOf(s, r[i]) < IndexOf(s, r[j])
  }

  lemma IndexOfPrefix<T>(s: seq<T>, n: nat, y: T)
    requires n <= |s| && y in s[..n]
    ensures IndexOf(s, y) == IndexOf(s[..n], y)
  {
    var k, k' := IndexOf(s, y), IndexOf(s[..n], y);
    assert s[k'] == s[..n][k'] == y;
    assert k <= k';
    assert s[..n][k] == y;
  }

  lemma {:induction false} FirstOccurrencesMembers<T>(s: seq<T>)
    ensures forall y :: y in FirstOccurrences(s) ==> y in s
    ensures forall y :: y in s ==> y in FirstOccurrences(s)
    decreases |s|
  {
    if s != [] {
      FirstOccurrencesMembers(s[..|s| - 1]);
      assert s == s[..|s| - 1] + [s[|s| - 1]];
    }
  }

  lemma {:induction false} FirstOccurrencesNoRepeats<T>(s: seq<T>)
    ensures NoRepeats(FirstOccurrences(s))
    decreases |s|
  {
    if s != [] {
      var r' := FirstOccurrences(s[..|s| - 1]);
      FirstOccurrencesNoRepeats(s[..|s| - 1]);
      var r := FirstOccurrences(s);
      var last := s[|s| - 1];
      if last !in r' {
        assert r == r' + [last];
        forall i, j | 0 <= i < j < |r| ensures r[i] != r[j] {
          if j == |r'| { assert r[i] == r'[i]; }
        }
      }
    }
  }

  lemma {:induction false} FirstOccurrencesOrder<T>(s: seq<T>)
    ensures InFirstOccurrenceOrder(FirstOccurrences(s), s)
    decreases |s|
  {
    if s != [] {
      var init, last := s[..|s| - 1], s[|s| - 1];
      FirstOccurrencesOrder(init);
      FirstOccurrencesMembers(init);
      var r' := FirstOccurrences(init);
      var r := FirstOccurrences(s);
      assert forall i :: 0 <= i < |r'| ==> r'[i] in r';
      forall i | 0 <= i < |r'| ensures IndexOf(s, r'[i]) == IndexOf(init, r'[i]) < |init| {
        IndexOfPrefix(s, |s| - 1, r'[i]);
      }
      if last !in r' {
        assert forall j :: 0 <= j < |s| - 1 ==> s[j] == init[j] != last;
        assert s[|s| - 1] == last;
        assert IndexOf(s, last) == |s| - 1;
        assert r == r' + [last];
      }
    }
  }

  /** Extending a slice of `b` appended to `a` by one element. */
  lemma AppendSlice<T>(a: seq<T>, b: seq<T>, i: nat)
    requires i < |b|
    ensures a + b[..i + 1] == (a + b[..i]) + [b[i]]
  {
    assert b[..i + 1] == b[..i] + [b[i]];
  }

  /** Elements that first occur in `s` in one order keep that order among the first occurrences. */
  lemma FirstOccurrencesIndexOrder<T>(s: seq<T>, a: T, b: T)
    requires a in s && b in s && IndexOf(s, a) < IndexOf(s, b)
    ensures a in FirstOccurrences(s) && b in FirstOccurrences(s)
    ensures IndexOf(FirstOccurrences(s), a) < IndexOf(FirstOccurrences(s), b)
  {
    var r := FirstOccurrences(s);
    FirstOccurrencesMembers(s);
    FirstOccurrencesOrder(s);
    FirstOccurrencesNoRepeats(s);
    var i, j := IndexOf(r, a), IndexOf(r, b);
    if j < i {
      assert false;
    }
  }

  /** The first element of a sequence is its first first occurrence. */
  lemma {:induction false} FirstOccurrencesHead<T>(s: seq<T>)
    requires s != []
    ensures FirstOccurrences(s) != [] && FirstOccurrences(s)[0] == s[0]
    decreases |s|
  {
    if |s| > 1 {
      FirstOccurrencesHead(s[..|s| - 1]);
    }
  }
}
