/** String helpers shared by the two Python scripts and the JavaScript front end. */
module Strings {

  /** `COL_PATH_JOINER` of both Python scripts: table names are column paths joined by it. */
  const Joiner: string := "__"

  /** Python's `sep.join(parts)`. */
  function Join(parts: seq<string>, sep: string): (r: string)
    ensures |parts| == 1 ==> r == parts[0]
  {
    if parts == [] then ""
    else if |parts| == 1 then parts[0]
    else parts[0] + sep + Join(parts[1..], sep)
  }

  /** Python's `s.split("__")`: cut at every leftmost, non-overlapping occurrence of the joiner. */
  function Split(s: string): (r: seq<string>)
    ensures |r| >= 1
  {
    SplitFrom(s, "")
  }

  /** Splitting `s` when `cur` holds the characters already read into the current chunk. */
  function SplitFrom(s: string, cur: string): (r: seq<string>)
    ensures |r| >= 1
    decreases |s|
  {
    if s == [] then [cur]
    else if |s| >= 2 && s[0] == '_' && s[1] == '_' then [cur] + SplitFrom(s[2..], "")
    else SplitFrom(s[1..], cur + [s[0]])
  }

  lemma {:induction false} JoinSplitFrom(s: string, cur: string)
    ensures Join(SplitFrom(s, cur), Joiner) == cur + s
    decreases |s|
  {
    if s == [] {
    } else if |s| >= 2 && s[0] == '_' && s[1] == '_' {
      JoinSplitFrom(s[2..], "");
      var rest := SplitFrom(s[2..], "");
      assert ([cur] + rest)[1..] == rest;
      assert s == "__" + s[2..];
    } else {
      JoinSplitFrom(s[1..], cur + [s[0]]);
      assert s == [s[0]] + s[1..];
    }
  }

  /** Joining the chunks of a split gives back the string it was split from. */
  lemma JoinSplit(s: string)
    ensures Join(Split(s), Joiner) == s
  {
    JoinSplitFrom(s, "");
  }

  /** Joining two non-empty lists of parts puts one separator between their joins. */
  lemma {:induction false} JoinConcat(p: seq<string>, q: seq<string>, sep: string)
    requires p != [] && q != []
    ensures Join(p + q, sep) == Join(p, sep) + sep + Join(q, sep)
    decreases |p|
  {
    if |p| > 1 {
      JoinConcat(p[1..], q, sep);
      assert (p + q)[1..] == p[1..] + q;
    } else {
      assert (p + q)[1..] == q;
    }
  }

  /** ASCII upper-casing of one character. */
  function UpperChar(c: char): char
  {
    if 'a' <= c <= 'z' then (c as int - 'a' as int + 'A' as int) as char else c
  }

  /** Upper-casing (Python `str.upper`, JavaScript `toUpperCase`), restricted to ASCII letters. */
  function Upper(s: string): (r: string)
    ensures |r| == |s|
    ensures forall i :: 0 <= i < |s| ==> r[i] == UpperChar(s[i])
  {
    if s == [] then [] else [UpperChar(s[0])] + Upper(s[1..])
  }

  /** The decimal digit for `d`. */
  function Digit(d: nat): char
    requires d < 10
  {
    "0123456789"[d]
  }

  /** `str(n)` in Python, `String(n)` in JavaScript, for a natural number. */
  function NatToString(n: nat): (r: string)
    ensures |r| >= 1
    ensures forall i :: 0 <= i < |r| ==> '0' <= r[i] <= '9'
  {
    if n < 10 then [Digit(n)] else NatToString(n / 10) + [Digit(n % 10)]
  }
}
