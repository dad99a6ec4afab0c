/** String helpers the server relies on: Python's `sep.join(parts)` and
    `s.lstrip(c)` for a single character. */
module Text {

  /** `t` begins with `s`. */
  predicate StartsWith(t: string, s: string)
  {
    |s| <= |t| && t[..|s|] == s
  }

  /** The total length of the parts. */
  function Width(parts: seq<string>): nat
  {
    if parts == [] then 0 else |parts[0]| + Width(parts[1..])
  }

  /** `sep.join(parts)`: the parts in order, with `sep` between neighbours.
      It starts with the first part. */
  function Join(sep: string, parts: seq<string>): (r: string)
    ensures parts == [] ==> r == ""
    ensures parts != [] ==> StartsWith(r, parts[0])
  {
    if |parts| == 0 then ""
    else if |parts| == 1 then parts[0]
    else parts[0] + sep + Join(sep, parts[1..])
  }

  /** A join is as long as its parts plus one separator per seam. */
  lemma {:induction false} JoinLength(sep: string, parts: seq<string>)
    requires parts != []
    ensures |Join(sep, parts)| == Width(parts) + (|parts| - 1) * |sep|
  {
    if |parts| > 1 {
      JoinLength(sep, parts[1..]);
      assert (|parts| - 1) * |sep| == (|parts| - 2) * |sep| + |sep|;
    }
  }

  /** Joining two non-empty lists puts exactly one separator at the seam. */
  lemma {:induction false} JoinAppend(sep: string, a: seq<string>, b: seq<string>)
    requires a != [] && b != []
    ensures Join(sep, a + b) == Join(sep, a) + sep + Join(sep, b)
  {
    if |a| == 1 {
      assert (a + b)[1..] == b;
    } else {
      assert (a + b)[1..] == a[1..] + b;
      JoinAppend(sep, a[1..], b);
    }
  }

  /** `s.lstrip(c)`: `s` with every leading `c` removed. The result is the
      longest suffix of `s` that does not start with `c` and is reached by
      dropping only copies of `c`. */
  function LStrip(s: string, c: char): (r: string)
    ensures |r| <= |s| && r == s[|s| - |r|..]
    ensures r == [] || r[0] != c
    ensures forall i :: 0 <= i < |s| - |r| ==> s[i] == c
  {
    if |s| > 0 && s[0] == c then LStrip(s[1..], c) else s
  }
}
