/** Bounded transcript pagination: the body of `get_transcript` after the
    transcript lines are known and the response limit is positive. One call
    packs as many whole lines as fit under the limit, starting at the line the
    cursor names, and hands back the index of the first line left out. */
module Pagination {
  import opened Wrappers
  import opened Text

  /** One response: the chunk of transcript text and, when lines remain, the
      index of the first line that did not fit. */
  datatype Page = Page(text: string, cursor: Option<nat>)

  /** Every line followed by a newline: the accumulator the loop grows. */
  function Terminated(lines: seq<string>): string
  {
    if lines == [] then "" else lines[0] + "\n" + Terminated(lines[1..])
  }

  lemma {:induction false} TerminatedAppend(a: seq<string>, b: seq<string>)
    ensures Terminated(a + b) == Terminated(a) + Terminated(b)
  {
    if a != [] {
      assert (a + b)[1..] == a[1..] + b;
      TerminatedAppend(a[1..], b);
    } else {
      assert a + b == b;
    }
  }

  /** The accumulator with its final newline removed is the newline join. */
  lemma {:induction false} TerminatedIsJoin(lines: seq<string>)
    requires lines != []
    ensures Terminated(lines) == Join("\n", lines) + "\n"
  {
    if |lines| > 1 {
      TerminatedIsJoin(lines[1..]);
    }
  }

  /** Growing the accumulator by line `j` of the window that starts at `start`. */
  lemma TerminatedStep(lines: seq<string>, start: nat, j: nat)
    requires start <= j < |lines|
    ensures |Terminated(lines[start..j + 1])| == |Terminated(lines[start..j])| + |lines[j]| + 1
  {
    assert lines[start..j + 1] == lines[start..j] + [lines[j]];
    TerminatedAppend(lines[start..j], [lines[j]]);
  }

  /** A longer window never has a shorter accumulator. */
  lemma TerminatedMonotone(lines: seq<string>, start: nat, j: nat, k: nat)
    requires start <= j <= k <= |lines|
    ensures |Terminated(lines[start..j])| <= |Terminated(lines[start..k])|
  {
    assert lines[start..k] == lines[start..j] + lines[j..k];
    TerminatedAppend(lines[start..j], lines[j..k]);
  }

  /** The end of the run of lines, from `i` on, whose accumulator stays within
      `budget`: every line before it fits, and the line at it (if any) would
      overflow. */
  function FitEnd(lines: seq<string>, i: nat, budget: int): (k: nat)
    requires i <= |lines| && budget >= 0
    ensures i <= k <= |lines|
    ensures |Terminated(lines[i..k])| <= budget
    ensures k < |lines| ==> |Terminated(lines[i..k])| + |lines[k]| + 1 > budget
    decreases |lines| - i
  {
    if i == |lines| || |lines[i]| + 1 > budget then i
    else
      var k := FitEnd(lines, i + 1, budget - |lines[i]| - 1);
      assert lines[i..k][1..] == lines[i + 1..k];
      k
  }

  /** The page returned for the lines, the start index taken from the cursor,
      and a positive response limit. */
  function Paginate(lines: seq<string>, start: nat, limit: int): (p: Page)
    requires limit > 0
    ensures start >= |lines| ==> p == Page("", None)
    ensures p.cursor.Some? ==> start <= p.cursor.value < |lines|
  {
    if start >= |lines| then Page("", None)
    else
      var k := FitEnd(lines, start, limit);
      Page(Join("\n", lines[start..k]), if k < |lines| then Some(k) else None)
  }

  /** Where the page stops: at the cursor when there is one, else at the end. */
  function PageEnd(lines: seq<string>, start: nat, p: Page): nat
  {
    if p.cursor.Some? then p.cursor.value else if start < |lines| then |lines| else start
  }

  /** The loop of `get_transcript`: walk the lines from `start`, append each
      line and a newline while the accumulator stays within `limit`, stop at
      the first line that would overflow, and drop the final newline. */
  method BuildPage(lines: seq<string>, start: nat, limit: int) returns (text: string, cursor: Option<nat>)
    requires limit > 0
    ensures Page(text, cursor) == Paginate(lines, start, limit)
  {
    var res := "";
    cursor := None;
    var i := start;
    while i < |lines|
      invariant start < |lines| ==> start <= i <= |lines|
      invariant start >= |lines| ==> i == start && res == ""
      invariant start < |lines| ==> res == Terminated(lines[start..i])
      invariant |res| <= limit
      invariant start < |lines| ==> FitEnd(lines, i, limit - |res|) == FitEnd(lines, start, limit)
      invariant cursor == None
    {
      if |res| + |lines[i]| + 1 > limit {
        cursor := Some(i);
        break;
      }
      TerminatedAppend(lines[start..i], [lines[i]]);
      assert lines[start..i + 1] == lines[start..i] + [lines[i]];
      res := res + lines[i] + "\n";
      i := i + 1;
    }
    text := if |res| == 0 then "" else res[..|res| - 1];
    if start < |lines| {
      var k := FitEnd(lines, start, limit);
      if k > start {
        TerminatedIsJoin(lines[start..k]);
      }
    }
  }

  /** Chunk length bound: the returned text is strictly shorter than the limit. */
  lemma ChunkWithinLimit(lines: seq<string>, start: nat, limit: int)
    requires limit > 0
    ensures |Paginate(lines, start, limit).text| < limit
  {
    if start < |lines| {
      var k := FitEnd(lines, start, limit);
      if k > start {
        TerminatedIsJoin(lines[start..k]);
      }
    }
  }

  /** The chunk is the newline join of the lines from the start up to the
      cursor (or to the end), in order and with nothing skipped; a start at
      or past the end gives an empty chunk and no cursor. */
  lemma ChunkIsContiguousJoin(lines: seq<string>, start: nat, limit: int)
    requires limit > 0
    ensures var p := Paginate(lines, start, limit);
      start >= |lines| ==> p == Page("", None)
    ensures var p := Paginate(lines, start, limit);
      start < |lines| ==>
        (start <= PageEnd(lines, start, p) <= |lines|
         && p.text == Join("\n", lines[start..PageEnd(lines, start, p)]))
  {
  }

  /** Cursor placement: a cursor lies in `[start, |lines|)`, every line before
      it fits, and it names the first line whose addition would overflow. */
  lemma CursorIsFirstOverflow(lines: seq<string>, start: nat, limit: int)
    requires limit > 0
    ensures var p := Paginate(lines, start, limit);
      p.cursor.Some? ==>
        (start <= p.cursor.value < |lines|
         && |Terminated(lines[start..p.cursor.value])| + |lines[p.cursor.value]| + 1 > limit)
    ensures var p := Paginate(lines, start, limit);
      forall j :: start <= j < PageEnd(lines, start, p) ==>
        |Terminated(lines[start..j])| + |lines[j]| + 1 <= limit
  {
    var p := Paginate(lines, start, limit);
    if start < |lines| {
      var k := FitEnd(lines, start, limit);
      forall j | start <= j < k
        ensures |Terminated(lines[start..j])| + |lines[j]| + 1 <= limit
      {
        TerminatedStep(lines, start, j);
        TerminatedMonotone(lines, start, j + 1, k);
      }
    }
  }

  /** No cursor is returned exactly when every line from the start fits. */
  lemma NoCursorIffAllFit(lines: seq<string>, start: nat, limit: int)
    requires limit > 0
    ensures Paginate(lines, start, limit).cursor.None?
      <==> start >= |lines| || |Terminated(lines[start..])| <= limit
  {
    if start < |lines| {
      var k := FitEnd(lines, start, limit);
      if k < |lines| {
        TerminatedStep(lines, start, k);
        TerminatedMonotone(lines, start, k + 1, |lines|);
        assert lines[start..|lines|] == lines[start..];
      } else {
        assert lines[start..k] == lines[start..];
      }
    }
  }

  /** Zero progress (the cursor equals the start) happens exactly when the
      line at the start alone, with its newline, exceeds the limit. */
  lemma ZeroProgressIff(lines: seq<string>, start: nat, limit: int)
    requires limit > 0 && start < |lines|
    ensures Paginate(lines, start, limit).cursor == Some(start) <==> |lines[start]| + 1 > limit
  {
  }

  /** Every line, with its newline, fits within the limit on its own. */
  predicate AllFit(lines: seq<string>, limit: int)
  {
    forall i :: 0 <= i < |lines| ==> |lines[i]| + 1 <= limit
  }

  /** When every line fits on its own, a returned cursor moves forward. */
  lemma CursorAdvances(lines: seq<string>, start: nat, limit: int)
    requires limit > 0 && AllFit(lines, limit)
    ensures var p := Paginate(lines, start, limit);
      p.cursor.Some? ==> start < p.cursor.value < |lines|
  {
    if start < |lines| {
      ZeroProgressIff(lines, start, limit);
    }
  }

  /** The chunks a client collects by starting at `start` and re-calling with
      each returned cursor until none comes back. */
  function ReadAll(lines: seq<string>, start: nat, limit: int): seq<string>
    requires limit > 0 && AllFit(lines, limit)
    decreases |lines| - start
  {
    var p := Paginate(lines, start, limit);
    CursorAdvances(lines, start, limit);
    if p.cursor.None? then [p.text] else [p.text] + ReadAll(lines, p.cursor.value, limit)
  }

  /** Pagination round trip: joining the collected chunks with newlines gives
      back the newline join of the lines from the start. */
  lemma {:induction false} ReadAllRoundTrip(lines: seq<string>, start: nat, limit: int)
    requires limit > 0 && AllFit(lines, limit) && start <= |lines|
    ensures Join("\n", ReadAll(lines, start, limit)) == Join("\n", lines[start..])
    decreases |lines| - start
  {
    var p := Paginate(lines, start, limit);
    CursorAdvances(lines, start, limit);
    if p.cursor.Some? {
      var c := p.cursor.value;
      var rest := ReadAll(lines, c, limit);
      ReadAllRoundTrip(lines, c, limit);
      assert rest != [];
      JoinAppend("\n", [p.text], rest);
      JoinAppend("\n", lines[start..c], lines[c..]);
      assert lines[start..c] + lines[c..] == lines[start..];
    } else if start < |lines| {
      assert lines[start..FitEnd(lines, start, limit)] == lines[start..];
    }
  }

  /** Reading from cursor 0 reproduces the whole transcript, as the unbounded
      mode returns it in one call. */
  lemma WholeTranscriptRoundTrip(lines: seq<string>, limit: int)
    requires limit > 0 && AllFit(lines, limit)
    ensures Join("\n", ReadAll(lines, 0, limit)) == Join("\n", lines)
  {
    ReadAllRoundTrip(lines, 0, limit);
    assert lines[0..] == lines;
  }
}
