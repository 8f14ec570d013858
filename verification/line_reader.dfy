/**
 * Newline-delimited reading of a byte stream, as a buffered reader's
 * "read through the next '\n'" delivers it: every complete line keeps its
 * terminating '\n', and a final fragment without one is handed back only
 * together with the end of the stream.
 */
module LineReader {

  const Newline: char := '\n'

  /** A complete line: it ends with '\n' and holds no other '\n'. */
  predicate IsLine(line: string)
  {
    |line| > 0 && line[|line| - 1] == Newline &&
    forall k :: 0 <= k < |line| - 1 ==> line[k] != Newline
  }

  /** The index of the first '\n' of `s` at or after `from`, or `|s|` when there is none. */
  function NextNewline(s: string, from: nat): (i: nat)
    requires from <= |s|
    ensures from <= i <= |s|
    ensures i < |s| ==> s[i] == Newline
    decreases |s| - from
  {
    if from == |s| || s[from] == Newline then from else NextNewline(s, from + 1)
  }

  /** No '\n' lies between `from` and the one `NextNewline` finds. */
  lemma {:induction false} NextNewlineSkips(s: string, from: nat)
    requires from <= |s|
    ensures forall k :: from <= k < NextNewline(s, from) ==> s[k] != Newline
    decreases |s| - from
  {
    if from < |s| && s[from] != Newline {
      NextNewlineSkips(s, from + 1);
    }
  }

  /** The complete lines of `s` that start at or after `from`, in order. */
  function LinesAt(s: string, from: nat): seq<string>
    requires from <= |s|
    decreases |s| - from
  {
    var i := NextNewline(s, from);
    if i == |s| then [] else [s[from..i + 1]] + LinesAt(s, i + 1)
  }

  /** What is left after the last complete line that starts at or after `from`. */
  function FragmentAt(s: string, from: nat): string
    requires from <= |s|
    decreases |s| - from
  {
    var i := NextNewline(s, from);
    if i == |s| then s[from..] else FragmentAt(s, i + 1)
  }

  /** The complete lines of the stream `s`, in order. */
  function Lines(s: string): seq<string>
  {
    LinesAt(s, 0)
  }

  /** The unterminated fragment at the end of the stream `s`. */
  function Fragment(s: string): string
  {
    FragmentAt(s, 0)
  }

  /** The lines written back to back. */
  function Concat(lines: seq<string>): string
  {
    if |lines| == 0 then [] else lines[0] + Concat(lines[1..])
  }

  /** Any position characterised like `NextNewline` is `NextNewline`. */
  lemma NextNewlineUnique(s: string, from: nat, j: nat)
    requires from <= j <= |s|
    requires j < |s| ==> s[j] == Newline
    requires forall k :: from <= k < j ==> s[k] != Newline
    ensures j == NextNewline(s, from)
  {
    NextNewlineSkips(s, from);
  }

  /**
   * Reads from position `pos` through the next '\n'; returns the index of
   * that '\n', or `|buf|` when the stream ends first.
   */
  method ReadThroughNewline(buf: string, pos: nat) returns (end: nat)
    requires pos <= |buf|
    ensures end == NextNewline(buf, pos)
  {
    end := pos;
    while end < |buf| && buf[end] != Newline
      invariant pos <= end <= |buf|
      invariant forall k :: pos <= k < end ==> buf[k] != Newline
    {
      end := end + 1;
    }
    NextNewlineUnique(buf, pos, end);
  }

  /** Every piece read from `from` on is a complete line, and the fragment has no '\n'. */
  lemma {:induction false} LinesAtAreLines(s: string, from: nat)
    requires from <= |s|
    ensures forall k :: 0 <= k < |LinesAt(s, from)| ==> IsLine(LinesAt(s, from)[k])
    ensures Newline !in FragmentAt(s, from)
    decreases |s| - from
  {
    var i := NextNewline(s, from);
    NextNewlineSkips(s, from);
    if i < |s| {
      LinesAtAreLines(s, i + 1);
      var line := s[from..i + 1];
      assert forall k :: 0 <= k < |line| - 1 ==> line[k] == s[from + k];
      assert IsLine(line);
    } else {
      forall k | 0 <= k < |s| - from ensures s[from..][k] != Newline {
        assert s[from..][k] == s[from + k];
      }
    }
  }

  /** Every piece the reader delivers is a complete line, and the fragment has no '\n'. */
  lemma LinesAreLines(s: string)
    ensures forall k :: 0 <= k < |Lines(s)| ==> IsLine(Lines(s)[k])
    ensures Newline !in Fragment(s)
  {
    LinesAtAreLines(s, 0);
  }

  /** One read from `from`: the next line, then whatever follows it. */
  lemma LinesAtStep(s: string, from: nat)
    requires from <= |s|
    ensures var i := NextNewline(s, from);
            i < |s| ==> LinesAt(s, from) == [s[from..i + 1]] + LinesAt(s, i + 1) &&
                        FragmentAt(s, from) == FragmentAt(s, i + 1)
  {
  }

  /** Concatenation of a first line and the rest. */
  lemma ConcatCons(line: string, rest: seq<string>)
    ensures Concat([line] + rest) == line + Concat(rest)
  {
    assert ([line] + rest)[1..] == rest;
  }

  lemma AppendAssoc(a: string, b: string, c: string)
    ensures (a + b) + c == a + (b + c)
  {
  }

  lemma SliceSplit(s: string, from: nat, mid: nat)
    requires from <= mid <= |s|
    ensures s[from..mid] + s[mid..] == s[from..]
  {
  }

  /** The round trip for the first line read from `from`, given it for the rest. */
  lemma RoundTripStep(s: string, from: nat, i: nat)
    requires from <= i < |s| && i == NextNewline(s, from)
    requires Concat(LinesAt(s, i + 1)) + FragmentAt(s, i + 1) == s[i + 1..]
    ensures Concat(LinesAt(s, from)) + FragmentAt(s, from) == s[from..]
  {
    LinesAtStep(s, from);
    var line, rest := s[from..i + 1], LinesAt(s, i + 1);
    ConcatCons(line, rest);
    AppendAssoc(line, Concat(rest), FragmentAt(s, i + 1));
    SliceSplit(s, from, i + 1);
  }

  /** Reading from `from` loses nothing: the lines and the fragment give back `s[from..]`. */
  lemma {:induction false} SplitAtRoundTrip(s: string, from: nat)
    requires from <= |s|
    ensures Concat(LinesAt(s, from)) + FragmentAt(s, from) == s[from..]
    decreases |s| - from
  {
    var i := NextNewline(s, from);
    if i < |s| {
      SplitAtRoundTrip(s, i + 1);
      RoundTripStep(s, from, i);
    } else {
      assert LinesAt(s, from) == [] && FragmentAt(s, from) == s[from..];
    }
  }

  /** Reading loses nothing: the lines and the fragment give back the stream. */
  lemma SplitRoundTrip(s: string)
    ensures Concat(Lines(s)) + Fragment(s) == s
  {
    SplitAtRoundTrip(s, 0);
    assert s[0..] == s;
  }

  /** Reading from `from` undoes writing complete lines followed by a fragment without '\n'. */
  lemma {:induction false} SplitAtOfJoin(s: string, from: nat, lines: seq<string>, fragment: string)
    requires from <= |s| && s[from..] == Concat(lines) + fragment
    requires forall k :: 0 <= k < |lines| ==> IsLine(lines[k])
    requires Newline !in fragment
    ensures LinesAt(s, from) == lines && FragmentAt(s, from) == fragment
    decreases lines
  {
    if lines == [] {
      assert s[from..] == fragment;
      forall k | from <= k < |s| ensures s[k] != Newline {
        assert s[k] == fragment[k - from];
      }
      NextNewlineUnique(s, from, |s|);
    } else {
      var line := lines[0];
      assert IsLine(line);
      assert s[from..] == line + (Concat(lines[1..]) + fragment);
      var i := from + |line| - 1;
      forall k | from <= k < i ensures s[k] != Newline {
        assert s[k] == s[from..][k - from] == line[k - from];
      }
      assert s[i] == s[from..][|line| - 1];
      NextNewlineUnique(s, from, i);
      assert s[from..i + 1] == line;
      assert s[i + 1..] == Concat(lines[1..]) + fragment;
      SplitAtOfJoin(s, i + 1, lines[1..], fragment);
    }
  }

  /**
   * Reading is the inverse of writing complete lines followed by a
   * fragment without '\n': the same lines and the same fragment come back.
   */
  lemma SplitOfJoin(lines: seq<string>, fragment: string)
    requires forall k :: 0 <= k < |lines| ==> IsLine(lines[k])
    requires Newline !in fragment
    ensures Lines(Concat(lines) + fragment) == lines
    ensures Fragment(Concat(lines) + fragment) == fragment
  {
    var s := Concat(lines) + fragment;
    assert s[0..] == s;
    SplitAtOfJoin(s, 0, lines, fragment);
  }

  /** Bytes after the last '\n' never change the lines read. */
  lemma FragmentDoesNotChangeLines(lines: seq<string>, fragment: string)
    requires forall k :: 0 <= k < |lines| ==> IsLine(lines[k])
    requires Newline !in fragment
    ensures Lines(Concat(lines) + fragment) == Lines(Concat(lines))
  {
    SplitOfJoin(lines, fragment);
    SplitOfJoin(lines, []);
    assert Concat(lines) + [] == Concat(lines);
  }
}
