/** Cutting command output to a byte and a line budget, keeping its tail. */
module OutputTail {
  import opened Utf8

  type Line = seq<Byte>

  /** The bytes of the lines from `k` on, each with its line break. */
  function Size(lines: seq<Line>, k: nat): nat
    requires k <= |lines|
    decreases |lines| - k
  {
    if k == |lines| then 0 else |lines[k]| + 1 + Size(lines, k + 1)
  }

  /** The lines from `k` on keep both budgets. */
  predicate Within(lines: seq<Line>, k: nat, maxBytes: nat, maxLines: nat)
    requires k <= |lines|
  {
    |lines| - k <= maxLines && Size(lines, k) <= maxBytes
  }

  predicate IsBoundary(line: Line, i: nat) {
    i >= |line| || !IsTail(line[i])
  }

  /** `start` begins the longest suffix of at most `maxBytes` bytes that cuts no character. */
  ghost predicate CutsAt(line: Line, start: nat, maxBytes: nat) {
    && start <= |line| && |line| - start <= maxBytes && IsBoundary(line, start)
    && forall i :: 0 <= i < start ==> |line| - i > maxBytes || !IsBoundary(line, i)
  }

  ghost predicate IsTailOf(tail: Line, line: Line, maxBytes: nat) {
    exists start: nat :: CutsAt(line, start, maxBytes) && tail == line[start..]
  }

  method CutLine(line: Line, maxBytes: nat) returns (start: nat)
    ensures CutsAt(line, start, maxBytes)
  {
    start := if |line| > maxBytes then |line| - maxBytes else 0;
    while start < |line| && !IsBoundary(line, start)
      invariant start <= |line| && |line| - start <= maxBytes
      invariant forall i :: 0 <= i < start ==> |line| - i > maxBytes || !IsBoundary(line, i)
    {
      start := start + 1;
    }
  }

  /** The longest run of last lines within both budgets begins at `first`; if not even the last
      line fits the bytes, the longest tail of it is kept instead. */
  ghost predicate Keeps(kept: seq<Line>, lines: seq<Line>, first: nat, maxBytes: nat, maxLines: nat) {
    && first <= |lines| && Within(lines, first, maxBytes, maxLines)
    && (forall k :: 0 <= k < first ==> !Within(lines, k, maxBytes, maxLines))
    && if first == |lines| > 0 && maxLines > 0 then |kept| == 1 && IsTailOf(kept[0], lines[|lines| - 1], maxBytes)
       else kept == lines[first..]
  }

  /** Keeps the tail and reports whether anything was dropped or cut. */
  method TruncateOutput(lines: seq<Line>, maxBytes: nat, maxLines: nat) returns (kept: seq<Line>, truncated: bool)
    ensures truncated == !Within(lines, 0, maxBytes, maxLines)
    ensures exists first :: Keeps(kept, lines, first, maxBytes, maxLines)
    ensures truncated && kept == lines <==> WholeLine(lines, maxBytes, maxLines)
  {
    kept, truncated := [], false;
    var used, i := 0, |lines|;
    while i > 0
      invariant 0 <= i <= |lines| && !truncated
      invariant used == Size(lines, i) && Within(lines, i, maxBytes, maxLines) && kept == lines[i..]
      decreases i
    {
      if |kept| >= maxLines || used + |lines[i - 1]| + 1 > maxBytes {
        truncated := true;
        NotWithinBefore(lines, i, maxBytes, maxLines);
        if |kept| < maxLines && kept == [] {
          var start := CutLine(lines[i - 1], maxBytes);
          kept := [lines[i - 1][start..]];
        }
        assert Keeps(kept, lines, i, maxBytes, maxLines);
        WholeKeptYetTruncated(kept, lines, i, maxBytes, maxLines);
        return;
      }
      used := used + |lines[i - 1]| + 1;
      kept := [lines[i - 1]] + kept;
      i := i - 1;
    }
    assert Keeps(kept, lines, 0, maxBytes, maxLines);
    WholeKeptYetTruncated(kept, lines, 0, maxBytes, maxLines);
  }

  /** If one line more does not fit, no more lines fit at all. */
  lemma {:induction false} NotWithinBefore(lines: seq<Line>, i: nat, maxBytes: nat, maxLines: nat)
    requires 0 < i <= |lines| && !Within(lines, i - 1, maxBytes, maxLines)
    ensures forall k :: 0 <= k < i ==> !Within(lines, k, maxBytes, maxLines)
  {
    if i > 1 {
      NotWithinBefore(lines, i - 1, maxBytes, maxLines);
    }
  }

  /** When everything is kept and a cut is still reported: exactly for a single line as long as
      the byte budget. Its missing line break is counted, yet the line itself is not cut. */
  predicate WholeLine(lines: seq<Line>, maxBytes: nat, maxLines: nat) {
    |lines| == 1 && maxLines > 0 && |lines[0]| == maxBytes && IsBoundary(lines[0], 0)
  }

  lemma WholeKeptYetTruncated(kept: seq<Line>, lines: seq<Line>, first: nat, maxBytes: nat, maxLines: nat)
    requires Keeps(kept, lines, first, maxBytes, maxLines)
    ensures !Within(lines, 0, maxBytes, maxLines) && kept == lines <==> WholeLine(lines, maxBytes, maxLines)
  {
    if |lines| == 1 {
      assert Size(lines, 0) == |lines[0]| + 1;
      if first == 1 && maxLines > 0 {
        var start: nat :| CutsAt(lines[0], start, maxBytes) && kept[0] == lines[0][start..];
        assert lines[0][0..] == lines[0];
        assert kept == lines <==> kept[0] == lines[0];
      }
    }
  }

  /** Two outputs that are kept whole and reported as truncated, one of three bytes and one of one. */
  lemma WholeLines()
    ensures WholeLine([[97, 98, 99]], 3, 1) && WholeLine([[97]], 1, 1)
    ensures !Within([[97, 98, 99]], 0, 3, 1) && Keeps([[97, 98, 99]], [[97, 98, 99]], 1, 3, 1)
    ensures !Within([[97]], 0, 1, 1) && Keeps([[97]], [[97]], 1, 1, 1)
  {
    var abc: Line, a: Line := [97, 98, 99], [97];
    assert CutsAt(abc, 0, 3) && abc[0..] == abc && CutsAt(a, 0, 1) && a[0..] == a;
    assert Size([abc], 0) == 4 && Size([a], 0) == 2;
  }
}
