/** Reading a text file page by page: numbered rows within a byte and a line budget. */
module PagedReader {
  import opened Wrappers
  import opened Identifiers

  type Text = seq<char>

  /** A row as it is shown: the line number padded to five places, a bar, the line. Lengths are in
      bytes, so a line is a string of bytes. */
  function Row(lines: seq<Text>, i: nat): Text
    requires i < |lines|
  {
    Padded(Decimal(i + 1)) + "|" + lines[i] + "\n"
  }

  function Padded(digits: Text): (r: Text)
    ensures |r| == if |digits| < 5 then 5 else |digits|
  {
    if |digits| < 5 then seq(5 - |digits|, i => ' ') + digits else digits
  }

  /** The rows `from`, ..., `end - 1`. */
  function Rows(lines: seq<Text>, from: nat, end: nat): Text
    requires from <= end <= |lines|
  {
    if from == end then [] else Rows(lines, from, end - 1) + Row(lines, end - 1)
  }

  datatype Page =
    | EmptyFile
    | BeyondEnd
    | TooLong(line: nat)
    | Shown(rows: Text, first: nat, count: nat, next: Option<nat>)

  /** How many rows one call may show. */
  function EffectiveLines(limit: Option<nat>, maxLines: nat): nat
    requires maxLines >= 1
  {
    if limit.None? then maxLines
    else if limit.value < 1 then 1
    else if limit.value > maxLines then maxLines
    else limit.value
  }

  predicate Fits(lines: seq<Text>, from: nat, end: nat, budget: nat)
    requires from <= end <= |lines|
  {
    |Rows(lines, from, end)| <= budget
  }

  /** A page is as long as its budgets allow, and says where to go on unless it shows the last line. */
  ghost predicate IsPage(lines: seq<Text>, first: nat, atMost: nat, budget: nat, page: Page) {
    match page
    case EmptyFile => lines == []
    case BeyondEnd => lines != [] && first > |lines|
    case TooLong(line) => line == first && 1 <= first <= |lines| && |Row(lines, first - 1)| > budget
    case Shown(rows, from, count, next) =>
      && from == first && 1 <= first && 1 <= count <= atMost && first - 1 + count <= |lines|
      && rows == Rows(lines, first - 1, first - 1 + count) && |rows| <= budget
      && (first - 1 + count < |lines| && count < atMost ==> !Fits(lines, first - 1, first + count, budget))
      && next == if first - 1 + count < |lines| then Some(first + count) else None
  }

  method ReadPage(lines: seq<Text>, offset: Option<nat>, limit: Option<nat>, maxLines: nat, maxBytes: nat) returns (page: Page)
    requires maxLines >= 1
    ensures var first := if offset.None? || offset.value < 1 then 1 else offset.value;
            IsPage(lines, first, EffectiveLines(limit, maxLines), maxBytes, page)
    ensures page.EmptyFile? <==> lines == []
  {
    hide Row;
    var first := if offset.None? || offset.value < 1 then 1 else offset.value;
    var atMost := EffectiveLines(limit, maxLines);
    if |lines| == 0 {
      return EmptyFile;
    }
    if first > |lines| {
      return BeyondEnd;
    }
    var rows: Text, emitted := [], 0;
    var byBudget, byLimit := false, false;
    while first - 1 + emitted < |lines| && !byBudget && !byLimit
      invariant first - 1 + emitted <= |lines| && emitted <= atMost
      invariant rows == Rows(lines, first - 1, first - 1 + emitted) && |rows| <= maxBytes
      invariant byLimit ==> emitted == atMost && first - 1 + emitted < |lines|
      invariant byBudget ==> first - 1 + emitted < |lines| && !Fits(lines, first - 1, first + emitted, maxBytes)
      decreases |lines| - emitted, !byBudget && !byLimit
    {
      if emitted >= atMost {
        byLimit := true;
      } else {
        var row := Row(lines, first - 1 + emitted);
        if |rows| + |row| > maxBytes {
          byBudget := true;
        } else {
          rows, emitted := rows + row, emitted + 1;
        }
      }
    }
    if emitted == 0 {
      assert Rows(lines, first - 1, first - 1) == [];
      return TooLong(first);
    }
    return Shown(rows, first, emitted, if byBudget || byLimit then Some(first + emitted) else None);
  }

  /** Every numbered row fits the byte budget by itself. */
  ghost predicate RowsFit(lines: seq<Text>, budget: nat) {
    forall i :: 0 <= i < |lines| ==> |Row(lines, i)| <= budget
  }

  lemma {:induction false} RowsJoin(lines: seq<Text>, a: nat, b: nat, c: nat)
    requires a <= b <= c <= |lines|
    ensures Rows(lines, a, c) == Rows(lines, a, b) + Rows(lines, b, c)
    decreases c - b
  {
    if b < c {
      RowsJoin(lines, a, b, c - 1);
    }
  }

  lemma NoRows(lines: seq<Text>)
    ensures Rows(lines, 0, 0) == []
  {
  }

  /** Reads a whole file by following the advertised offsets. */
  method ReadAll(lines: seq<Text>, limit: Option<nat>, maxLines: nat, maxBytes: nat) returns (text: Text, calls: nat, last: Page)
    requires maxLines >= 1 && lines != []
    ensures calls <= |lines|
    ensures last.Shown? <==> RowsFit(lines, maxBytes)
    ensures last.Shown? ==> text == Rows(lines, 0, |lines|) && last.next.None?
    ensures !last.Shown? ==> exists i :: 0 <= i < |lines| && last == TooLong(i + 1) && |Row(lines, i)| > maxBytes && text == Rows(lines, 0, i)
  {
    hide Row, Rows, Fits;
    text, calls := [], 0;
    var from := 0;
    NoRows(lines);
    while true
      invariant from < |lines| && text == Rows(lines, 0, from) && calls <= from
      invariant forall i :: 0 <= i < from ==> |Row(lines, i)| <= maxBytes
      decreases |lines| - from
    {
      last := ReadPage(lines, Some(from + 1), limit, maxLines, maxBytes);
      calls := calls + 1;
      if !last.Shown? {
        return;
      }
      PageRowsFit(lines, from, from + last.count, maxBytes);
      RowsJoin(lines, 0, from, from + last.count);
      text := text + last.rows;
      if last.next.None? {
        return;
      }
      from := last.next.value - 1;
    }
  }

  lemma {:induction false} PageRowsFit(lines: seq<Text>, from: nat, end: nat, budget: nat)
    requires from <= end <= |lines| && |Rows(lines, from, end)| <= budget
    ensures forall i :: from <= i < end ==> |Row(lines, i)| <= budget
    decreases end - from
  {
    hide Row;
    if from < end {
      PageRowsFit(lines, from, end - 1, budget);
    }
  }
}
