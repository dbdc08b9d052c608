/**
 Identifiers, and the decimal numbering the turn kernel builds them with.
 */
module Identifiers {
  datatype OperationId = OperationId(value: string)
  datatype TurnId = TurnId(value: string)
  datatype SessionId = SessionId(value: string)
  datatype ModelCallId = ModelCallId(value: string)
  datatype ToolBatchId = ToolBatchId(value: string)
  datatype ToolCallId = ToolCallId(value: string)
  datatype EffectId = EffectId(value: string)
  datatype MaintenanceId = MaintenanceId(value: string)

  const U32_LIMIT: nat := 0x1_0000_0000

  const DIGITS := "0123456789"

  /** `n` printed in decimal. */
  function Decimal(n: nat): (s: string)
    ensures s != [] && forall i :: 0 <= i < |s| ==> '0' <= s[i] <= '9'
  {
    (if n < 10 then [] else Decimal(n / 10)) + [DIGITS[n % 10]]
  }

  function Value(s: string): int {
    if s == [] then 0 else 10 * Value(s[..|s| - 1]) + (s[|s| - 1] as int - '0' as int)
  }

  /** Printing loses nothing. */
  lemma {:induction false} DecimalValue(n: nat)
    ensures Value(Decimal(n)) == n
  {
    assert DIGITS[n % 10] as int == '0' as int + n % 10;
    var init := if n < 10 then [] else Decimal(n / 10);
    assert Decimal(n)[..|Decimal(n)| - 1] == init;
    if n >= 10 {
      DecimalValue(n / 10);
    }
  }

  /** An identifier scoped to a turn: `turn:tag:n`. */
  function Scoped(turn: TurnId, tag: string, n: nat): string {
    turn.value + ":" + tag + ":" + Decimal(n)
  }

  lemma ScopedParts(turn: TurnId, tag: string, n: nat)
    ensures |Scoped(turn, tag, n)| > |turn.value| + 1 + |tag|
    ensures Scoped(turn, tag, n)[..|turn.value|] == turn.value
    ensures Scoped(turn, tag, n)[|turn.value| + 1 + |tag|] == ':'
    ensures Scoped(turn, tag, n)[|turn.value| + 2 + |tag|..] == Decimal(n)
    ensures forall k :: |turn.value| + 1 + |tag| < k < |Scoped(turn, tag, n)| ==> Scoped(turn, tag, n)[k] != ':'
  {
  }

  /** Equal identifiers of one kind name the same turn and the same number: the digits hold no
      colon, so the last colon tells where they begin, whatever the turn id contains. */
  lemma ScopedInjective(turn: TurnId, m: nat, turn': TurnId, n: nat, tag: string)
    requires Scoped(turn, tag, m) == Scoped(turn', tag, n)
    ensures turn == turn' && m == n
  {
    hide Scoped, Decimal, Value;
    ScopedParts(turn, tag, m);
    ScopedParts(turn', tag, n);
    var s := Scoped(turn, tag, m);
    var i, j := |turn.value| + 1 + |tag|, |turn'.value| + 1 + |tag|;
    assert i == j;
    assert turn.value == s[..|turn.value|] == turn'.value;
    assert Decimal(m) == s[i + 1..] == Decimal(n);
    DecimalValue(m);
    DecimalValue(n);
  }
}
