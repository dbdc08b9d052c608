/**
 The recogniser that validates tool arguments: where each construct ends, as a function of
 where it begins, and the recursive-descent parser that computes it. Whitespace is the ASCII
 kind, before every token.
 */
module JsonGrammar {
  import opened Wrappers
  import opened Utf8

  const QUOTE: Byte := 0x22
  const BACKSLASH: Byte := 0x5C
  const COMMA: Byte := 0x2C
  const COLON: Byte := 0x3A
  const OPEN_BRACE: Byte := 0x7B
  const CLOSE_BRACE: Byte := 0x7D
  const OPEN_BRACKET: Byte := 0x5B
  const CLOSE_BRACKET: Byte := 0x5D

  predicate IsWs(b: Byte) { b == 0x20 || b == 0x09 || b == 0x0A || b == 0x0C || b == 0x0D }
  predicate IsDigit(b: Byte) { 0x30 <= b <= 0x39 }

  function Ws(s: seq<Byte>, i: nat): (j: nat)
    requires i <= |s|
    ensures i <= j <= |s| && (forall k :: i <= k < j ==> IsWs(s[k])) && (j < |s| ==> !IsWs(s[j]))
    decreases |s| - i
  {
    if i < |s| && IsWs(s[i]) then Ws(s, i + 1) else i
  }

  function Eat(s: seq<Byte>, i: nat, b: Byte): (r: Option<nat>)
    requires i <= |s|
    ensures r.Some? ==> Ws(s, i) < |s| && s[Ws(s, i)] == b && r.value == Ws(s, i) + 1
  {
    var j := Ws(s, i);
    if j < |s| && s[j] == b then Some(j + 1) else None
  }

  /** The end of a string whose opening quote has been read: any byte may follow a backslash,
      and no control character may stand unescaped. */
  function StringRest(s: seq<Byte>, i: nat, escaped: bool): (r: Option<nat>)
    requires i <= |s|
    ensures r.Some? ==> i < r.value <= |s|
    decreases |s| - i
  {
    if i == |s| then None
    else if escaped then StringRest(s, i + 1, false)
    else if s[i] == BACKSLASH then StringRest(s, i + 1, true)
    else if s[i] == QUOTE then Some(i + 1)
    else if s[i] < 0x20 then None
    else StringRest(s, i + 1, false)
  }

  function StringEnd(s: seq<Byte>, i: nat): (r: Option<nat>)
    requires i <= |s|
    ensures r.Some? ==> i < r.value <= |s|
  {
    var open := Eat(s, i, QUOTE);
    if open.None? then None else StringRest(s, open.value, false)
  }

  function Digits(s: seq<Byte>, i: nat): (j: nat)
    requires i <= |s|
    ensures i <= j <= |s| && forall k :: i <= k < j ==> IsDigit(s[k])
    decreases |s| - i
  {
    if i < |s| && IsDigit(s[i]) then Digits(s, i + 1) else i
  }

  function Fraction(s: seq<Byte>, i: nat): (r: Option<nat>)
    requires i <= |s|
    ensures r.Some? ==> i <= r.value <= |s|
  {
    if i < |s| && s[i] == 0x2E then
      if Digits(s, i + 1) == i + 1 then None else Some(Digits(s, i + 1))
    else Some(i)
  }

  function Exponent(s: seq<Byte>, i: nat): (r: Option<nat>)
    requires i <= |s|
    ensures r.Some? ==> i <= r.value <= |s|
  {
    if i < |s| && (s[i] == 0x65 || s[i] == 0x45) then
      var j := if i + 1 < |s| && (s[i + 1] == 0x2B || s[i + 1] == 0x2D) then i + 2 else i + 1;
      if Digits(s, j) == j then None else Some(Digits(s, j))
    else Some(i)
  }

  function NumberEnd(s: seq<Byte>, i: nat): (r: Option<nat>)
    requires i <= |s|
    ensures r.Some? ==> i < r.value <= |s|
  {
    var first := if i < |s| && s[i] == 0x2D then i + 1 else i;
    var whole := Digits(s, first);
    if whole == first then None
    else
      var fraction := Fraction(s, whole);
      if fraction.None? then None else Exponent(s, fraction.value)
  }

  const TRUE: seq<Byte> := [0x74, 0x72, 0x75, 0x65]
  const FALSE: seq<Byte> := [0x66, 0x61, 0x6C, 0x73, 0x65]
  const NULL: seq<Byte> := [0x6E, 0x75, 0x6C, 0x6C]

  function LiteralEnd(s: seq<Byte>, i: nat, literal: seq<Byte>): (r: Option<nat>)
    requires i <= |s|
    ensures r.Some? ==> r.value == i + |literal| <= |s|
  {
    if i + |literal| <= |s| && s[i..i + |literal|] == literal then Some(i + |literal|) else None
  }

  function ValueEnd(s: seq<Byte>, i: nat): (r: Option<nat>)
    requires i <= |s|
    ensures r.Some? ==> i < r.value <= |s|
    decreases |s| - i, 1
  {
    var j := Ws(s, i);
    if j == |s| then None
    else if s[j] == OPEN_BRACE then ObjectEnd(s, j)
    else if s[j] == OPEN_BRACKET then ArrayEnd(s, j)
    else if s[j] == QUOTE then StringEnd(s, j)
    else if s[j] == 0x74 then LiteralEnd(s, j, TRUE)
    else if s[j] == 0x66 then LiteralEnd(s, j, FALSE)
    else if s[j] == 0x6E then LiteralEnd(s, j, NULL)
    else if s[j] == 0x2D || IsDigit(s[j]) then NumberEnd(s, j)
    else None
  }

  function ObjectEnd(s: seq<Byte>, i: nat): (r: Option<nat>)
    requires i <= |s|
    ensures r.Some? ==> i < r.value <= |s|
    decreases |s| - i, 0
  {
    var open := Eat(s, i, OPEN_BRACE);
    if open.None? then None
    else if Eat(s, open.value, CLOSE_BRACE).Some? then Eat(s, open.value, CLOSE_BRACE)
    else MembersEnd(s, open.value)
  }

  /** The end of an object from the beginning of one of its members. */
  function MembersEnd(s: seq<Byte>, i: nat): (r: Option<nat>)
    requires i <= |s|
    ensures r.Some? ==> i < r.value <= |s|
    decreases |s| - i, 1
  {
    var name := StringEnd(s, i);
    if name.None? then None
    else
      var colon := Eat(s, name.value, COLON);
      if colon.None? then None
      else
        var value := ValueEnd(s, colon.value);
        if value.None? then None
        else if Eat(s, value.value, CLOSE_BRACE).Some? then Eat(s, value.value, CLOSE_BRACE)
        else
          var comma := Eat(s, value.value, COMMA);
          if comma.None? then None else MembersEnd(s, comma.value)
  }

  function ArrayEnd(s: seq<Byte>, i: nat): (r: Option<nat>)
    requires i <= |s|
    ensures r.Some? ==> i < r.value <= |s|
    decreases |s| - i, 0
  {
    var open := Eat(s, i, OPEN_BRACKET);
    if open.None? then None
    else if Eat(s, open.value, CLOSE_BRACKET).Some? then Eat(s, open.value, CLOSE_BRACKET)
    else ElementsEnd(s, open.value)
  }

  function ElementsEnd(s: seq<Byte>, i: nat): (r: Option<nat>)
    requires i <= |s|
    ensures r.Some? ==> i < r.value <= |s|
    decreases |s| - i, 2
  {
    var value := ValueEnd(s, i);
    if value.None? then None
    else if Eat(s, value.value, CLOSE_BRACKET).Some? then Eat(s, value.value, CLOSE_BRACKET)
    else
      var comma := Eat(s, value.value, COMMA);
      if comma.None? then None else ElementsEnd(s, comma.value)
  }

  /** An object with nothing but whitespace around it. */
  predicate IsDocument(s: seq<Byte>) {
    ObjectEnd(s, 0).Some? && Ws(s, ObjectEnd(s, 0).value) == |s|
  }

  /** What the validator accepts, given its input without the white space around it. */
  predicate IsObject(trimmed: seq<Byte>) {
    && trimmed != [] && trimmed[0] == OPEN_BRACE && trimmed[|trimmed| - 1] == CLOSE_BRACE
    && IsDocument(trimmed)
  }

  class JsonParser {
    const input: seq<Byte>
    var index: nat

    constructor (input: seq<Byte>)
      ensures this.input == input && index == 0
    {
      this.input, index := input, 0;
    }

    method SkipWs()
      requires index <= |input|
      modifies this
      ensures index == Ws(input, old(index))
    {
      while index < |input| && IsWs(input[index])
        invariant index <= |input| && Ws(input, index) == Ws(input, old(index))
      {
        index := index + 1;
      }
    }

    method EatByte(b: Byte) returns (ok: bool)
      requires index <= |input|
      modifies this
      ensures ok == Eat(input, old(index), b).Some?
      ensures index == if ok then Eat(input, old(index), b).value else Ws(input, old(index))
    {
      SkipWs();
      ok := index < |input| && input[index] == b;
      if ok {
        index := index + 1;
      }
    }

    method ParseObject() returns (ok: bool)
      requires index <= |input|
      modifies this
      ensures index <= |input| && ok == ObjectEnd(input, old(index)).Some?
      ensures ok ==> index == ObjectEnd(input, old(index)).value
      decreases |input| - index, 0
    {
      hide Ws, Eat, StringEnd, ValueEnd, MembersEnd;
      ok := EatByte(OPEN_BRACE);
      if !ok {
        return false;
      }
      ghost var open := index;
      ok := EatByte(CLOSE_BRACE);
      if ok {
        return true;
      }
      MembersAfterWs(input, open);
      while true
        invariant old(index) < index <= |input| && MembersEnd(input, index) == ObjectEnd(input, old(index))
        decreases |input| - index
      {
        ghost var start := index;
        NoMember(input, start);
        ok := ParseString();
        if !ok {
          return false;
        }
        ghost var name := index;
        ok := EatByte(COLON);
        if !ok {
          return false;
        }
        ghost var colon := index;
        ok := ParseValue();
        if !ok {
          return false;
        }
        ghost var end := index;
        MembersStep(input, start, name, colon, end);
        ok := EatByte(CLOSE_BRACE);
        if ok {
          return true;
        }
        EatAfterWs(input, end, COMMA);
        ok := EatByte(COMMA);
        if !ok {
          return false;
        }
      }
    }

    method ParseArray() returns (ok: bool)
      requires index <= |input|
      modifies this
      ensures index <= |input| && ok == ArrayEnd(input, old(index)).Some?
      ensures ok ==> index == ArrayEnd(input, old(index)).value
      decreases |input| - index, 0
    {
      hide Ws, Eat, ValueEnd, ElementsEnd;
      ok := EatByte(OPEN_BRACKET);
      if !ok {
        return false;
      }
      ghost var open := index;
      ok := EatByte(CLOSE_BRACKET);
      if ok {
        return true;
      }
      ElementsAfterWs(input, open);
      while true
        invariant old(index) < index <= |input| && ElementsEnd(input, index) == ArrayEnd(input, old(index))
        decreases |input| - index
      {
        ghost var start := index;
        NoElement(input, start);
        ok := ParseValue();
        if !ok {
          return false;
        }
        ghost var end := index;
        ElementsStep(input, start, end);
        ok := EatByte(CLOSE_BRACKET);
        if ok {
          return true;
        }
        EatAfterWs(input, end, COMMA);
        ok := EatByte(COMMA);
        if !ok {
          return false;
        }
      }
    }

    method ParseString() returns (ok: bool)
      requires index <= |input|
      modifies this
      ensures index <= |input| && ok == StringEnd(input, old(index)).Some?
      ensures ok ==> index == StringEnd(input, old(index)).value
    {
      ok := EatByte(QUOTE);
      if !ok {
        return false;
      }
      ghost var start := index;
      var escaped := false;
      while index < |input|
        invariant start <= index <= |input| && StringRest(input, index, escaped) == StringRest(input, start, false)
      {
        var b := input[index];
        index := index + 1;
        if escaped {
          escaped := false;
        } else if b == BACKSLASH {
          escaped := true;
        } else if b == QUOTE {
          return true;
        } else if b < 0x20 {
          return false;
        }
      }
      return false;
    }

    method ParseValue() returns (ok: bool)
      requires index <= |input|
      modifies this
      ensures index <= |input| && ok == ValueEnd(input, old(index)).Some?
      ensures ok ==> index == ValueEnd(input, old(index)).value
      decreases |input| - index, 1
    {
      SkipWs();
      if index == |input| {
        return false;
      }
      var b := input[index];
      if b == OPEN_BRACE {
        ok := ParseObject();
      } else if b == OPEN_BRACKET {
        ok := ParseArray();
      } else if b == QUOTE {
        ok := ParseString();
      } else if b == 0x74 {
        ok := ParseLiteral(TRUE);
      } else if b == 0x66 {
        ok := ParseLiteral(FALSE);
      } else if b == 0x6E {
        ok := ParseLiteral(NULL);
      } else if b == 0x2D || IsDigit(b) {
        ok := ParseNumber();
      } else {
        ok := false;
      }
    }

    method ParseLiteral(literal: seq<Byte>) returns (ok: bool)
      requires index <= |input|
      modifies this
      ensures index <= |input| && ok == LiteralEnd(input, old(index), literal).Some?
      ensures index == if ok then old(index) + |literal| else old(index)
    {
      ok := index + |literal| <= |input| && input[index..index + |literal|] == literal;
      if ok {
        index := index + |literal|;
      }
    }

    method SkipDigits() returns (any: bool)
      requires index <= |input|
      modifies this
      ensures index == Digits(input, old(index)) && any == (index != old(index))
    {
      var start := index;
      while index < |input| && IsDigit(input[index])
        invariant start <= index <= |input| && Digits(input, index) == Digits(input, old(index))
      {
        index := index + 1;
      }
      any := index != start;
    }

    method ParseNumber() returns (ok: bool)
      requires index <= |input|
      modifies this
      ensures index <= |input| && ok == NumberEnd(input, old(index)).Some?
      ensures ok ==> index == NumberEnd(input, old(index)).value
    {
      hide Digits, Fraction, Exponent;
      var start := index;
      if index < |input| && input[index] == 0x2D {
        index := index + 1;
      }
      ok := SkipDigits();
      if !ok {
        index := start;
        return false;
      }
      ok := ParseFraction();
      if ok {
        ok := ParseExponent();
      }
    }

    method ParseFraction() returns (ok: bool)
      requires index <= |input|
      modifies this
      ensures index <= |input| && ok == Fraction(input, old(index)).Some?
      ensures ok ==> index == Fraction(input, old(index)).value
    {
      hide Digits;
      ok := true;
      if index < |input| && input[index] == 0x2E {
        index := index + 1;
        ok := SkipDigits();
      }
    }

    method ParseExponent() returns (ok: bool)
      requires index <= |input|
      modifies this
      ensures index <= |input| && ok == Exponent(input, old(index)).Some?
      ensures ok ==> index == Exponent(input, old(index)).value
    {
      hide Digits;
      ok := true;
      if index < |input| && (input[index] == 0x65 || input[index] == 0x45) {
        index := index + 1;
        if index < |input| && (input[index] == 0x2B || input[index] == 0x2D) {
          index := index + 1;
        }
        ok := SkipDigits();
      }
    }

    /** The validator's answer for an input without white space around it. */
    method AcceptsObject() returns (ok: bool)
      requires index == 0
      modifies this
      ensures ok == IsObject(input)
    {
      if !(input != [] && input[0] == OPEN_BRACE && input[|input| - 1] == CLOSE_BRACE) {
        return false;
      }
      var valid := ParseObject();
      if valid {
        SkipWs();
      }
      ok := valid && index == |input|;
    }
  }

  lemma WsTwice(s: seq<Byte>, i: nat)
    requires i <= |s|
    ensures Ws(s, Ws(s, i)) == Ws(s, i)
  {
  }

  lemma EatAfterWs(s: seq<Byte>, i: nat, b: Byte)
    requires i <= |s|
    ensures Eat(s, Ws(s, i), b) == Eat(s, i, b)
  {
  }

  lemma MembersAfterWs(s: seq<Byte>, i: nat)
    requires i <= |s|
    ensures MembersEnd(s, Ws(s, i)) == MembersEnd(s, i)
  {
    hide Ws, Eat, StringRest, ValueEnd;
    EatAfterWs(s, i, QUOTE);
    assert StringEnd(s, Ws(s, i)) == StringEnd(s, i);
  }

  lemma ValueAfterWs(s: seq<Byte>, i: nat)
    requires i <= |s|
    ensures ValueEnd(s, Ws(s, i)) == ValueEnd(s, i)
  {
    hide ObjectEnd, ArrayEnd, StringEnd, NumberEnd, LiteralEnd;
    assert Ws(s, Ws(s, i)) == Ws(s, i);
  }

  lemma ElementsAfterWs(s: seq<Byte>, i: nat)
    requires i <= |s|
    ensures ElementsEnd(s, Ws(s, i)) == ElementsEnd(s, i)
  {
    hide Ws, Eat, ValueEnd;
    ValueAfterWs(s, i);
  }

  /** One member, seen from the grammar. */
  lemma MembersStep(s: seq<Byte>, i: nat, name: nat, colon: nat, value: nat)
    requires i <= |s| && StringEnd(s, i) == Some(name) && Eat(s, name, COLON) == Some(colon) && ValueEnd(s, colon) == Some(value)
    ensures MembersEnd(s, i) == (if Eat(s, value, CLOSE_BRACE).Some? then Eat(s, value, CLOSE_BRACE)
                                 else if Eat(s, value, COMMA).None? then None
                                 else MembersEnd(s, Eat(s, value, COMMA).value))
  {
    hide Ws, Eat, StringEnd, ValueEnd;
  }

  lemma NoMember(s: seq<Byte>, i: nat)
    requires i <= |s|
    ensures StringEnd(s, i).None? ==> MembersEnd(s, i).None?
    ensures StringEnd(s, i).Some? && Eat(s, StringEnd(s, i).value, COLON).None? ==> MembersEnd(s, i).None?
    ensures (StringEnd(s, i).Some? && Eat(s, StringEnd(s, i).value, COLON).Some?
             && ValueEnd(s, Eat(s, StringEnd(s, i).value, COLON).value).None?) ==> MembersEnd(s, i).None?
  {
    hide Ws, Eat, StringEnd, ValueEnd;
  }

  lemma NoElement(s: seq<Byte>, i: nat)
    requires i <= |s|
    ensures ValueEnd(s, i).None? ==> ElementsEnd(s, i).None?
  {
    hide Ws, Eat, ValueEnd;
  }

  lemma ElementsStep(s: seq<Byte>, i: nat, value: nat)
    requires i <= |s| && ValueEnd(s, i) == Some(value)
    ensures ElementsEnd(s, i) == (if Eat(s, value, CLOSE_BRACKET).Some? then Eat(s, value, CLOSE_BRACKET)
                                  else if Eat(s, value, COMMA).None? then None
                                  else ElementsEnd(s, Eat(s, value, COMMA).value))
  {
    hide Ws, Eat, ValueEnd;
  }
}
