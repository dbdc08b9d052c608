/**
 The scanner that fetches fields out of validated tool arguments. It decodes the strings it
 meets and skips values it does not want by counting brackets of one kind.
 */
module JsonScanner {
  import opened Wrappers
  import opened Utf8
  import opened JsonGrammar

  /** Decoded text, in Unicode scalar values. */
  type Chars = seq<nat>

  /** Reading a string: none begins or ends here, a bad escape, or its text and end. */
  datatype Scan = NoString | BadEscape(at: nat) | Str(text: Chars, end: nat)

  datatype Escape = Bad(at: nat) | Char(code: nat, end: nat)

  predicate IsHex(b: Byte) { IsDigit(b) || 0x41 <= b <= 0x46 || 0x61 <= b <= 0x66 }

  function HexValue(b: Byte): (v: nat)
    requires IsHex(b)
    ensures v < 16
  {
    var n: int := b;
    if n <= 0x39 then n - 0x30 else if n <= 0x46 then n - 0x37 else n - 0x57
  }

  const PLUS: Byte := 0x2B

  /** Four characters as a hexadecimal number. The number parser also takes a leading plus. */
  function Hex4(s: seq<Byte>, i: nat): (r: Option<nat>)
    requires i <= |s|
    ensures r.Some? ==> i + 4 <= |s| && r.value < 0x10000 && forall k :: i <= k < i + 4 ==> IsHex(s[k]) || s[k] == PLUS
  {
    if i + 4 <= |s| && (IsHex(s[i]) || s[i] == PLUS) && IsHex(s[i + 1]) && IsHex(s[i + 2]) && IsHex(s[i + 3]) then
      var first := if s[i] == PLUS then 0 else HexValue(s[i]);
      Some(first * 0x1000 + HexValue(s[i + 1]) * 0x100 + HexValue(s[i + 2]) * 0x10 + HexValue(s[i + 3]))
    else None
  }

  /** The characters a `\u` escape stands for, from behind the `u`. */
  function UnicodeEscape(s: seq<Byte>, i: nat): (e: Escape)
    requires i <= |s|
    ensures match e case Bad(at) => i <= at <= |s| case Char(_, end) => i < end <= |s|
  {
    var high := Hex4(s, i);
    if high.None? then Bad(i)
    else if 0xD800 <= high.value <= 0xDBFF then
      if !(i + 5 < |s| && s[i + 4] == BACKSLASH && s[i + 5] == 0x75) then Bad(i + 4)
      else
        var low := Hex4(s, i + 6);
        if low.None? then Bad(i + 6)
        else if !(0xDC00 <= low.value <= 0xDFFF) then Bad(i + 10)
        else FromCode(0x10000 + (high.value - 0xD800) * 0x400 + (low.value - 0xDC00), i + 10)
    else FromCode(high.value, i + 4)
  }

  function FromCode(code: nat, end: nat): Escape {
    if IsScalar(code) then Char(code, end) else Bad(end)
  }

  /** A surrogate pair always stands for a scalar value, beyond the basic plane. */
  lemma PairIsScalar(high: nat, low: nat)
    requires 0xD800 <= high <= 0xDBFF && 0xDC00 <= low <= 0xDFFF
    ensures IsScalar(0x10000 + (high - 0xD800) * 0x400 + (low - 0xDC00))
    ensures 0x10000 <= 0x10000 + (high - 0xD800) * 0x400 + (low - 0xDC00) <= 0x10FFFF
  {
  }

  function Simple(b: Byte): Option<nat> {
    match b
    case 0x22 => Some(0x22)
    case 0x5C => Some(0x5C)
    case 0x2F => Some(0x2F)
    case 0x62 => Some(0x08)
    case 0x66 => Some(0x0C)
    case 0x6E => Some(0x0A)
    case 0x72 => Some(0x0D)
    case 0x74 => Some(0x09)
    case _ => None
  }

  /** An escape, from behind the backslash. */
  function EscapeAt(s: seq<Byte>, i: nat): (e: Escape)
    requires i < |s|
    ensures match e case Bad(at) => i < at <= |s| case Char(_, end) => i < end <= |s|
  {
    if Simple(s[i]).Some? then Char(Simple(s[i]).value, i + 1)
    else if s[i] == 0x75 then UnicodeEscape(s, i + 1)
    else Bad(i + 1)
  }

  function Utf8Width(b: Byte): (n: nat)
    ensures 1 <= n <= 4
  {
    if b <= 0x7F then 1 else if 0xC0 <= b <= 0xDF then 2 else if 0xE0 <= b <= 0xEF then 3 else 4
  }

  /** The rest of a string, with what has been decoded so far. */
  function ScanRest(s: seq<Byte>, i: nat, text: Chars): (r: Scan)
    requires i <= |s|
    ensures r.BadEscape? ==> i < r.at <= |s|
    ensures r.Str? ==> i < r.end <= |s|
    decreases |s| - i
  {
    if i == |s| then NoString
    else if s[i] == QUOTE then Str(text, i + 1)
    else if s[i] == BACKSLASH then
      if i + 1 == |s| then NoString
      else match EscapeAt(s, i + 1)
        case Bad(at) => BadEscape(at)
        case Char(code, end) => ScanRest(s, end, text + [code])
    else
      var end := i + Utf8Width(s[i]);
      if end > |s| || LookAt(s[i..end]) != Complete(end - i) then NoString
      else ScanRest(s, end, text + [CodePoint(s[i..end])])
  }

  function ScanString(s: seq<Byte>, i: nat): (r: Scan)
    requires i <= |s|
    ensures r.BadEscape? ==> i < r.at <= |s|
    ensures r.Str? ==> i < r.end <= |s|
  {
    var open := Eat(s, i, QUOTE);
    if open.None? then NoString else ScanRest(s, open.value, [])
  }

  datatype Brackets = Braces | Square

  function OpenOf(kind: Brackets): Byte { if kind.Braces? then OPEN_BRACE else OPEN_BRACKET }
  function CloseOf(kind: Brackets): Byte { if kind.Braces? then CLOSE_BRACE else CLOSE_BRACKET }

  /** The end of a container when `depth` brackets of its kind are open. The other kind is not
      looked at, and a bad escape leaves the scan in the middle of its string. */
  function SkipRest(s: seq<Byte>, i: nat, kind: Brackets, depth: nat): (r: Option<nat>)
    requires i <= |s|
    ensures r.Some? ==> i <= r.value <= |s|
    decreases |s| - i
  {
    if depth == 0 then Some(i)
    else if i == |s| then None
    else if s[i] == QUOTE then
      match ScanString(s, i)
      case NoString => None
      case BadEscape(at) => SkipRest(s, at, kind, depth)
      case Str(_, end) => SkipRest(s, end, kind, depth)
    else if s[i] == OpenOf(kind) then SkipRest(s, i + 1, kind, depth + 1)
    else if s[i] == CloseOf(kind) then SkipRest(s, i + 1, kind, depth - 1)
    else SkipRest(s, i + 1, kind, depth)
  }

  function SkipContainer(s: seq<Byte>, i: nat, kind: Brackets): (r: Option<nat>)
    requires i <= |s|
    ensures r.Some? ==> i < r.value <= |s|
  {
    var open := Eat(s, i, OpenOf(kind));
    if open.None? then None else SkipRest(s, open.value, kind, 1)
  }

  predicate EndsScalar(b: Byte) { b == COMMA || b == CLOSE_BRACE || b == CLOSE_BRACKET || IsWs(b) }

  function ScalarEnd(s: seq<Byte>, i: nat): (j: nat)
    requires i <= |s|
    ensures i <= j <= |s| && (forall k :: i <= k < j ==> !EndsScalar(s[k])) && (j < |s| ==> EndsScalar(s[j]))
    decreases |s| - i
  {
    if i < |s| && !EndsScalar(s[i]) then ScalarEnd(s, i + 1) else i
  }

  function SkipValue(s: seq<Byte>, i: nat): (r: Option<nat>)
    requires i <= |s|
    ensures r.Some? ==> i <= r.value <= |s|
  {
    var j := Ws(s, i);
    if j == |s| then None
    else if s[j] == QUOTE then
      match ScanString(s, j)
      case NoString => None
      case BadEscape(at) => Some(at)
      case Str(_, end) => Some(end)
    else if s[j] == OPEN_BRACE then SkipContainer(s, j, Braces)
    else if s[j] == OPEN_BRACKET then SkipContainer(s, j, Square)
    else Some(ScalarEnd(s, j))
  }

  datatype Field = Missing | NotAString | FieldBadEscape | Found(text: Chars)

  /** Looks for a string field among the members from `i` on. */
  function ExtractFrom(s: seq<Byte>, i: nat, key: Chars): Field
    requires i <= |s|
    decreases |s| - i
  {
    match ScanString(s, i)
    case NoString => Missing
    case BadEscape(at) => if Eat(s, at, COLON).None? then Missing else FieldBadEscape
    case Str(name, end) =>
      var colon := Eat(s, end, COLON);
      if colon.None? then Missing
      else if name == key then
        var v := Ws(s, colon.value);
        if v == |s| || s[v] != QUOTE then NotAString
        else match ScanString(s, v)
          case NoString => NotAString
          case BadEscape(_) => FieldBadEscape
          case Str(text, _) => Found(text)
      else
        var value := SkipValue(s, colon.value);
        if value.None? then Missing
        else if Eat(s, value.value, CLOSE_BRACE).Some? then Missing
        else
          var comma := Eat(s, value.value, COMMA);
          if comma.None? then Missing else ExtractFrom(s, comma.value, key)
  }

  function Extract(s: seq<Byte>, key: Chars): Field {
    var open := Eat(s, 0, OPEN_BRACE);
    if open.None? || Eat(s, open.value, CLOSE_BRACE).Some? then Missing
    else ExtractFrom(s, Ws(s, open.value), key)
  }

  /** The raw text of a field among the members from `i` on. */
  function RawFrom(s: seq<Byte>, i: nat, key: Chars): Option<seq<Byte>>
    requires i <= |s|
    decreases |s| - i
  {
    match ScanString(s, i)
    case NoString => None
    case BadEscape(_) => None
    case Str(name, end) =>
      var colon := Eat(s, end, COLON);
      if colon.None? then None
      else if name == key then
        var v := Ws(s, colon.value);
        if SkipValue(s, v).None? then None else Some(s[v..SkipValue(s, v).value])
      else
        var value := SkipValue(s, colon.value);
        if value.None? then None
        else if Eat(s, value.value, CLOSE_BRACE).Some? then None
        else
          var comma := Eat(s, value.value, COMMA);
          if comma.None? then None else RawFrom(s, comma.value, key)
  }

  function Raw(s: seq<Byte>, key: Chars): Option<seq<Byte>> {
    var open := Eat(s, 0, OPEN_BRACE);
    if open.None? || Eat(s, open.value, CLOSE_BRACE).Some? then None
    else RawFrom(s, Ws(s, open.value), key)
  }

  class Scanner {
    const bytes: seq<Byte>
    var index: nat

    constructor (bytes: seq<Byte>)
      ensures this.bytes == bytes && index == 0
    {
      this.bytes, index := bytes, 0;
    }

    method SkipWs()
      requires index <= |bytes|
      modifies this
      ensures index == Ws(bytes, old(index))
    {
      while index < |bytes| && IsWs(bytes[index])
        invariant index <= |bytes| && Ws(bytes, index) == Ws(bytes, old(index))
      {
        index := index + 1;
      }
    }

    method Peek() returns (b: Option<Byte>)
      requires index <= |bytes|
      modifies this
      ensures index == Ws(bytes, old(index)) && b == if index < |bytes| then Some(bytes[index]) else None
    {
      SkipWs();
      b := if index < |bytes| then Some(bytes[index]) else None;
    }

    method EatByte(expected: Byte) returns (ok: bool)
      requires index <= |bytes|
      modifies this
      ensures ok == Eat(bytes, old(index), expected).Some?
      ensures index == if ok then Eat(bytes, old(index), expected).value else Ws(bytes, old(index))
    {
      var b := Peek();
      ok := b == Some(expected);
      if ok {
        index := index + 1;
      }
    }

    /** Where the scanner stands after `scan`, read from `start`. */
    ghost predicate At(scan: Scan, start: nat)
      reads this
      requires start <= |bytes|
    {
      match scan
      case Str(_, end) => index == end
      case BadEscape(at) => index == at
      case NoString => Eat(bytes, start, QUOTE).None? ==> index == Ws(bytes, start)
    }

    method ParseString() returns (scan: Scan)
      requires index <= |bytes|
      modifies this
      ensures scan == ScanString(bytes, old(index)) && At(scan, old(index)) && index <= |bytes|
    {
      hide Ws, Eat, EscapeAt, LookAt, CodePoint, Utf8Width;
      var ok := EatByte(QUOTE);
      if !ok {
        return NoString;
      }
      ghost var start := index;
      var text: Chars := [];
      while index < |bytes|
        invariant start <= index <= |bytes| && ScanRest(bytes, index, text) == ScanRest(bytes, start, [])
        decreases |bytes| - index
      {
        var b := bytes[index];
        if b == QUOTE {
          index := index + 1;
          return Str(text, index);
        } else if b == BACKSLASH {
          if index + 1 == |bytes| {
            index := index + 1;
            return NoString;
          }
          index := index + 1;
          var escape := ParseEscape();
          match escape {
            case Bad(at) => return BadEscape(at);
            case Char(code, _) => text := text + [code];
          }
        } else {
          var c := ParseCharacter();
          if c.None? {
            return NoString;
          }
          text := text + [c.value];
        }
      }
      return NoString;
    }

    /** A character that stands for itself: as many bytes as its first one says. */
    method ParseCharacter() returns (c: Option<nat>)
      requires index < |bytes|
      modifies this
      ensures var end := old(index) + Utf8Width(bytes[old(index)]);
              if end > |bytes| || LookAt(bytes[old(index)..end]) != Complete(end - old(index))
              then c.None? && index == old(index) + 1
              else c == Some(CodePoint(bytes[old(index)..end])) && index == end
    {
      hide LookAt, CodePoint, Utf8Width;
      var end := index + Utf8Width(bytes[index]);
      if end > |bytes| || LookAt(bytes[index..end]) != Complete(end - index) {
        index := index + 1;
        return None;
      }
      c := Some(CodePoint(bytes[index..end]));
      index := end;
    }

    method ParseEscape() returns (escape: Escape)
      requires index < |bytes|
      modifies this
      ensures escape == EscapeAt(bytes, old(index))
      ensures index == match escape case Bad(at) => at case Char(_, end) => end
    {
      var b := bytes[index];
      index := index + 1;
      if Simple(b).Some? {
        return Char(Simple(b).value, index);
      }
      if b == 0x75 {
        escape := ParseUnicodeEscape();
        return;
      }
      return Bad(index);
    }

    method ParseUnicodeEscape() returns (escape: Escape)
      requires index <= |bytes|
      modifies this
      ensures escape == UnicodeEscape(bytes, old(index))
      ensures index == match escape case Bad(at) => at case Char(_, end) => end
    {
      var high := ParseHex4();
      if high.None? {
        return Bad(index);
      }
      var code := high.value;
      if 0xD800 <= high.value <= 0xDBFF {
        if !(index + 1 < |bytes| && bytes[index] == BACKSLASH && bytes[index + 1] == 0x75) {
          return Bad(index);
        }
        index := index + 2;
        var low := ParseHex4();
        if low.None? || !(0xDC00 <= low.value <= 0xDFFF) {
          return Bad(index);
        }
        code := 0x10000 + (high.value - 0xD800) * 0x400 + (low.value - 0xDC00);
      }
      return FromCode(code, index);
    }

    method ParseHex4() returns (value: Option<nat>)
      requires index <= |bytes|
      modifies this
      ensures value == Hex4(bytes, old(index)) && index == if value.Some? then old(index) + 4 else old(index)
    {
      value := Hex4(bytes, index);
      if value.Some? {
        index := index + 4;
      }
    }

    method SkipOver() returns (ok: bool)
      requires index <= |bytes|
      modifies this
      ensures index <= |bytes| && ok == SkipValue(bytes, old(index)).Some?
      ensures ok ==> index == SkipValue(bytes, old(index)).value
    {
      hide Ws, ScanRest, SkipRest, ScalarEnd;
      var b := Peek();
      WsTwice(bytes, old(index));
      if b == None {
        return false;
      }
      if b.value == QUOTE {
        var scan := ParseString();
        return !scan.NoString?;
      } else if b.value == OPEN_BRACE {
        ok := SkipBrackets(Braces);
      } else if b.value == OPEN_BRACKET {
        ok := SkipBrackets(Square);
      } else {
        SkipScalar();
        return true;
      }
    }

    method SkipScalar()
      requires index <= |bytes|
      modifies this
      ensures index == ScalarEnd(bytes, old(index))
    {
      while index < |bytes| && !EndsScalar(bytes[index])
        invariant index <= |bytes| && ScalarEnd(bytes, index) == ScalarEnd(bytes, old(index))
      {
        index := index + 1;
      }
    }

    method SkipBrackets(kind: Brackets) returns (ok: bool)
      requires index <= |bytes|
      modifies this
      ensures index <= |bytes| && ok == SkipContainer(bytes, old(index), kind).Some?
      ensures ok ==> index == SkipContainer(bytes, old(index), kind).value
    {
      hide Ws, ScanRest;
      ok := EatByte(OpenOf(kind));
      if !ok {
        return false;
      }
      ghost var start := index;
      var depth := 1;
      while depth > 0
        invariant start <= index <= |bytes| && SkipRest(bytes, index, kind, depth) == SkipRest(bytes, start, kind, 1)
        decreases |bytes| - index, depth
      {
        if index == |bytes| {
          return false;
        }
        var b := bytes[index];
        if b == QUOTE {
          var scan := ParseString();
          if scan.NoString? {
            return false;
          }
        } else {
          index := index + 1;
          if b == OpenOf(kind) {
            depth := depth + 1;
          } else if b == CloseOf(kind) {
            depth := depth - 1;
          }
        }
      }
      return true;
    }

    method ExtractString(key: Chars) returns (field: Field)
      requires index == 0
      modifies this
      ensures field == Extract(bytes, key)
    {
      hide Ws, Eat, ScanRest, SkipRest, ScalarEnd, SkipValue, ScanString;
      var ok := EatByte(OPEN_BRACE);
      if !ok {
        return Missing;
      }
      ghost var open := index;
      SkipWs();
      EatAfterWs(bytes, open, CLOSE_BRACE);
      ok := EatByte(CLOSE_BRACE);
      if ok {
        return Missing;
      }
      WsTwice(bytes, open);
      while true
        invariant index <= |bytes| && ExtractFrom(bytes, index, key) == Extract(bytes, key)
        decreases |bytes| - index
      {
        var name := ParseString();
        if name.NoString? {
          return Missing;
        }
        ok := EatByte(COLON);
        if !ok {
          return Missing;
        }
        if name.BadEscape? {
          return FieldBadEscape;
        }
        if name.text == key {
          field := TakeValue();
          return;
        }
        ok := SkipOver();
        if !ok {
          return Missing;
        }
        ghost var end := index;
        SkipWs();
        EatAfterWs(bytes, end, CLOSE_BRACE);
        EatAfterWs(bytes, end, COMMA);
        WsTwice(bytes, end);
        ok := EatByte(CLOSE_BRACE);
        if ok {
          return Missing;
        }
        ok := EatByte(COMMA);
        if !ok {
          return Missing;
        }
      }
    }

    method TakeValue() returns (field: Field)
      requires index <= |bytes|
      modifies this
      ensures field == (var v := Ws(bytes, old(index));
                        if v == |bytes| || bytes[v] != QUOTE then NotAString
                        else match ScanString(bytes, v)
                          case NoString => NotAString
                          case BadEscape(_) => FieldBadEscape
                          case Str(text, _) => Found(text))
    {
      hide ScanRest, Ws;
      var b := Peek();
      if b != Some(QUOTE) {
        return NotAString;
      }
      var scan := ParseString();
      match scan
      case NoString => return NotAString;
      case BadEscape(_) => return FieldBadEscape;
      case Str(text, _) => return Found(text);
    }

    method RawValue(key: Chars) returns (raw: Option<seq<Byte>>)
      requires index == 0
      modifies this
      ensures raw == Raw(bytes, key)
    {
      hide Ws, Eat, ScanRest, SkipRest, ScalarEnd, SkipValue, ScanString;
      var ok := EatByte(OPEN_BRACE);
      if !ok {
        return None;
      }
      ghost var open := index;
      SkipWs();
      EatAfterWs(bytes, open, CLOSE_BRACE);
      ok := EatByte(CLOSE_BRACE);
      if ok {
        return None;
      }
      WsTwice(bytes, open);
      while true
        invariant index <= |bytes| && RawFrom(bytes, index, key) == Raw(bytes, key)
        decreases |bytes| - index
      {
        var name := ParseString();
        if !name.Str? {
          return None;
        }
        ok := EatByte(COLON);
        if !ok {
          return None;
        }
        if name.text == key {
          SkipWs();
          var start := index;
          ok := SkipOver();
          return if ok then Some(bytes[start..index]) else None;
        }
        ok := SkipOver();
        if !ok {
          return None;
        }
        ghost var end := index;
        SkipWs();
        EatAfterWs(bytes, end, CLOSE_BRACE);
        EatAfterWs(bytes, end, COMMA);
        WsTwice(bytes, end);
        ok := EatByte(CLOSE_BRACE);
        if ok {
          return None;
        }
        ok := EatByte(COMMA);
        if !ok {
          return None;
        }
      }
    }
  }
}
