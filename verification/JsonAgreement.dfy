/**
 The validator and the scanner agree. On every document whose strings are well escaped the
 scanner skips each value to exactly where the validator ended it, although it counts one kind
 of bracket only, and so finds the fields the validator saw.
 */
module JsonAgreement {
  import opened Wrappers
  import opened Utf8
  import opened JsonGrammar
  import opened JsonScanner

  // ---- strings ----

  /** Four hexadecimal digits; `plus` also allows what the number parser takes besides them. */
  predicate HexAt(s: seq<Byte>, i: nat, plus: bool) {
    && i + 4 <= |s| && (IsHex(s[i]) || (plus && s[i] == PLUS)) && IsHex(s[i + 1]) && IsHex(s[i + 2]) && IsHex(s[i + 3])
  }

  /** Section 7 of RFC 8259, from behind the opening quote and byte by byte: every backslash
      begins a defined escape, and surrogates come in pairs. */
  predicate EscapesOk(s: seq<Byte>, i: nat, plus: bool)
    requires i <= |s|
    decreases |s| - i
  {
    if i == |s| then false
    else if s[i] == QUOTE then true
    else if s[i] != BACKSLASH then EscapesOk(s, i + 1, plus)
    else if i + 1 == |s| then false
    else if Simple(s[i + 1]).Some? then EscapesOk(s, i + 2, plus)
    else if s[i + 1] != 0x75 || !HexAt(s, i + 2, plus) then false
    else
      var code := Hex4(s, i + 2).value;
      if 0xD800 <= code <= 0xDBFF then
        && i + 7 < |s| && s[i + 6] == BACKSLASH && s[i + 7] == 0x75 && HexAt(s, i + 8, plus)
        && 0xDC00 <= Hex4(s, i + 8).value <= 0xDFFF && EscapesOk(s, i + 12, plus)
      else !(0xDC00 <= code <= 0xDFFF) && EscapesOk(s, i + 6, plus)
  }

  lemma HexIsHex4(s: seq<Byte>, i: nat)
    requires i <= |s|
    ensures HexAt(s, i, true) <==> Hex4(s, i).Some?
  {
  }

  lemma {:induction false} StrictEscapesAreOk(s: seq<Byte>, i: nat)
    requires i <= |s| && EscapesOk(s, i, false)
    ensures EscapesOk(s, i, true)
    decreases |s| - i
  {
    if s[i] != QUOTE {
      if s[i] != BACKSLASH {
        StrictEscapesAreOk(s, i + 1);
      } else if Simple(s[i + 1]).Some? {
        StrictEscapesAreOk(s, i + 2);
      } else if 0xD800 <= Hex4(s, i + 2).value <= 0xDBFF {
        StrictEscapesAreOk(s, i + 12);
      } else {
        StrictEscapesAreOk(s, i + 6);
      }
    }
  }

  predicate IsPlain(b: Byte) { b >= 0x20 && b != QUOTE && b != BACKSLASH }

  lemma {:induction false} PlainBytes(s: seq<Byte>, i: nat, j: nat)
    requires i <= j <= |s| && forall k :: i <= k < j ==> IsPlain(s[k])
    ensures StringRest(s, i, false) == StringRest(s, j, false)
    ensures EscapesOk(s, i, true) == EscapesOk(s, j, true)
    decreases j - i
  {
    if i < j {
      PlainBytes(s, i + 1, j);
    }
  }

  /** One whole character of valid text: the scanner's width guess is right, the rest is valid. */
  lemma OneCharacter(s: seq<Byte>, i: nat)
    requires i < |s| && IsValid(s[i..])
    ensures i + Utf8Width(s[i]) <= |s| && LookAt(s[i..i + Utf8Width(s[i])]) == Complete(Utf8Width(s[i]))
    ensures IsValid(s[i + Utf8Width(s[i])..])
    ensures forall k :: i < k < i + Utf8Width(s[i]) ==> s[k] >= 0x80
    ensures Utf8Width(s[i]) > 1 ==> s[i] >= 0x80
  {
    var rest := s[i..];
    var n := LookAt(rest).len;
    assert ValidUpTo(rest) == n + ValidUpTo(rest[n..]);
    assert rest[n..] == s[i + n..];
    assert n == Utf8Width(s[i]);
    assert s[i..i + n] == rest[..n];
  }

  lemma ValidAfter(s: seq<Byte>, i: nat, j: nat)
    requires i <= j <= |s| && IsValid(s[i..]) && forall k :: i <= k < j ==> s[k] < 0x80
    ensures IsValid(s[j..])
    decreases j - i
  {
    if i < j {
      OneCharacter(s, i);
      ValidAfter(s, i + 1, j);
    }
  }

  /** A string the validator read to its end is read to the same end by the scanner, unless one
      of its escapes is bad. */
  lemma {:induction false} StringsAgree(s: seq<Byte>, i: nat, text: Chars)
    requires i <= |s| && IsValid(s[i..]) && StringRest(s, i, false).Some?
    ensures ScanRest(s, i, text).Str? <==> EscapesOk(s, i, true)
    ensures ScanRest(s, i, text).Str? ==> ScanRest(s, i, text).end == StringRest(s, i, false).value
    ensures !ScanRest(s, i, text).NoString?
    ensures ScanRest(s, i, text).BadEscape? ==> ScanRest(s, i, text).at < StringRest(s, i, false).value
    ensures EscapesOk(s, i, true) ==> IsValid(s[StringRest(s, i, false).value..])
    decreases |s| - i
  {
    hide IsValid, LookAt, Hex4;
    if s[i] == QUOTE {
      ValidAfter(s, i, i + 1);
    } else if s[i] == BACKSLASH {
      assert StringRest(s, i, false) == StringRest(s, i + 1, true);
      EscapeAgrees(s, i, text);
    } else {
      OneCharacter(s, i);
      var end := i + Utf8Width(s[i]);
      PlainBytes(s, i, end);
      StringsAgree(s, end, text + [CodePoint(s[i..end])]);
    }
  }

  lemma {:induction false} EscapeAgrees(s: seq<Byte>, i: nat, text: Chars)
    requires i < |s| && s[i] == BACKSLASH && IsValid(s[i..]) && StringRest(s, i, false).Some?
    ensures ScanRest(s, i, text).Str? <==> EscapesOk(s, i, true)
    ensures ScanRest(s, i, text).Str? ==> ScanRest(s, i, text).end == StringRest(s, i, false).value
    ensures !ScanRest(s, i, text).NoString?
    ensures ScanRest(s, i, text).BadEscape? ==> ScanRest(s, i, text).at < StringRest(s, i, false).value
    ensures EscapesOk(s, i, true) ==> IsValid(s[StringRest(s, i, false).value..])
    decreases |s| - i, 0
  {
    hide IsValid, LookAt, EscapesOk, UnicodeEscape, Hex4, CodePoint;
    assert StringRest(s, i, false) == StringRest(s, i + 1, true) == StringRest(s, i + 2, false);
    HexIsHex4(s, i + 2);
    var e := EscapeAt(s, i + 1);
    if e.Char? {
      if s[i + 1] != 0x75 {
        ValidAfter(s, i, i + 2);
      } else {
        UnicodeLength(s, i + 2);
        if e.end == i + 6 {
          PlainBytes(s, i + 2, i + 6);
          ValidAfter(s, i, i + 6);
        } else {
          PlainBytes(s, i + 2, i + 6);
          assert StringRest(s, i + 6, false) == StringRest(s, i + 7, true) == StringRest(s, i + 8, false);
          PlainBytes(s, i + 8, i + 12);
          ValidAfter(s, i, i + 12);
        }
      }
      StringsAgree(s, e.end, text + [e.code]);
    } else {
      BadEscapeIsInside(s, i);
    }
    EscapeIsOk(s, i);
  }

  /** A bad escape is noticed before the string ends. */
  lemma BadEscapeIsInside(s: seq<Byte>, i: nat)
    requires i + 1 < |s| && s[i] == BACKSLASH && StringRest(s, i + 2, false).Some? && EscapeAt(s, i + 1).Bad?
    ensures EscapeAt(s, i + 1).at < StringRest(s, i + 2, false).value
  {
    if s[i + 1] == 0x75 && Hex4(s, i + 2).Some? {
      PlainBytes(s, i + 2, i + 6);
      if EscapeAt(s, i + 1).at > i + 6 {
        assert StringRest(s, i + 6, false) == StringRest(s, i + 7, true) == StringRest(s, i + 8, false);
        if Hex4(s, i + 8).Some? {
          PlainBytes(s, i + 8, i + 12);
        }
      }
    }
  }

  /** The condition is exact: a string value is skipped to its end if and only if none of its
      escapes is bad. */
  lemma SkipStringExact(s: seq<Byte>, i: nat)
    requires i < |s| && s[i] == QUOTE && IsValid(s[i..]) && StringEnd(s, i).Some?
    ensures SkipValue(s, i) == StringEnd(s, i) <==> EscapesOk(s, i + 1, true)
  {
    hide ScanRest, StringRest, EscapesOk, IsValid;
    ValidAfter(s, i, i + 1);
    StringsAgree(s, i + 1, []);
  }

  /** `{"":"\q","b":""}` */
  const BAD_ESCAPE: seq<Byte> := [OPEN_BRACE, QUOTE, QUOTE, COLON, QUOTE, BACKSLASH, 0x71, QUOTE, COMMA,
                                  QUOTE, 0x62, QUOTE, COLON, QUOTE, QUOTE, CLOSE_BRACE]

  lemma BadEscapeFirstMember()
    ensures var s := BAD_ESCAPE;
            && Eat(s, 0, OPEN_BRACE) == Some(1) && Eat(s, 1, CLOSE_BRACE) == None
            && StringEnd(s, 1) == Some(3) && ScanString(s, 1) == Str([], 3) && Eat(s, 3, COLON) == Some(4)
            && ValueEnd(s, 4) == Some(8) && Eat(s, 8, CLOSE_BRACE) == None && Eat(s, 8, COMMA) == Some(9)
  {
    var s := BAD_ESCAPE;
    assert StringRest(s, 5, false) == StringRest(s, 6, true) == StringRest(s, 7, false) == Some(8);
  }

  lemma BadEscapeSecondMember()
    ensures var s := BAD_ESCAPE;
            && StringEnd(s, 9) == Some(12) && ScanString(s, 9) == Str([0x62], 12) && Eat(s, 12, COLON) == Some(13)
            && ValueEnd(s, 13) == Some(15) && Eat(s, 15, CLOSE_BRACE) == Some(16)
  {
    var s := BAD_ESCAPE;
    assert StringRest(s, 10, false) == Some(12) && StringEnd(s, 9) == Some(12);
    assert s[10..11] == [0x62] && LookAt(s[10..11]) == Complete(1);
    assert CodePoint(s[10..11]) == 0x62;
    assert ScanRest(s, 10, []) == ScanRest(s, 11, [] + [0x62]) == Str([] + [0x62], 12);
    assert [] + [0x62] == [0x62];
    assert ScanString(s, 9) == Str([0x62], 12);
    hide StringRest, ScanRest, LookAt, CodePoint;
    assert Eat(s, 12, COLON) == Some(13);
    assert StringRest(s, 14, false) == Some(15) by { BadEscapeLastString(); }
    assert StringEnd(s, 13) == Some(15);
    assert ValueEnd(s, 13) == Some(15);
    assert Ws(s, 15) == 15;
  }

  lemma BadEscapeLastString()
    ensures StringRest(BAD_ESCAPE, 14, false) == Some(15)
  {
  }

  lemma BadEscapeIsAccepted()
    ensures IsObject(BAD_ESCAPE) && |DocumentMembers(BAD_ESCAPE)| == 2 && DocumentMembers(BAD_ESCAPE)[1].name == [0x62]
  {
    hide Eat, StringEnd, ScanString, ValueEnd;
    var s := BAD_ESCAPE;
    BadEscapeFirstMember();
    BadEscapeSecondMember();
    MembersStep(s, 9, 12, 13, 15);
    MembersStep(s, 1, 3, 4, 8);
    assert |MembersFrom(s, 9)| == 1 && MembersFrom(s, 9)[0].name == [0x62];
    assert MembersFrom(s, 1)[1..] == MembersFrom(s, 9);
  }

  lemma BadEscapeStopsShort()
    ensures var s := BAD_ESCAPE;
            Ws(s, 1) == 1 && SkipValue(s, 4) == Some(7) && Eat(s, 7, CLOSE_BRACE) == None && Eat(s, 7, COMMA) == None
  {
    assert EscapeAt(BAD_ESCAPE, 6) == Bad(7);
    assert ScanString(BAD_ESCAPE, 4) == BadEscape(7);
  }

  /** What a bad escape does: the fields after it are not found although the validator saw them. */
  lemma BadEscapeHidesFields()
    ensures IsObject(BAD_ESCAPE) && Named(DocumentMembers(BAD_ESCAPE), [0x62]) && Extract(BAD_ESCAPE, [0x62]) == Missing
  {
    hide Eat, StringEnd, ScanString, ValueEnd, SkipValue, Ws, IsObject, DocumentMembers;
    BadEscapeIsAccepted();
    BadEscapeFirstMember();
    BadEscapeStopsShort();
    assert ExtractFrom(BAD_ESCAPE, 1, [0x62]) == Missing;
  }

  lemma UnicodeLength(s: seq<Byte>, i: nat)
    requires i <= |s| && UnicodeEscape(s, i).Char?
    ensures forall k :: i <= k < i + 4 ==> k < |s| && IsPlain(s[k]) && s[k] < 0x80
    ensures UnicodeEscape(s, i).end == i + 4 || UnicodeEscape(s, i).end == i + 10
    ensures UnicodeEscape(s, i).end == i + 10 ==>
              && i + 10 <= |s| && s[i + 4] == BACKSLASH && s[i + 5] == 0x75
              && forall k :: i + 6 <= k < i + 10 ==> IsPlain(s[k]) && s[k] < 0x80
  {
  }

  lemma EscapeIsOk(s: seq<Byte>, i: nat)
    requires i < |s| && s[i] == BACKSLASH && i + 1 < |s|
    ensures EscapesOk(s, i, true) <==> EscapeAt(s, i + 1).Char? && EscapesOk(s, EscapeAt(s, i + 1).end, true)
  {
    HexIsHex4(s, i + 2);
    if i + 8 <= |s| {
      HexIsHex4(s, i + 8);
    }
    if s[i + 1] == 0x75 && Hex4(s, i + 2).Some? && 0xD800 <= Hex4(s, i + 2).value <= 0xDBFF
       && i + 7 < |s| && Hex4(s, i + 8).Some? && 0xDC00 <= Hex4(s, i + 8).value <= 0xDFFF {
      PairIsScalar(Hex4(s, i + 2).value, Hex4(s, i + 8).value);
    }
  }

  /** The leniency is real: a plus sign passes for a hexadecimal digit. */
  lemma PlusAccepted()
    ensures var s: seq<Byte> := [BACKSLASH, 0x75, PLUS, 0x30, 0x34, 0x31, QUOTE];
            ScanRest(s, 0, []) == Str([0x41], 7) && !EscapesOk(s, 0, false)
  {
    var s: seq<Byte> := [BACKSLASH, 0x75, PLUS, 0x30, 0x34, 0x31, QUOTE];
    assert Hex4(s, 2) == Some(0x41);
    assert EscapeAt(s, 1) == Char(0x41, 6);
    assert ScanRest(s, 0, []) == ScanRest(s, 6, [] + [0x41]);
    assert [] + [0x41] == [0x41];
  }

  // ---- documents ----

  /** Reading on from `i`, token by token, every string ends and is well escaped. */
  predicate WellEscaped(s: seq<Byte>, i: nat, plus: bool)
    requires i <= |s|
    decreases |s| - i
  {
    if i == |s| then true
    else if s[i] != QUOTE then WellEscaped(s, i + 1, plus)
    else
      var end := StringRest(s, i + 1, false);
      end.Some? && EscapesOk(s, i + 1, plus) && WellEscaped(s, end.value, plus)
  }

  lemma {:induction false} StrictIsWellEscaped(s: seq<Byte>, i: nat)
    requires i <= |s| && WellEscaped(s, i, false)
    ensures WellEscaped(s, i, true)
    decreases |s| - i
  {
    if i < |s| {
      if s[i] != QUOTE {
        StrictIsWellEscaped(s, i + 1);
      } else {
        StrictEscapesAreOk(s, i + 1);
        StrictIsWellEscaped(s, StringRest(s, i + 1, false).value);
      }
    }
  }

  predicate Fine(s: seq<Byte>, i: nat) {
    i <= |s| && IsValid(s[i..]) && WellEscaped(s, i, true)
  }

  /** Between `i` and `j` the bracket count of the one kind goes from `d` to `d'`. */
  predicate Counts(s: seq<Byte>, i: nat, j: nat, kind: Brackets, d: nat, d': nat) {
    i <= j && Fine(s, i) && Fine(s, j) && SkipRest(s, i, kind, d) == SkipRest(s, j, kind, d')
  }

  function Bump(b: Byte, kind: Brackets, d: nat): nat
    requires d >= 1
  {
    if b == OpenOf(kind) then d + 1 else if b == CloseOf(kind) then d - 1 else d
  }

  lemma CountByte(s: seq<Byte>, i: nat, kind: Brackets, d: nat)
    requires Fine(s, i) && i < |s| && s[i] < 0x80 && s[i] != QUOTE && d >= 1
    ensures Counts(s, i, i + 1, kind, d, Bump(s[i], kind, d))
  {
    ValidAfter(s, i, i + 1);
  }

  predicate IsBracket(b: Byte) {
    b == OPEN_BRACE || b == CLOSE_BRACE || b == OPEN_BRACKET || b == CLOSE_BRACKET
  }

  /** Bytes that are neither quotes nor brackets leave the count alone. */
  lemma {:induction false} CountPlain(s: seq<Byte>, i: nat, j: nat, kind: Brackets, d: nat)
    requires Fine(s, i) && i <= j <= |s| && d >= 1
    requires forall k :: i <= k < j ==> s[k] < 0x80 && s[k] != QUOTE && !IsBracket(s[k])
    ensures Counts(s, i, j, kind, d, d)
    decreases j - i
  {
    hide Fine, SkipRest;
    if i < j {
      CountByte(s, i, kind, d);
      CountPlain(s, i + 1, j, kind, d);
    }
  }

  lemma CountEat(s: seq<Byte>, i: nat, b: Byte, kind: Brackets, d: nat)
    requires Fine(s, i) && d >= 1 && Eat(s, i, b).Some? && b < 0x80 && b != QUOTE
    ensures Counts(s, i, Eat(s, i, b).value, kind, d, Bump(b, kind, d))
  {
    hide Fine, SkipRest, Ws;
    CountPlain(s, i, Ws(s, i), kind, d);
    CountByte(s, Ws(s, i), kind, d);
  }

  lemma CountString(s: seq<Byte>, i: nat, kind: Brackets, d: nat)
    requires Fine(s, i) && d >= 1 && StringEnd(s, i).Some?
    ensures Counts(s, i, StringEnd(s, i).value, kind, d, d)
    ensures ScanString(s, i).Str? && ScanString(s, i).end == StringEnd(s, i).value
    ensures ScanString(s, Ws(s, i)) == ScanString(s, i)
  {
    hide Ws, EscapesOk, StringRest, ScanRest, IsValid;
    var j := Ws(s, i);
    CountPlain(s, i, j, kind, d);
    ValidAfter(s, j, j + 1);
    StringsAgree(s, j + 1, []);
    EatAfterWs(s, i, QUOTE);
  }

  predicate IsScalarByte(b: Byte) {
    IsDigit(b) || b == 0x2D || b == 0x2B || b == 0x2E || 0x61 <= b <= 0x7A || b == 0x45
  }

  lemma NumberBytes(s: seq<Byte>, i: nat)
    requires i <= |s| && NumberEnd(s, i).Some?
    ensures forall k :: i <= k < NumberEnd(s, i).value ==> IsScalarByte(s[k])
  {
    hide Digits;
  }

  lemma LiteralBytes(s: seq<Byte>, i: nat, literal: seq<Byte>)
    requires i <= |s| && LiteralEnd(s, i, literal).Some? && forall k :: 0 <= k < |literal| ==> IsScalarByte(literal[k])
    ensures forall k :: i <= k < i + |literal| ==> IsScalarByte(s[k])
  {
    forall k | i <= k < i + |literal| ensures IsScalarByte(s[k]) {
      assert s[k] == s[i..i + |literal|][k - i] == literal[k - i];
    }
  }

  predicate StartsScalar(s: seq<Byte>, i: nat) {
    i < |s| && s[i] != OPEN_BRACE && s[i] != OPEN_BRACKET && s[i] != QUOTE
  }

  lemma ScalarBytes(s: seq<Byte>, i: nat)
    requires i <= |s| && ValueEnd(s, i).Some? && StartsScalar(s, Ws(s, i))
    ensures Ws(s, i) <= ValueEnd(s, i).value <= |s|
    ensures forall k :: Ws(s, i) <= k < ValueEnd(s, i).value ==> IsScalarByte(s[k])
  {
    hide NumberEnd, LiteralEnd, Ws, ObjectEnd, ArrayEnd, StringEnd;
    var j := Ws(s, i);
    if s[j] == 0x74 {
      LiteralBytes(s, j, TRUE);
    } else if s[j] == 0x66 {
      LiteralBytes(s, j, FALSE);
    } else if s[j] == 0x6E {
      LiteralBytes(s, j, NULL);
    } else {
      NumberBytes(s, j);
    }
  }

  lemma CountScalar(s: seq<Byte>, i: nat, kind: Brackets, d: nat)
    requires Fine(s, i) && d >= 1 && ValueEnd(s, i).Some? && StartsScalar(s, Ws(s, i))
    ensures Counts(s, i, ValueEnd(s, i).value, kind, d, d)
  {
    hide Fine, SkipRest, Ws, ValueEnd;
    ScalarBytes(s, i);
    CountPlain(s, i, Ws(s, i), kind, d);
    CountPlain(s, Ws(s, i), ValueEnd(s, i).value, kind, d);
  }

  /** A complete value is balanced in each kind of bracket by itself. */
  lemma {:induction false} CountValue(s: seq<Byte>, i: nat, kind: Brackets, d: nat)
    requires Fine(s, i) && d >= 1 && ValueEnd(s, i).Some?
    ensures Counts(s, i, ValueEnd(s, i).value, kind, d, d)
    decreases |s| - i, 1
  {
    hide Fine, SkipRest, Ws, ObjectEnd, ArrayEnd, StringEnd, NumberEnd, LiteralEnd, Eat;
    var j := Ws(s, i);
    CountPlain(s, i, j, kind, d);
    WsTwice(s, i);
    if s[j] == OPEN_BRACE {
      CountObject(s, j, kind, d);
    } else if s[j] == OPEN_BRACKET {
      CountArray(s, j, kind, d);
    } else if s[j] == QUOTE {
      CountString(s, j, kind, d);
    } else {
      CountScalar(s, i, kind, d);
    }
  }

  lemma {:induction false} CountObject(s: seq<Byte>, i: nat, kind: Brackets, d: nat)
    requires Fine(s, i) && d >= 1 && ObjectEnd(s, i).Some?
    ensures Counts(s, i, ObjectEnd(s, i).value, kind, d, d)
    decreases |s| - i, 0
  {
    hide Fine, SkipRest, Ws, MembersEnd, Eat;
    CountEat(s, i, OPEN_BRACE, kind, d);
    CountObjectBody(s, Eat(s, i, OPEN_BRACE).value, kind, Bump(OPEN_BRACE, kind, d));
  }

  /** Where an object ends, from behind its opening brace. */
  function ObjectBodyEnd(s: seq<Byte>, open: nat): (r: Option<nat>)
    requires open <= |s|
    ensures r.Some? ==> open < r.value <= |s|
  {
    if Eat(s, open, CLOSE_BRACE).Some? then Eat(s, open, CLOSE_BRACE) else MembersEnd(s, open)
  }

  function ArrayBodyEnd(s: seq<Byte>, open: nat): (r: Option<nat>)
    requires open <= |s|
    ensures r.Some? ==> open < r.value <= |s|
  {
    if Eat(s, open, CLOSE_BRACKET).Some? then Eat(s, open, CLOSE_BRACKET) else ElementsEnd(s, open)
  }

  lemma {:induction false} CountObjectBody(s: seq<Byte>, open: nat, kind: Brackets, d: nat)
    requires Fine(s, open) && d >= 1 && ObjectBodyEnd(s, open).Some?
    ensures Counts(s, open, ObjectBodyEnd(s, open).value, kind, d, Bump(CLOSE_BRACE, kind, d))
    decreases |s| - open, 3
  {
    hide Fine, SkipRest, Ws, MembersEnd, Eat;
    if Eat(s, open, CLOSE_BRACE).Some? {
      CountEat(s, open, CLOSE_BRACE, kind, d);
    } else {
      CountMembers(s, open, kind, d);
    }
  }

  lemma {:induction false} CountMembers(s: seq<Byte>, i: nat, kind: Brackets, d: nat)
    requires Fine(s, i) && d >= 1 && MembersEnd(s, i).Some?
    ensures Counts(s, i, MembersEnd(s, i).value, kind, d, Bump(CLOSE_BRACE, kind, d))
    decreases |s| - i, 2
  {
    hide Fine, SkipRest, Ws, StringEnd, ValueEnd, Eat, ScanString;
    var name := StringEnd(s, i).value;
    CountString(s, i, kind, d);
    CountEat(s, name, COLON, kind, d);
    var colon := Eat(s, name, COLON).value;
    CountValue(s, colon, kind, d);
    var value := ValueEnd(s, colon).value;
    if Eat(s, value, CLOSE_BRACE).Some? {
      CountEat(s, value, CLOSE_BRACE, kind, d);
    } else {
      CountEat(s, value, COMMA, kind, d);
      CountMembers(s, Eat(s, value, COMMA).value, kind, d);
    }
  }

  lemma {:induction false} CountArray(s: seq<Byte>, i: nat, kind: Brackets, d: nat)
    requires Fine(s, i) && d >= 1 && ArrayEnd(s, i).Some?
    ensures Counts(s, i, ArrayEnd(s, i).value, kind, d, d)
    decreases |s| - i, 0
  {
    hide Fine, SkipRest, Ws, ElementsEnd, Eat;
    CountEat(s, i, OPEN_BRACKET, kind, d);
    CountArrayBody(s, Eat(s, i, OPEN_BRACKET).value, kind, Bump(OPEN_BRACKET, kind, d));
  }

  lemma {:induction false} CountArrayBody(s: seq<Byte>, open: nat, kind: Brackets, d: nat)
    requires Fine(s, open) && d >= 1 && ArrayBodyEnd(s, open).Some?
    ensures Counts(s, open, ArrayBodyEnd(s, open).value, kind, d, Bump(CLOSE_BRACKET, kind, d))
    decreases |s| - open, 3
  {
    hide Fine, SkipRest, Ws, ElementsEnd, Eat;
    if Eat(s, open, CLOSE_BRACKET).Some? {
      CountEat(s, open, CLOSE_BRACKET, kind, d);
    } else {
      CountElements(s, open, kind, d);
    }
  }

  lemma {:induction false} CountElements(s: seq<Byte>, i: nat, kind: Brackets, d: nat)
    requires Fine(s, i) && d >= 1 && ElementsEnd(s, i).Some?
    ensures Counts(s, i, ElementsEnd(s, i).value, kind, d, Bump(CLOSE_BRACKET, kind, d))
    decreases |s| - i, 2
  {
    hide Fine, SkipRest, Ws, ValueEnd, Eat;
    CountValue(s, i, kind, d);
    var value := ValueEnd(s, i).value;
    if Eat(s, value, CLOSE_BRACKET).Some? {
      CountEat(s, value, CLOSE_BRACKET, kind, d);
    } else {
      CountEat(s, value, COMMA, kind, d);
      CountElements(s, Eat(s, value, COMMA).value, kind, d);
    }
  }

  // ---- skipping a value ----

  lemma {:induction false} ScalarEndsThere(s: seq<Byte>, i: nat, j: nat)
    requires i <= j <= |s| && (forall k :: i <= k < j ==> IsScalarByte(s[k])) && (j == |s| || EndsScalar(s[j]))
    ensures ScalarEnd(s, i) == j
    decreases j - i
  {
    if i < j {
      ScalarEndsThere(s, i + 1, j);
    }
  }

  /** What follows a value inside a container. */
  predicate Delimited(s: seq<Byte>, i: nat) {
    i <= |s| && (i == |s| || EndsScalar(s[i]))
  }

  /** The scanner skips a value to exactly where the validator ended it. */
  lemma SkipAgrees(s: seq<Byte>, i: nat)
    requires Fine(s, i) && ValueEnd(s, i).Some? && Delimited(s, ValueEnd(s, i).value)
    ensures SkipValue(s, i) == ValueEnd(s, i)
  {
    hide Fine, ObjectEnd, ArrayEnd, StringEnd, NumberEnd, LiteralEnd, ScanString, ScalarEnd, SkipContainer;
    var j := Ws(s, i);
    CountPlain(s, i, j, Braces, 1);
    WsTwice(s, i);
    if s[j] == OPEN_BRACE {
      SkipObjectAgrees(s, j);
    } else if s[j] == OPEN_BRACKET {
      SkipArrayAgrees(s, j);
    } else if s[j] == QUOTE {
      CountString(s, j, Braces, 1);
    } else {
      ScalarBytes(s, i);
      ScalarEndsThere(s, j, ValueEnd(s, i).value);
    }
  }

  lemma SkipObjectAgrees(s: seq<Byte>, i: nat)
    requires Fine(s, i) && ObjectEnd(s, i).Some?
    ensures SkipContainer(s, i, Braces) == ObjectEnd(s, i)
  {
    hide Fine, Ws, Eat, MembersEnd;
    CountEat(s, i, OPEN_BRACE, Braces, 1);
    CountObjectBody(s, Eat(s, i, OPEN_BRACE).value, Braces, 1);
  }

  lemma SkipArrayAgrees(s: seq<Byte>, i: nat)
    requires Fine(s, i) && ArrayEnd(s, i).Some?
    ensures SkipContainer(s, i, Square) == ArrayEnd(s, i)
  {
    hide Fine, Ws, Eat, ElementsEnd;
    CountEat(s, i, OPEN_BRACKET, Square, 1);
    CountArrayBody(s, Eat(s, i, OPEN_BRACKET).value, Square, 1);
  }

  // ---- fields ----

  /** A member as the validator saw it: its decoded name and where its value stands. */
  datatype Member = Member(name: Chars, start: nat, end: nat)

  function TextOf(s: seq<Byte>, i: nat): Chars
    requires i <= |s|
  {
    match ScanString(s, i) case Str(text, _) => text case _ => []
  }

  function MembersFrom(s: seq<Byte>, i: nat): (ms: seq<Member>)
    requires i <= |s| && MembersEnd(s, i).Some?
    ensures forall m :: m in ms ==> m.start < m.end <= |s|
    decreases |s| - i
  {
    var colon := Eat(s, StringEnd(s, i).value, COLON).value;
    var value := ValueEnd(s, colon).value;
    assert Ws(s, colon) < value by { StartsBeforeEnd(s, colon); }
    var first := Member(TextOf(s, i), Ws(s, colon), value);
    if Eat(s, value, CLOSE_BRACE).Some? then [first] else [first] + MembersFrom(s, Eat(s, value, COMMA).value)
  }

  lemma StartsBeforeEnd(s: seq<Byte>, i: nat)
    requires i <= |s| && ValueEnd(s, i).Some?
    ensures Ws(s, i) < ValueEnd(s, i).value
  {
    ValueAfterWs(s, i);
  }

  function DocumentMembers(s: seq<Byte>): (ms: seq<Member>)
    requires IsDocument(s)
    ensures forall m :: m in ms ==> m.start < m.end <= |s|
  {
    var open := Eat(s, 0, OPEN_BRACE).value;
    if Eat(s, open, CLOSE_BRACE).Some? then [] else MembersFrom(s, open)
  }

  function FieldOf(s: seq<Byte>, m: Member): Field
    requires m.start < m.end <= |s|
  {
    if s[m.start] == QUOTE then Found(TextOf(s, m.start)) else NotAString
  }

  function FirstField(s: seq<Byte>, ms: seq<Member>, key: Chars): Field
    requires forall m :: m in ms ==> m.start < m.end <= |s|
  {
    if ms == [] then Missing else if ms[0].name == key then FieldOf(s, ms[0]) else FirstField(s, ms[1..], key)
  }

  function FirstRaw(s: seq<Byte>, ms: seq<Member>, key: Chars): Option<seq<Byte>>
    requires forall m :: m in ms ==> m.start < m.end <= |s|
  {
    if ms == [] then None
    else if ms[0].name == key then Some(s[ms[0].start..ms[0].end])
    else FirstRaw(s, ms[1..], key)
  }

  /** One member: the scanner reads its name, finds its colon and skips its value just as the
      validator did. */
  lemma MemberAgrees(s: seq<Byte>, i: nat)
    requires Fine(s, i) && MembersEnd(s, i).Some?
    ensures ScanString(s, i) == Str(TextOf(s, i), StringEnd(s, i).value)
    ensures var colon := Eat(s, StringEnd(s, i).value, COLON).value;
            && Fine(s, colon) && SkipValue(s, colon) == ValueEnd(s, colon)
            && SkipValue(s, Ws(s, colon)) == ValueEnd(s, colon)
            && (s[Ws(s, colon)] == QUOTE ==> ScanString(s, Ws(s, colon)).Str?)
            && (Eat(s, ValueEnd(s, colon).value, CLOSE_BRACE).None? ==> Fine(s, Eat(s, ValueEnd(s, colon).value, COMMA).value))
  {
    hide Fine, StringEnd, ValueEnd, ScanString, SkipValue, SkipRest, IsValid, WellEscaped;
    var name := StringEnd(s, i).value;
    CountString(s, i, Braces, 1);
    CountEat(s, name, COLON, Braces, 1);
    var colon := Eat(s, name, COLON).value;
    CountValue(s, colon, Braces, 1);
    var value := ValueEnd(s, colon).value;
    SkipAgrees(s, colon);
    ValueAfterWs(s, colon);
    CountPlain(s, colon, Ws(s, colon), Braces, 1);
    SkipAgrees(s, Ws(s, colon));
    QuotedValue(s, colon);
    if Eat(s, value, CLOSE_BRACE).None? {
      CountEat(s, value, COMMA, Braces, 1);
    }
  }

  lemma QuotedValue(s: seq<Byte>, i: nat)
    requires Fine(s, i) && ValueEnd(s, i).Some?
    ensures Ws(s, i) < |s| && (s[Ws(s, i)] == QUOTE ==> ScanString(s, Ws(s, i)).Str?)
  {
    hide Fine, StringEnd, ScanString, ObjectEnd, ArrayEnd, NumberEnd, LiteralEnd;
    var j := Ws(s, i);
    if s[j] == QUOTE {
      CountPlain(s, i, j, Braces, 1);
      CountString(s, j, Braces, 1);
    }
  }

  lemma {:induction false} ExtractAgrees(s: seq<Byte>, i: nat, key: Chars)
    requires Fine(s, i) && MembersEnd(s, i).Some?
    ensures ExtractFrom(s, i, key) == FirstField(s, MembersFrom(s, i), key)
    decreases |s| - i
  {
    hide Fine, StringEnd, ValueEnd, ScanString, SkipValue, Eat, Ws;
    MemberAgrees(s, i);
    var colon := Eat(s, StringEnd(s, i).value, COLON).value;
    var value := ValueEnd(s, colon).value;
    StartsBeforeEnd(s, colon);
    var ms := MembersFrom(s, i);
    assert ms[0] == Member(TextOf(s, i), Ws(s, colon), value);
    if Eat(s, value, CLOSE_BRACE).None? {
      ExtractAgrees(s, Eat(s, value, COMMA).value, key);
      assert ms[1..] == MembersFrom(s, Eat(s, value, COMMA).value);
    }
  }

  lemma {:induction false} RawAgrees(s: seq<Byte>, i: nat, key: Chars)
    requires Fine(s, i) && MembersEnd(s, i).Some?
    ensures RawFrom(s, i, key) == FirstRaw(s, MembersFrom(s, i), key)
    decreases |s| - i
  {
    hide Fine, StringEnd, ValueEnd, ScanString, SkipValue, Eat, Ws;
    MemberAgrees(s, i);
    var colon := Eat(s, StringEnd(s, i).value, COLON).value;
    var value := ValueEnd(s, colon).value;
    StartsBeforeEnd(s, colon);
    var ms := MembersFrom(s, i);
    assert ms[0] == Member(TextOf(s, i), Ws(s, colon), value);
    if Eat(s, value, CLOSE_BRACE).None? {
      RawAgrees(s, Eat(s, value, COMMA).value, key);
      assert ms[1..] == MembersFrom(s, Eat(s, value, COMMA).value);
    }
  }

  lemma {:induction false} MembersFromWs(s: seq<Byte>, i: nat)
    requires i <= |s| && MembersEnd(s, i).Some?
    ensures MembersEnd(s, Ws(s, i)).Some? && MembersFrom(s, Ws(s, i)) == MembersFrom(s, i)
  {
    hide Ws, Eat, StringRest, ValueEnd, ScanRest;
    MembersAfterWs(s, i);
    EatAfterWs(s, i, QUOTE);
    assert StringEnd(s, Ws(s, i)) == StringEnd(s, i) && ScanString(s, Ws(s, i)) == ScanString(s, i);
  }

  /**
   On every accepted document whose strings are well escaped, a field is the first member of
   that name: its decoded text if it is a string, an error if it is not, and missing only if
   there is no such member. A bad escape is never reported.
   */
  lemma ExtractIsFirstMember(s: seq<Byte>, key: Chars)
    requires IsDocument(s) && Fine(s, 0)
    ensures Extract(s, key) == FirstField(s, DocumentMembers(s), key)
    ensures Raw(s, key) == FirstRaw(s, DocumentMembers(s), key)
  {
    hide Fine, Ws, MembersEnd, Eat, ExtractFrom, RawFrom, MembersFrom;
    CountEat(s, 0, OPEN_BRACE, Braces, 1);
    var open := Eat(s, 0, OPEN_BRACE).value;
    if Eat(s, open, CLOSE_BRACE).None? {
      CountPlain(s, open, Ws(s, open), Braces, 1);
      MembersFromWs(s, open);
      ExtractAgrees(s, Ws(s, open), key);
      RawAgrees(s, Ws(s, open), key);
    }
  }

  predicate Named(ms: seq<Member>, key: Chars) {
    exists k :: 0 <= k < |ms| && ms[k].name == key
  }

  lemma NamedInRest(ms: seq<Member>, key: Chars)
    requires ms != [] && ms[0].name != key
    ensures Named(ms, key) <==> Named(ms[1..], key)
  {
    if Named(ms, key) {
      var i :| 0 <= i < |ms| && ms[i].name == key;
      assert ms[1..][i - 1].name == key;
    }
    if k :| 0 <= k < |ms[1..]| && ms[1..][k].name == key {
      assert ms[k + 1].name == key;
    }
  }

  lemma {:induction false} FirstFieldMeans(s: seq<Byte>, ms: seq<Member>, key: Chars)
    requires forall m :: m in ms ==> m.start < m.end <= |s|
    ensures FirstField(s, ms, key) == Missing <==> !Named(ms, key)
    ensures Named(ms, key) ==>
              exists k :: 0 <= k < |ms| && ms[k].name == key && (forall j :: 0 <= j < k ==> ms[j].name != key)
                          && FirstField(s, ms, key) == FieldOf(s, ms[k])
  {
    if ms != [] {
      var rest := ms[1..];
      FirstFieldMeans(s, rest, key);
      if ms[0].name == key {
        assert FirstField(s, ms, key) == FieldOf(s, ms[0]);
      } else {
        hide FieldOf, TextOf;
        NamedInRest(ms, key);
        if Named(rest, key) {
          var k :| 0 <= k < |rest| && rest[k].name == key && (forall j :: 0 <= j < k ==> rest[j].name != key)
                   && FirstField(s, rest, key) == FieldOf(s, rest[k]);
          assert ms[k + 1] == rest[k];
          assert forall j :: 0 < j < k + 1 ==> ms[j] == rest[j - 1];
        }
      }
    }
  }
}
