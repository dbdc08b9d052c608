/**
 Whole arguments, as they arrive. The validator looks at them without the Unicode white space
 around them, the scanner gets them as they are and skips the ASCII kind only.
 */
module JsonDocument {
  import opened Wrappers
  import opened Utf8
  import opened JsonGrammar
  import opened JsonScanner
  import opened JsonAgreement

  /** The Unicode property White_Space. */
  predicate IsSpace(c: nat) {
    || 0x09 <= c <= 0x0D || c == 0x20 || c == 0x85 || c == 0xA0 || c == 0x1680 || 0x2000 <= c <= 0x200A
    || c == 0x2028 || c == 0x2029 || c == 0x202F || c == 0x205F || c == 0x3000
  }

  predicate SpaceAt(s: seq<Byte>, i: nat) {
    i < |s| && LookAt(s[i..]).Complete? && IsSpace(CodePoint(s[i..]))
  }

  function Width(s: seq<Byte>, i: nat): (n: nat)
    requires i < |s|
    ensures 1 <= n <= |s| - i
  {
    match LookAt(s[i..]) case Complete(n) => n case _ => 1
  }

  /** Where the content begins. */
  function Lead(s: seq<Byte>, i: nat): (j: nat)
    requires i <= |s|
    ensures i <= j <= |s|
    decreases |s| - i
  {
    if SpaceAt(s, i) then Lead(s, i + Width(s, i)) else i
  }

  /** The end of the last character from `i` on that is no white space, or `i` if there is none. */
  function Tail(s: seq<Byte>, i: nat): (j: nat)
    requires i <= |s|
    ensures i <= j <= |s|
    decreases |s| - i
  {
    if i == |s| then i
    else
      var next := i + Width(s, i);
      if Tail(s, next) == next && SpaceAt(s, i) then i else Tail(s, next)
  }

  function Trim(s: seq<Byte>): seq<Byte> {
    s[Lead(s, 0)..Tail(s, Lead(s, 0))]
  }

  /** What the validator accepts. */
  predicate Accepted(raw: seq<Byte>) {
    IsValid(raw) && IsObject(Trim(raw))
  }

  // ---- trimming valid text ----

  lemma WidthOfValid(s: seq<Byte>, i: nat)
    requires i < |s| && IsValid(s[i..])
    ensures LookAt(s[i..]) == Complete(Width(s, i)) && IsValid(s[i + Width(s, i)..])
  {
    var rest := s[i..];
    assert ValidUpTo(rest) == LookAt(rest).len + ValidUpTo(rest[LookAt(rest).len..]);
    assert rest[LookAt(rest).len..] == s[i + LookAt(rest).len..];
  }

  lemma {:induction false} LeadIsValid(s: seq<Byte>, i: nat)
    requires i <= |s| && IsValid(s[i..])
    ensures IsValid(s[Lead(s, i)..])
    decreases |s| - i
  {
    hide LookAt, CodePoint, IsValid;
    if SpaceAt(s, i) {
      WidthOfValid(s, i);
      LeadIsValid(s, i + Width(s, i));
    }
  }

  lemma {:induction false} TailIsValid(s: seq<Byte>, i: nat)
    requires i <= |s| && IsValid(s[i..])
    ensures IsValid(s[i..Tail(s, i)])
    decreases |s| - i
  {
    hide LookAt, CodePoint;
    if i < |s| && Tail(s, i) != i {
      WidthOfValid(s, i);
      var next, end := i + Width(s, i), Tail(s, i);
      TailIsValid(s, next);
      CharacterFirst(s[i..], end - i);
      assert s[i..][..end - i] == s[i..end] && s[i..end][next - i..] == s[next..end];
    }
  }

  lemma CharacterFirst(s: seq<Byte>, n: nat)
    requires s != [] && LookAt(s).Complete? && LookAt(s).len <= n <= |s|
    ensures LookAt(s[..n]) == LookAt(s)
  {
  }

  lemma TrimIsValid(s: seq<Byte>)
    requires IsValid(s)
    ensures IsValid(Trim(s)[0..])
  {
    assert s[0..] == s && Trim(s)[0..] == Trim(s);
    LeadIsValid(s, 0);
    TailIsValid(s, Lead(s, 0));
  }

  lemma {:induction false} SpacesAreSpaces(s: seq<Byte>, i: nat)
    requires i <= |s| && Ws(s, i) < |s| && s[Ws(s, i)] == OPEN_BRACE
    ensures Lead(s, i) == Ws(s, i)
    decreases |s| - i
  {
    assert LookAt(s[i..]) == Complete(1) && CodePoint(s[i..]) == s[i];
    if IsWs(s[i]) {
      SpacesAreSpaces(s, i + 1);
    }
  }

  // ---- the scanner on a part of the text ----

  /** `t` stands in `raw` from `o` on. */
  predicate Stands(t: seq<Byte>, raw: seq<Byte>, o: nat) {
    o + |t| <= |raw| && forall k {:trigger t[k]} :: 0 <= k < |t| ==> t[k] == raw[o + k]
  }

  lemma {:induction false} WsThere(t: seq<Byte>, i: nat, raw: seq<Byte>, o: nat)
    requires Stands(t, raw, o) && i <= |t| && Ws(t, i) < |t|
    ensures Ws(raw, o + i) == o + Ws(t, i)
    decreases |t| - i
  {
    assert t[i] == raw[o + i];
    if IsWs(t[i]) {
      WsThere(t, i + 1, raw, o);
    }
  }

  function Moved(r: Option<nat>, o: nat): Option<nat> {
    if r.Some? then Some(o + r.value) else None
  }

  lemma EatThere(t: seq<Byte>, i: nat, raw: seq<Byte>, o: nat, b: Byte)
    requires Stands(t, raw, o) && i <= |t| && Ws(t, i) < |t|
    ensures Eat(raw, o + i, b) == Moved(Eat(t, i, b), o)
  {
    hide Ws;
    WsThere(t, i, raw, o);
  }

  lemma HexThere(t: seq<Byte>, i: nat, raw: seq<Byte>, o: nat)
    requires Stands(t, raw, o) && i <= |t| && Hex4(t, i).Some?
    ensures Hex4(raw, o + i) == Hex4(t, i)
  {
    assert t[i] == raw[o + i] && t[i + 1] == raw[o + i + 1] && t[i + 2] == raw[o + i + 2] && t[i + 3] == raw[o + i + 3];
  }

  lemma EscapeThere(t: seq<Byte>, i: nat, raw: seq<Byte>, o: nat)
    requires Stands(t, raw, o) && i < |t| && EscapeAt(t, i).Char?
    ensures EscapeAt(raw, o + i) == Char(EscapeAt(t, i).code, o + EscapeAt(t, i).end)
  {
    hide Hex4;
    assert t[i] == raw[o + i];
    if Simple(t[i]).None? {
      HexThere(t, i + 1, raw, o);
      if 0xD800 <= Hex4(t, i + 1).value <= 0xDBFF {
        assert t[i + 5] == raw[o + i + 5] && t[i + 6] == raw[o + i + 6];
        HexThere(t, i + 7, raw, o);
      }
    }
  }

  /** A string is read the same way wherever it stands. */
  lemma {:induction false} ScanThere(t: seq<Byte>, i: nat, raw: seq<Byte>, o: nat, text: Chars)
    requires Stands(t, raw, o) && i <= |t| && ScanRest(t, i, text).Str?
    ensures ScanRest(raw, o + i, text) == Str(ScanRest(t, i, text).text, o + ScanRest(t, i, text).end)
    decreases |t| - i
  {
    hide EscapeAt, LookAt, CodePoint, Utf8Width;
    assert t[i] == raw[o + i];
    if t[i] == BACKSLASH {
      EscapeThere(t, i + 1, raw, o);
      ScanThere(t, EscapeAt(t, i + 1).end, raw, o, text + [EscapeAt(t, i + 1).code]);
    } else if t[i] != QUOTE {
      var end := i + Utf8Width(t[i]);
      assert t[i..end] == raw[o + i..o + end];
      ScanThere(t, end, raw, o, text + [CodePoint(t[i..end])]);
    }
  }

  lemma StringThere(t: seq<Byte>, i: nat, raw: seq<Byte>, o: nat)
    requires Stands(t, raw, o) && i <= |t| && ScanString(t, i).Str?
    ensures ScanString(raw, o + i) == Str(ScanString(t, i).text, o + ScanString(t, i).end)
  {
    hide ScanRest;
    EatThere(t, i, raw, o, QUOTE);
    ScanThere(t, Eat(t, i, QUOTE).value, raw, o, []);
  }

  /** No scan of a well escaped string stops at an escape, be the text valid or not. */
  lemma {:induction false} CleanScan(s: seq<Byte>, i: nat, text: Chars)
    requires i <= |s| && StringRest(s, i, false).Some? && EscapesOk(s, i, true)
    ensures !ScanRest(s, i, text).BadEscape?
    ensures ScanRest(s, i, text).Str? ==> ScanRest(s, i, text).end == StringRest(s, i, false).value
    decreases |s| - i
  {
    hide LookAt, EscapeAt, EscapesOk, CodePoint;
    if s[i] == QUOTE {
    } else if s[i] == BACKSLASH {
      EscapeIsOk(s, i);
      EscapeIsRead(s, i);
      CleanScan(s, EscapeAt(s, i + 1).end, text + [EscapeAt(s, i + 1).code]);
    } else if !ScanRest(s, i, text).NoString? {
      var end := i + Utf8Width(s[i]);
      CharacterIsPlain(s[i..end]);
      assert forall k :: i < k < end ==> s[k] == s[i..end][k - i];
      PlainBytes(s, i, end);
      CleanScan(s, end, text + [CodePoint(s[i..end])]);
    }
  }

  lemma CharacterIsPlain(s: seq<Byte>)
    requires s != [] && LookAt(s) == Complete(|s|)
    ensures forall k :: 0 < k < |s| ==> s[k] >= 0x80
    ensures |s| > 1 ==> s[0] >= 0x80
  {
  }

  lemma EscapeIsRead(s: seq<Byte>, i: nat)
    requires i + 1 < |s| && s[i] == BACKSLASH && EscapeAt(s, i + 1).Char?
    ensures StringRest(s, i, false) == StringRest(s, EscapeAt(s, i + 1).end, false)
  {
    hide Hex4, UnicodeEscape;
    assert StringRest(s, i, false) == StringRest(s, i + 1, true) == StringRest(s, i + 2, false);
    if s[i + 1] == 0x75 {
      UnicodeLength(s, i + 2);
      PlainBytes(s, i + 2, i + 6);
      if EscapeAt(s, i + 1).end != i + 6 {
        assert StringRest(s, i + 6, false) == StringRest(s, i + 7, true) == StringRest(s, i + 8, false);
        PlainBytes(s, i + 8, i + 12);
      }
    }
  }

  /** A string met while skipping is read to its end in both. */
  lemma QuotedThere(t: seq<Byte>, i: nat, raw: seq<Byte>, o: nat)
    requires Stands(t, raw, o) && i < |t| && t[i] == QUOTE && WellEscaped(t, i, true) && !ScanString(t, i).NoString?
    ensures ScanString(t, i).Str? && WellEscaped(t, ScanString(t, i).end, true)
    ensures ScanString(raw, o + i) == Str(ScanString(t, i).text, o + ScanString(t, i).end)
  {
    hide ScanRest, StringRest, EscapesOk, LookAt;
    CleanScan(t, i + 1, []);
    StringThere(t, i, raw, o);
  }

  lemma {:induction false} SkipRestThere(t: seq<Byte>, i: nat, raw: seq<Byte>, o: nat, kind: Brackets, d: nat)
    requires Stands(t, raw, o) && i <= |t| && WellEscaped(t, i, true) && SkipRest(t, i, kind, d).Some?
    ensures SkipRest(raw, o + i, kind, d) == Some(o + SkipRest(t, i, kind, d).value)
    decreases |t| - i
  {
    hide ScanRest, ScanString, StringRest, EscapesOk, LookAt;
    if d > 0 {
      assert t[i] == raw[o + i];
      if t[i] == QUOTE {
        QuotedThere(t, i, raw, o);
        SkipRestThere(t, ScanString(t, i).end, raw, o, kind, d);
      } else {
        SkipRestThere(t, i + 1, raw, o, kind, if t[i] == OpenOf(kind) then d + 1 else if t[i] == CloseOf(kind) then d - 1 else d);
      }
    }
  }

  lemma {:induction false} ScalarThere(t: seq<Byte>, i: nat, raw: seq<Byte>, o: nat)
    requires Stands(t, raw, o) && i <= |t| && ScalarEnd(t, i) < |t|
    ensures ScalarEnd(raw, o + i) == o + ScalarEnd(t, i)
    decreases |t| - i
  {
    assert t[i] == raw[o + i];
    if !EndsScalar(t[i]) {
      ScalarThere(t, i + 1, raw, o);
    }
  }

  lemma SkipThere(t: seq<Byte>, i: nat, raw: seq<Byte>, o: nat)
    requires Stands(t, raw, o) && Fine(t, i) && ValueEnd(t, i).Some? && SkipValue(t, i) == ValueEnd(t, i)
    requires ValueEnd(t, i).value < |t|
    ensures SkipValue(raw, o + i) == Some(o + ValueEnd(t, i).value)
  {
    hide ScanRest, ScanString, SkipRest, ScalarEnd, IsValid, ValueEnd, StringRest, EscapesOk;
    var j := Ws(t, i);
    QuotedValue(t, i);
    CountPlain(t, i, j, Braces, 1);
    WsThere(t, i, raw, o);
    assert t[j] == raw[o + j];
    if t[j] == QUOTE {
      StringThere(t, j, raw, o);
    } else if t[j] == OPEN_BRACE {
      ContainerThere(t, j, raw, o, Braces);
    } else if t[j] == OPEN_BRACKET {
      ContainerThere(t, j, raw, o, Square);
    } else {
      ScalarThere(t, j, raw, o);
    }
  }

  lemma ContainerThere(t: seq<Byte>, i: nat, raw: seq<Byte>, o: nat, kind: Brackets)
    requires Stands(t, raw, o) && i < |t| && t[i] == OpenOf(kind) && WellEscaped(t, i, true) && SkipContainer(t, i, kind).Some?
    ensures SkipContainer(raw, o + i, kind) == Some(o + SkipContainer(t, i, kind).value)
  {
    hide SkipRest, StringRest, EscapesOk;
    EatThere(t, i, raw, o, OpenOf(kind));
    SkipRestThere(t, i + 1, raw, o, kind, 1);
  }

  /** One member of the validated part: its name, its value and what follows it. */
  lemma MemberThere(t: seq<Byte>, i: nat, raw: seq<Byte>, o: nat)
    requires Stands(t, raw, o) && Fine(t, i) && MembersEnd(t, i).Some?
    ensures var name := StringEnd(t, i).value; var colon := Eat(t, name, COLON).value; var value := ValueEnd(t, colon).value;
            && ScanString(t, i) == Str(TextOf(t, i), name) && ScanString(raw, o + i) == Str(TextOf(t, i), o + name)
            && Eat(raw, o + name, COLON) == Some(o + colon) && Fine(t, colon) && value < |t|
            && SkipValue(t, colon) == Some(value) && SkipValue(raw, o + colon) == Some(o + value)
            && SkipValue(t, Ws(t, colon)) == Some(value)
            && Eat(raw, o + value, CLOSE_BRACE) == Moved(Eat(t, value, CLOSE_BRACE), o)
            && Eat(raw, o + value, COMMA) == Moved(Eat(t, value, COMMA), o)
            && (Eat(t, value, CLOSE_BRACE).None? ==> Fine(t, Eat(t, value, COMMA).value))
  {
    hide Fine, StringEnd, ValueEnd, ScanString, SkipValue, Eat, Ws, Stands;
    MemberAgrees(t, i);
    StringThere(t, i, raw, o);
    var name := StringEnd(t, i).value;
    EatThere(t, name, raw, o, COLON);
    var colon := Eat(t, name, COLON).value;
    var value := ValueEnd(t, colon).value;
    EatThere(t, value, raw, o, CLOSE_BRACE);
    EatThere(t, value, raw, o, COMMA);
    SkipThere(t, colon, raw, o);
  }

  function Taken(scan: Scan): Field {
    match scan
    case NoString => NotAString
    case BadEscape(_) => FieldBadEscape
    case Str(text, _) => Found(text)
  }

  /** One round of the scanner, when it reads a member as a whole. */
  lemma OneRound(s: seq<Byte>, i: nat, key: Chars, name: Chars, end: nat, colon: nat, value: nat)
    requires i <= |s| && ScanString(s, i) == Str(name, end) && Eat(s, end, COLON) == Some(colon)
    requires Ws(s, colon) < |s| && Ws(s, colon) <= value <= |s| && SkipValue(s, colon) == Some(value) && SkipValue(s, Ws(s, colon)) == Some(value)
    requires Eat(s, value, CLOSE_BRACE).Some? || Eat(s, value, COMMA).Some?
    ensures ExtractFrom(s, i, key)
         == if name == key then (if s[Ws(s, colon)] != QUOTE then NotAString else Taken(ScanString(s, Ws(s, colon))))
            else if Eat(s, value, CLOSE_BRACE).Some? then Missing else ExtractFrom(s, Eat(s, value, COMMA).value, key)
    ensures RawFrom(s, i, key)
         == if name == key then Some(s[Ws(s, colon)..value])
            else if Eat(s, value, CLOSE_BRACE).Some? then None else RawFrom(s, Eat(s, value, COMMA).value, key)
  {
    hide Ws, Eat, ScanString, SkipValue;
  }

  /** Fields are found in the whole text as they are in the part that was validated. */
  lemma {:induction false} FieldsThere(t: seq<Byte>, i: nat, raw: seq<Byte>, o: nat, key: Chars)
    requires Stands(t, raw, o) && Fine(t, i) && MembersEnd(t, i).Some?
    ensures ExtractFrom(raw, o + i, key) == ExtractFrom(t, i, key)
    ensures RawFrom(raw, o + i, key) == RawFrom(t, i, key)
    decreases |t| - i
  {
    hide Fine, StringEnd, ValueEnd, ScanString, SkipValue, Eat, Ws, TextOf, ExtractFrom, RawFrom, Stands;
    MemberThere(t, i, raw, o);
    var name := StringEnd(t, i).value;
    var colon := Eat(t, name, COLON).value;
    var value := ValueEnd(t, colon).value;
    ValueThere(t, colon, raw, o);
    OneRound(t, i, key, TextOf(t, i), name, colon, value);
    OneRound(raw, o + i, key, TextOf(t, i), o + name, o + colon, o + value);
    if Eat(t, value, CLOSE_BRACE).None? {
      FieldsThere(t, Eat(t, value, COMMA).value, raw, o, key);
    }
  }

  /** What is taken of the value, as text or as it stands. */
  lemma ValueThere(t: seq<Byte>, i: nat, raw: seq<Byte>, o: nat)
    requires Stands(t, raw, o) && Fine(t, i) && ValueEnd(t, i).Some? && ValueEnd(t, i).value < |t|
    requires SkipValue(t, i) == ValueEnd(t, i) && SkipValue(t, Ws(t, i)) == ValueEnd(t, i)
    ensures Ws(raw, o + i) == o + Ws(t, i) && Ws(t, i) < |t| && raw[o + Ws(t, i)] == t[Ws(t, i)]
    ensures t[Ws(t, i)] == QUOTE ==> ScanString(t, Ws(t, i)).Str? && ScanString(raw, o + Ws(t, i)).Str?
                                     && ScanString(raw, o + Ws(t, i)).text == ScanString(t, Ws(t, i)).text
    ensures SkipValue(raw, o + Ws(t, i)) == Some(o + ValueEnd(t, i).value)
    ensures Ws(t, i) < ValueEnd(t, i).value && raw[o + Ws(t, i)..o + ValueEnd(t, i).value] == t[Ws(t, i)..ValueEnd(t, i).value]
  {
    hide Fine, ValueEnd, ScanString, SkipValue, Ws;
    StartsBeforeEnd(t, i);
    QuotedValue(t, i);
    WsThere(t, i, raw, o);
    var j := Ws(t, i);
    assert t[j] == raw[o + j];
    CountPlain(t, i, j, Braces, 1);
    ValueAfterWs(t, i);
    SkipThere(t, j, raw, o);
    if t[j] == QUOTE {
      StringThere(t, j, raw, o);
    }
  }

  lemma PartIsEnough(t: seq<Byte>, raw: seq<Byte>, o: nat, key: Chars)
    requires Stands(t, raw, o) && IsObject(t) && Fine(t, 0) && Ws(raw, 0) == o
    ensures Extract(raw, key) == Extract(t, key) && Raw(raw, key) == Raw(t, key)
  {
    hide Fine, MembersEnd, ExtractFrom, RawFrom;
    assert t[0] == raw[o];
    CountEat(t, 0, OPEN_BRACE, Braces, 1);
    assert Ws(t, 0) == 0 && Eat(t, 0, OPEN_BRACE) == Some(1) && Eat(raw, 0, OPEN_BRACE) == Some(o + 1);
    SomethingFollows(t);
    EatThere(t, 1, raw, o, CLOSE_BRACE);
    WsThere(t, 1, raw, o);
    if Eat(t, 1, CLOSE_BRACE).None? {
      CountPlain(t, 1, Ws(t, 1), Braces, 1);
      MembersAfterWs(t, 1);
      FieldsThere(t, Ws(t, 1), raw, o, key);
    }
  }

  lemma SomethingFollows(t: seq<Byte>)
    requires Eat(t, 0, OPEN_BRACE) == Some(1) && ObjectEnd(t, 0).Some?
    ensures Ws(t, 1) < |t|
    ensures Eat(t, 1, CLOSE_BRACE).None? ==> MembersEnd(t, 1).Some?
  {
    hide StringRest, ValueEnd;
  }

  // ---- the exact condition ----

  /** Only ASCII white space stands in front of the opening brace. */
  predicate AsciiLead(raw: seq<Byte>) {
    Ws(raw, 0) < |raw| && raw[Ws(raw, 0)] == OPEN_BRACE
  }

  lemma AcceptedFacts(raw: seq<Byte>)
    requires Accepted(raw) && WellEscaped(Trim(raw), 0, true)
    ensures Stands(Trim(raw), raw, Lead(raw, 0)) && Fine(Trim(raw), 0) && IsObject(Trim(raw))
    ensures AsciiLead(raw) ==> Lead(raw, 0) == Ws(raw, 0)
  {
    hide IsObject, LookAt, WellEscaped;
    TrimIsValid(raw);
    if AsciiLead(raw) {
      SpacesAreSpaces(raw, 0);
    }
  }

  /**
   Fields of accepted arguments are found as the validator saw them, each as the first member of
   its name, exactly if no white space but the ASCII kind stands in front or there is nothing to
   be found. Otherwise every field is missing.
   */
  lemma FoundIffAsciiLead(raw: seq<Byte>)
    requires Accepted(raw) && WellEscaped(Trim(raw), 0, true)
    ensures var t := Trim(raw);
            (forall key :: Extract(raw, key) == FirstField(t, DocumentMembers(t), key))
              <==> AsciiLead(raw) || DocumentMembers(t) == []
    ensures var t := Trim(raw);
            (forall key :: Raw(raw, key) == FirstRaw(t, DocumentMembers(t), key))
              <==> AsciiLead(raw) || DocumentMembers(t) == []
    ensures !AsciiLead(raw) ==> forall key :: Extract(raw, key) == Missing && Raw(raw, key) == None
  {
    hide Trim, Lead, Ws, IsDocument, Fine, WellEscaped, DocumentMembers, Accepted, ObjectEnd;
    AcceptedFacts(raw);
    var t := Trim(raw);
    if AsciiLead(raw) {
      forall key | true
        ensures Extract(raw, key) == FirstField(t, DocumentMembers(t), key)
        ensures Raw(raw, key) == FirstRaw(t, DocumentMembers(t), key)
      {
        FoundInFront(raw, t, key);
      }
    } else {
      var ms := DocumentMembers(t);
      if ms != [] {
        assert FirstField(t, ms, ms[0].name) != Missing && FirstRaw(t, ms, ms[0].name) != None;
        assert Extract(raw, ms[0].name) == Missing && Raw(raw, ms[0].name) == None;
      }
    }
  }

  lemma FoundInFront(raw: seq<Byte>, t: seq<Byte>, key: Chars)
    requires IsObject(t) && Fine(t, 0) && Stands(t, raw, Ws(raw, 0))
    ensures Extract(raw, key) == FirstField(t, DocumentMembers(t), key)
    ensures Raw(raw, key) == FirstRaw(t, DocumentMembers(t), key)
  {
    hide Fine, DocumentMembers, Extract, Raw, Ws;
    PartIsEnough(t, raw, Ws(raw, 0), key);
    ExtractIsFirstMember(t, key);
  }

  // ---- a document that is accepted, and in which nothing is found ----

  /** `{"a":""}`, and the same behind a no-break space. */
  const PLAIN: seq<Byte> := [OPEN_BRACE, QUOTE, 0x61, QUOTE, COLON, QUOTE, QUOTE, CLOSE_BRACE]
  const BEHIND_SPACE: seq<Byte> := [0xC2, 0xA0] + PLAIN

  lemma PlainMember()
    ensures Eat(PLAIN, 0, OPEN_BRACE) == Some(1) && Eat(PLAIN, 1, CLOSE_BRACE) == None && StringEnd(PLAIN, 1) == Some(4)
    ensures Eat(PLAIN, 4, COLON) == Some(5) && ValueEnd(PLAIN, 5) == Some(7) && Eat(PLAIN, 7, CLOSE_BRACE) == Some(8)
  {
    assert StringRest(PLAIN, 2, false) == StringRest(PLAIN, 3, false) == Some(4);
    assert StringRest(PLAIN, 6, false) == Some(7);
    assert StringEnd(PLAIN, 5) == Some(7);
  }

  lemma PlainName()
    ensures TextOf(PLAIN, 1) == [0x61]
  {
    assert PLAIN[2..3] == [0x61] && LookAt([0x61]) == Complete(1) && CodePoint([0x61]) == 0x61;
    assert ScanRest(PLAIN, 2, []) == ScanRest(PLAIN, 3, [] + [0x61]) == Str([] + [0x61], 4);
    assert [] + [0x61] == [0x61];
  }

  lemma PlainDocument()
    ensures IsObject(PLAIN) && DocumentMembers(PLAIN) == [Member([0x61], 5, 7)]
  {
    hide StringEnd, ValueEnd, Eat, TextOf;
    PlainMember();
    PlainName();
    MembersStep(PLAIN, 1, 4, 5, 7);
    assert Ws(PLAIN, 5) == 5;
    assert MembersFrom(PLAIN, 1) == [Member([0x61], 5, 7)];
  }

  lemma {:induction false} AsciiIsValid(s: seq<Byte>)
    requires forall i :: 0 <= i < |s| ==> s[i] < 0x80
    ensures IsValid(s)
  {
    if s != [] {
      assert LookAt(s) == Complete(1);
      AsciiIsValid(s[1..]);
    }
  }

  lemma TrimmedToPlain()
    ensures Trim(BEHIND_SPACE) == PLAIN && IsValid(BEHIND_SPACE)
  {
    var s := BEHIND_SPACE;
    assert s[0..] == s && LookAt(s) == Complete(2) && CodePoint(s) == 0xA0;
    assert s[2..] == PLAIN && LookAt(PLAIN) == Complete(1) && CodePoint(PLAIN) == OPEN_BRACE;
    assert Lead(s, 0) == Lead(s, 2) == 2;
    assert Tail(s, 10) == 10;
    assert s[9..] == [CLOSE_BRACE];
    assert Tail(s, 9) == 10;
    TailReaches(s, 2, 9);
    AsciiIsValid(PLAIN);
    assert ValidUpTo(s) == 2 + ValidUpTo(s[2..]);
  }

  lemma {:induction false} TailReaches(s: seq<Byte>, i: nat, n: nat)
    requires i <= n < |s| && Tail(s, n) == |s| && forall k :: i <= k < n ==> s[k] < 0x80
    ensures Tail(s, i) == |s|
    decreases n - i
  {
    if i < n {
      assert LookAt(s[i..]) == Complete(1);
      TailReaches(s, i + 1, n);
    }
  }

  /** An argument the validator accepts with its member `a`, and the scanner misses it. */
  lemma AcceptedYetMissing()
    ensures Accepted(BEHIND_SPACE) && !AsciiLead(BEHIND_SPACE)
    ensures Named(DocumentMembers(Trim(BEHIND_SPACE)), [0x61]) && Extract(BEHIND_SPACE, [0x61]) == Missing
  {
    hide Trim, IsDocument, DocumentMembers, IsValid;
    TrimmedToPlain();
    PlainDocument();
    assert DocumentMembers(PLAIN)[0].name == [0x61];
    assert BEHIND_SPACE[0] == 0xC2 && Ws(BEHIND_SPACE, 0) == 0;
  }
}
