/** Identifiers as file-name components: a canonical percent-encoding of their UTF-8 bytes. */
module ComponentEncoding {
  import opened Wrappers
  import opened Utf8

  const PERCENT: Byte := 0x25

  predicate IsLiteral(b: Byte) {
    0x61 <= b <= 0x7A || 0x30 <= b <= 0x39 || b == 0x2D || b == 0x5F
  }

  function HexDigit(n: nat): Byte
    requires n < 16
  {
    if n < 10 then 0x30 + n else 0x37 + n
  }

  function HexValue(b: Byte): Option<nat> {
    var n: int := b;
    if 0x30 <= n <= 0x39 then Some(n - 0x30) else if 0x41 <= n <= 0x46 then Some(n - 0x37) else None
  }

  function EncodeByte(b: Byte): seq<Byte> {
    if IsLiteral(b) then [b] else [PERCENT, HexDigit(b / 16), HexDigit(b % 16)]
  }

  function Encode(s: seq<Byte>): seq<Byte> {
    if s == [] then [] else EncodeByte(s[0]) + Encode(s[1..])
  }

  function Prepend(front: seq<Byte>, rest: Option<seq<Byte>>): Option<seq<Byte>> {
    if rest.None? then None else Some(front + rest.value)
  }

  /** Undoes the escapes, without asking whether they were needed. */
  function Unescape(v: seq<Byte>): Option<seq<Byte>> {
    if v == [] then Some([])
    else if v[0] == PERCENT then
      if |v| < 3 || HexValue(v[1]).None? || HexValue(v[2]).None? then None
      else Prepend([HexValue(v[1]).value * 16 + HexValue(v[2]).value], Unescape(v[3..]))
    else if IsLiteral(v[0]) then Prepend([v[0]], Unescape(v[1..]))
    else None
  }

  method EncodeComponent(s: seq<Byte>) returns (encoded: seq<Byte>)
    ensures encoded == Encode(s)
  {
    hide EncodeByte;
    encoded := [];
    for i := 0 to |s|
      invariant encoded + Encode(s[i..]) == Encode(s)
    {
      assert s[i..][1..] == s[i + 1..];
      assert encoded + (EncodeByte(s[i]) + Encode(s[i + 1..])) == (encoded + EncodeByte(s[i])) + Encode(s[i + 1..]);
      encoded := encoded + EncodeByte(s[i]);
    }
  }

  /** What decoding accepts: escapes that undo to valid text of which `v` is the encoding. */
  function Decoded(v: seq<Byte>): Option<seq<Byte>> {
    var bytes := Unescape(v);
    if bytes.Some? && IsValid(bytes.value) && Encode(bytes.value) == v then bytes else None
  }

  method DecodeComponent(v: seq<Byte>) returns (decoded: Option<seq<Byte>>)
    ensures decoded == Decoded(v)
  {
    var bytes: seq<Byte> := [];
    var i := 0;
    PrependNothing(v);
    while i < |v|
      invariant i <= |v| && Prepend(bytes, Unescape(v[i..])) == Unescape(v)
      decreases |v| - i
    {
      assert v[i..][1..] == v[i + 1..];
      PrependTwice(bytes, v[i..]);
      if v[i] == PERCENT {
        if i + 2 >= |v| || HexValue(v[i + 1]).None? || HexValue(v[i + 2]).None? {
          return None;
        }
        assert v[i..][3..] == v[i + 3..];
        bytes := bytes + [HexValue(v[i + 1]).value * 16 + HexValue(v[i + 2]).value];
        i := i + 3;
      } else if IsLiteral(v[i]) {
        bytes := bytes + [v[i]];
        i := i + 1;
      } else {
        return None;
      }
    }
    assert v[i..] == [] && bytes + [] == bytes;
    if !IsValid(bytes) {
      return None;
    }
    var again := EncodeComponent(bytes);
    return if again == v then Some(bytes) else None;
  }

  lemma HexRoundTrip(b: Byte)
    ensures HexValue(HexDigit(b / 16)) == Some(b / 16) && HexValue(HexDigit(b % 16)) == Some(b % 16)
    ensures (b / 16) * 16 + b % 16 == b
  {
  }

  lemma PrependNothing(v: seq<Byte>)
    ensures v[0..] == v && Prepend([], Unescape(v)) == Unescape(v)
  {
    if Unescape(v).Some? {
      assert [] + Unescape(v).value == Unescape(v).value;
    }
  }

  lemma PrependPrepend(a: seq<Byte>, b: seq<Byte>, rest: Option<seq<Byte>>)
    ensures Prepend(a, Prepend(b, rest)) == Prepend(a + b, rest)
  {
    if rest.Some? {
      assert a + (b + rest.value) == (a + b) + rest.value;
    }
  }

  lemma PrependTwice(front: seq<Byte>, v: seq<Byte>)
    ensures v != [] && IsLiteral(v[0]) ==>
              Prepend(front, Unescape(v)) == Prepend(front + [v[0]], Unescape(v[1..]))
    ensures |v| >= 3 && v[0] == PERCENT && HexValue(v[1]).Some? && HexValue(v[2]).Some? ==>
              Prepend(front, Unescape(v)) == Prepend(front + [HexValue(v[1]).value * 16 + HexValue(v[2]).value], Unescape(v[3..]))
  {
    hide Prepend;
    if v != [] && IsLiteral(v[0]) {
      PrependPrepend(front, [v[0]], Unescape(v[1..]));
    }
    if |v| >= 3 && v[0] == PERCENT && HexValue(v[1]).Some? && HexValue(v[2]).Some? {
      PrependPrepend(front, [HexValue(v[1]).value * 16 + HexValue(v[2]).value], Unescape(v[3..]));
    }
  }

  lemma {:induction false} UnescapeEncoded(s: seq<Byte>)
    ensures Unescape(Encode(s)) == Some(s)
  {
    if s != [] {
      UnescapeEncoded(s[1..]);
      HexRoundTrip(s[0]);
      var a, rest := EncodeByte(s[0]), Encode(s[1..]);
      assert (a + rest)[|a|..] == rest;
      assert [s[0]] + s[1..] == s;
    }
  }

  /** Decoding undoes encoding, for every string. */
  lemma DecodeEncode(s: seq<Byte>)
    requires IsValid(s)
    ensures Decoded(Encode(s)) == Some(s)
  {
    UnescapeEncoded(s);
  }

  /** Exactly the encodings of strings are accepted: no other name stands for the same string. */
  lemma AcceptedIffEncoding(v: seq<Byte>)
    ensures Decoded(v).Some? <==> exists s :: IsValid(s) && Encode(s) == v
    ensures Decoded(v).Some? ==> Encode(Decoded(v).value) == v
  {
    forall s | IsValid(s) && Encode(s) == v ensures Decoded(v).Some? {
      DecodeEncode(s);
    }
  }

  /** Lower-casing, as a file system that ignores case compares names. */
  function Lower(v: seq<Byte>): (l: seq<Byte>)
    ensures |l| == |v|
    ensures forall i :: 0 <= i < |v| ==> l[i] == if 0x41 <= v[i] <= 0x5A then v[i] + 0x20 else v[i]
  {
    seq(|v|, i requires 0 <= i < |v| => LowerByte(v[i]))
  }

  function LowerByte(b: Byte): Byte {
    if 0x41 <= b <= 0x5A then b + 0x20 else b
  }

  lemma EncodeByteLower(a: Byte, b: Byte)
    requires Lower(EncodeByte(a)) == Lower(EncodeByte(b))
    ensures a == b
  {
    HexRoundTrip(a);
    HexRoundTrip(b);
    var x, y := EncodeByte(a), EncodeByte(b);
    assert |Lower(x)| == |Lower(y)| && Lower(x)[0] == Lower(y)[0];
    if !IsLiteral(a) {
      assert Lower(x)[1] == Lower(y)[1] && Lower(x)[2] == Lower(y)[2];
    }
  }

  /** Distinct strings never share a file name, not even where case is ignored. */
  lemma {:induction false} NamesNeverCollide(s: seq<Byte>, t: seq<Byte>)
    requires Lower(Encode(s)) == Lower(Encode(t))
    ensures s == t
    decreases |s|
  {
    if s != [] && t != [] {
      var a, b, v, w := EncodeByte(s[0]), EncodeByte(t[0]), Encode(s), Encode(t);
      assert Lower(v)[0] == Lower(w)[0];
      assert v[0] == a[0] && w[0] == b[0];
      assert |a| == |b|;
      forall i | 0 <= i < |a| ensures Lower(a)[i] == Lower(b)[i] {
        assert Lower(v)[i] == Lower(w)[i] && v[i] == a[i] && w[i] == b[i];
      }
      assert Lower(a) == Lower(b);
      EncodeByteLower(s[0], t[0]);
      forall i | 0 <= i < |Encode(s[1..])| ensures Lower(Encode(s[1..]))[i] == Lower(Encode(t[1..]))[i] {
        assert Lower(v)[i + |a|] == Lower(w)[i + |a|];
        assert v[i + |a|] == Encode(s[1..])[i] && w[i + |a|] == Encode(t[1..])[i];
      }
      assert Lower(Encode(s[1..])) == Lower(Encode(t[1..]));
      NamesNeverCollide(s[1..], t[1..]);
      assert s == [s[0]] + s[1..] && t == [t[0]] + t[1..];
    }
  }

  /** A name holds no path separator and no dot. */
  lemma {:induction false} NamesAreSafe(s: seq<Byte>)
    ensures forall i :: 0 <= i < |Encode(s)| ==> IsLiteral(Encode(s)[i]) || Encode(s)[i] == PERCENT || 0x41 <= Encode(s)[i] <= 0x46
  {
    if s != [] {
      NamesAreSafe(s[1..]);
    }
  }
}
