/** UTF-8 as in section 4 of RFC 3629, and decoding a byte stream that arrives in chunks. */
module Utf8 {
  type Byte = b: nat | b < 256

  /** What the bytes at hand begin with: a whole character, the beginning of one, or an
      ill-formed sequence of the given length. */
  datatype Look = Complete(len: nat) | Truncated | Invalid(len: nat)

  predicate IsTail(b: Byte) { 0x80 <= b <= 0xBF }

  /** The second byte a leading byte of three or four allows. */
  predicate SecondOk(first: Byte, second: Byte) {
    match first
    case 0xE0 => 0xA0 <= second <= 0xBF
    case 0xED => 0x80 <= second <= 0x9F
    case 0xF0 => 0x90 <= second <= 0xBF
    case 0xF4 => 0x80 <= second <= 0x8F
    case _ => IsTail(second)
  }

  function LookAt(s: seq<Byte>): (look: Look)
    requires s != []
    ensures look.Complete? ==> 1 <= look.len <= 4 && look.len <= |s|
    ensures look.Truncated? ==> |s| <= 3
    ensures look.Invalid? ==> 1 <= look.len <= 3 && look.len <= |s|
    ensures s[0] < 0x80 <==> look == Complete(1)
  {
    var b := s[0];
    if b < 0x80 then Complete(1)
    else if 0xC2 <= b <= 0xDF then
      if |s| == 1 then Truncated else if IsTail(s[1]) then Complete(2) else Invalid(1)
    else if 0xE0 <= b <= 0xEF then
      if |s| == 1 then Truncated else if !SecondOk(b, s[1]) then Invalid(1)
      else if |s| == 2 then Truncated else if IsTail(s[2]) then Complete(3) else Invalid(2)
    else if 0xF0 <= b <= 0xF4 then
      if |s| == 1 then Truncated else if !SecondOk(b, s[1]) then Invalid(1)
      else if |s| == 2 then Truncated else if !IsTail(s[2]) then Invalid(2)
      else if |s| == 3 then Truncated else if IsTail(s[3]) then Complete(4) else Invalid(3)
    else Invalid(1)
  }

  /** The code point of the character `s` begins with. */
  function CodePoint(s: seq<Byte>): nat
    requires s != [] && LookAt(s).Complete?
  {
    var n := LookAt(s).len;
    var a: int := s[0];
    var b: int := if n >= 2 then s[1] else 0;
    var c: int := if n >= 3 then s[2] else 0;
    var d: int := if n >= 4 then s[3] else 0;
    match n
    case 1 => a
    case 2 => (a - 0xC0) * 0x40 + (b - 0x80)
    case 3 => (a - 0xE0) * 0x1000 + (b - 0x80) * 0x40 + (c - 0x80)
    case 4 => (a - 0xF0) * 0x40000 + (b - 0x80) * 0x1000 + (c - 0x80) * 0x40 + (d - 0x80)
  }

  predicate IsScalar(c: nat) {
    c <= 0x10FFFF && !(0xD800 <= c <= 0xDFFF)
  }

  /** A well-formed character is a Unicode scalar value, never a surrogate, never too long. */
  lemma DecodesToScalar(s: seq<Byte>)
    requires s != [] && LookAt(s).Complete?
    ensures IsScalar(CodePoint(s))
    ensures LookAt(s).len == 2 ==> CodePoint(s) >= 0x80
    ensures LookAt(s).len == 3 ==> CodePoint(s) >= 0x800
    ensures LookAt(s).len == 4 ==> CodePoint(s) >= 0x10000
  {
  }

  /** How many bytes of `s` make whole characters, from the start. */
  function ValidUpTo(s: seq<Byte>): (n: nat)
    ensures n <= |s|
  {
    if s == [] then 0
    else match LookAt(s)
      case Complete(k) => k + ValidUpTo(s[k..])
      case _ => 0
  }

  predicate IsValid(s: seq<Byte>) {
    ValidUpTo(s) == |s|
  }

  /** No ill-formed sequence: whole characters, then at most the beginning of one. */
  predicate IsPrefixOfValid(s: seq<Byte>) {
    var rest := s[ValidUpTo(s)..];
    rest == [] || LookAt(rest).Truncated?
  }

  /** More bytes never change a character that is already whole, or an ill-formed sequence. */
  lemma LookGrows(s: seq<Byte>, more: seq<Byte>)
    requires s != []
    ensures !LookAt(s).Truncated? ==> LookAt(s + more) == LookAt(s)
  {
  }

  /** Decoding can stop after any number of whole characters and go on from there. */
  lemma {:induction false} ValidUpToResumes(s: seq<Byte>, more: seq<Byte>)
    ensures ValidUpTo(s + more) == ValidUpTo(s) + ValidUpTo(s[ValidUpTo(s)..] + more)
    decreases |s|
  {
    if s == [] {
      assert s[ValidUpTo(s)..] + more == more == s + more;
    } else {
      LookGrows(s, more);
      match LookAt(s)
      case Complete(k) =>
        assert (s + more)[k..] == s[k..] + more;
        ValidUpToResumes(s[k..], more);
        assert s[k..][ValidUpTo(s[k..])..] == s[ValidUpTo(s)..];
      case _ =>
        assert s[0..] + more == s + more;
    }
  }

  lemma {:induction false} ValidPrefix(s: seq<Byte>)
    ensures IsValid(s[..ValidUpTo(s)])
  {
    if s != [] && LookAt(s).Complete? {
      var k, n := LookAt(s).len, ValidUpTo(s);
      ValidPrefix(s[k..]);
      assert s[..n][k..] == s[k..][..n - k];
      assert LookAt(s[..n]) == Complete(k);
    }
  }

  /** No longer prefix consists of whole characters. */
  lemma {:induction false} ValidPrefixIsLongest(s: seq<Byte>, n: nat)
    requires n <= |s| && IsValid(s[..n])
    ensures n <= ValidUpTo(s)
  {
    ValidUpToResumes(s[..n], s[n..]);
    assert s == s[..n] + s[n..];
  }

  lemma {:induction false} PrefixesStayPrefixes(s: seq<Byte>, more: seq<Byte>)
    requires IsPrefixOfValid(s + more)
    ensures IsPrefixOfValid(s)
  {
    var rest := s[ValidUpTo(s)..];
    ValidUpToResumes(s, more);
    RestNotComplete(s);
    assert (s + more)[ValidUpTo(s)..] == rest + more;
    if rest != [] {
      LookGrows(rest, more);
    }
  }

  lemma {:induction false} RestNotComplete(s: seq<Byte>)
    ensures s[ValidUpTo(s)..] != [] ==> !LookAt(s[ValidUpTo(s)..]).Complete?
  {
    if s != [] && LookAt(s).Complete? {
      RestNotComplete(s[LookAt(s).len..]);
      assert s[LookAt(s).len..][ValidUpTo(s[LookAt(s).len..])..] == s[ValidUpTo(s)..];
    }
  }

  /** Collects the output of one pipe; `pending` is what could not be decoded yet. */
  class Decoder {
    var pending: seq<Byte>

    constructor ()
      ensures pending == []
    {
      pending := [];
    }

    /** Gives out the whole characters at hand. An ill-formed sequence behind them is dropped. */
    method Take(incoming: seq<Byte>) returns (text: seq<Byte>)
      modifies this
      ensures text == (old(pending) + incoming)[..ValidUpTo(old(pending) + incoming)]
      ensures pending == Remaining(old(pending) + incoming)
    {
      pending := pending + incoming;
      var valid := ValidUpTo(pending);
      text := pending[..valid];
      pending := pending[valid..];
      if pending != [] && LookAt(pending).Invalid? {
        pending := pending[LookAt(pending).len..];
      }
    }

    /** Feeds the chunks of a stream one after the other. */
    method TakeAll(chunks: seq<seq<Byte>>) returns (text: seq<Byte>)
      requires pending == []
      modifies this
      ensures IsPrefixOfValid(Joined(chunks)) ==>
                text == Joined(chunks)[..ValidUpTo(Joined(chunks))] && pending == Joined(chunks)[ValidUpTo(Joined(chunks))..]
      ensures text + Lossy(pending) == Shown([], chunks)
    {
      hide ValidUpTo, LookAt, Lossy, Remaining, IsPrefixOfValid;
      text := [];
      assert Joined(chunks[..0]) == [];
      for i := 0 to |chunks|
        invariant IsPrefixOfValid(Joined(chunks)) ==> Decoded(Joined(chunks[..i]), text, pending)
        invariant text + Shown(pending, chunks[i..]) == Shown([], chunks)
      {
        ghost var before, was, out := Joined(chunks[..i]), pending, text;
        assert chunks[..i + 1][..i] == chunks[..i];
        var more := Take(chunks[i]);
        assert text + Shown(was, chunks[i..]) == (text + more) + Shown(pending, chunks[i..][1..]);
        assert chunks[i..][1..] == chunks[i + 1..];
        text := text + more;
        if IsPrefixOfValid(Joined(chunks)) {
          JoinedPrefix(chunks, i + 1);
          OneMoreChunk(before, chunks[i], out, was);
        }
      }
      assert chunks[..|chunks|] == chunks;
    }

    /** At the end of the stream what is pending is given out with replacements. */
    method Flush() returns (text: seq<Byte>)
      modifies this
      ensures text == Lossy(old(pending)) && pending == []
    {
      text := Lossy(pending);
      pending := [];
    }

    /** A whole stream, read to its end. */
    method Collect(chunks: seq<seq<Byte>>) returns (text: seq<Byte>)
      requires pending == []
      modifies this
      ensures text == Shown([], chunks) && pending == []
    {
      text := TakeAll(chunks);
      var tail := Flush();
      text := text + tail;
    }
  }

  function Remaining(s: seq<Byte>): seq<Byte> {
    Behind(s[ValidUpTo(s)..])
  }

  /** What is behind the ill-formed sequence `rest` begins with, if it does. */
  function Behind(rest: seq<Byte>): seq<Byte> {
    if rest != [] && LookAt(rest).Invalid? then rest[LookAt(rest).len..] else rest
  }

  ghost predicate Decoded(stream: seq<Byte>, text: seq<Byte>, pending: seq<Byte>) {
    text == stream[..ValidUpTo(stream)] && pending == stream[ValidUpTo(stream)..]
  }

  function Joined(chunks: seq<seq<Byte>>): seq<Byte> {
    if chunks == [] then [] else Joined(chunks[..|chunks| - 1]) + chunks[|chunks| - 1]
  }

  lemma {:induction false} JoinedPrefix(chunks: seq<seq<Byte>>, n: nat)
    requires IsPrefixOfValid(Joined(chunks)) && n <= |chunks|
    ensures IsPrefixOfValid(Joined(chunks[..n]))
    decreases |chunks|
  {
    if n < |chunks| {
      PrefixesStayPrefixes(Joined(chunks[..|chunks| - 1]), chunks[|chunks| - 1]);
      JoinedPrefix(chunks[..|chunks| - 1], n);
      assert chunks[..|chunks| - 1][..n] == chunks[..n];
    } else {
      assert chunks[..n] == chunks;
    }
  }

  /** One chunk: what is given out and what stays pending depend on the stream alone, not on where
      it was cut. */
  lemma OneMoreChunk(stream: seq<Byte>, chunk: seq<Byte>, text: seq<Byte>, pending: seq<Byte>)
    requires Decoded(stream, text, pending) && IsPrefixOfValid(stream + chunk)
    ensures Decoded(stream + chunk, text + (pending + chunk)[..ValidUpTo(pending + chunk)], Remaining(pending + chunk))
  {
    hide ValidUpTo, LookAt;
    ValidUpToResumes(stream, chunk);
    var n, m := ValidUpTo(stream), ValidUpTo(pending + chunk);
    assert stream + chunk == text + (pending + chunk);
    assert (stream + chunk)[n + m..] == (pending + chunk)[m..];
    assert (stream + chunk)[..n + m] == text + (pending + chunk)[..m];
  }

  /** Every way of cutting a valid stream into chunks gives the same text, the longest prefix of
      whole characters, and leaves at most three bytes over. */
  lemma ChunkInvariant(stream: seq<Byte>)
    requires IsPrefixOfValid(stream)
    ensures IsValid(stream[..ValidUpTo(stream)]) && |stream[ValidUpTo(stream)..]| <= 3
    ensures forall n :: 0 <= n <= |stream| && IsValid(stream[..n]) ==> n <= ValidUpTo(stream)
  {
    ValidPrefix(stream);
    forall n | 0 <= n <= |stream| && IsValid(stream[..n]) ensures n <= ValidUpTo(stream) {
      ValidPrefixIsLongest(stream, n);
    }
  }

  // ---- ill-formed streams ----

  /** U+FFFD, which stands for whatever cannot be decoded. */
  const REPLACEMENT: seq<Byte> := [0xEF, 0xBF, 0xBD]

  /** Every ill-formed sequence replaced, and an unfinished character at the end too. */
  function Lossy(s: seq<Byte>): seq<Byte> {
    if s == [] then []
    else match LookAt(s)
      case Complete(k) => s[..k] + Lossy(s[k..])
      case Truncated => REPLACEMENT
      case Invalid(k) => REPLACEMENT + Lossy(s[k..])
  }

  /** What is shown of the chunks to come, the flush at the end of the stream included. */
  function Shown(pending: seq<Byte>, chunks: seq<seq<Byte>>): seq<Byte>
    decreases |chunks|
  {
    if chunks == [] then Lossy(pending)
    else
      var window := pending + chunks[0];
      window[..ValidUpTo(window)] + Shown(Remaining(window), chunks[1..])
  }

  /** What is shown of a stream that arrives in one chunk. */
  function Whole(stream: seq<Byte>): seq<Byte> {
    stream[..ValidUpTo(stream)] + Lossy(Remaining(stream))
  }

  /** The size of the buffer that is read into. */
  const READ_MAX: nat := 8192

  /** A way of reading the stream as the shell does, a buffer at most at a time. */
  predicate ReadAs(chunks: seq<seq<Byte>>, stream: seq<Byte>) {
    Cuts(chunks, stream) && forall i :: 0 <= i < |chunks| ==> |chunks[i]| <= READ_MAX
  }

  /** A way of cutting the stream into pieces: a piece of no bytes would have ended it. */
  predicate Cuts(chunks: seq<seq<Byte>>, stream: seq<Byte>) {
    Flat(chunks) == stream && NoneEmpty(chunks)
  }

  predicate NoneEmpty(chunks: seq<seq<Byte>>) { forall i :: 0 <= i < |chunks| ==> chunks[i] != [] }

  function Flat(chunks: seq<seq<Byte>>): seq<Byte> {
    if chunks == [] then [] else chunks[0] + Flat(chunks[1..])
  }

  /** A second ill-formed sequence follows the first, and can still be unread when the first one is
      recognised: that may take one byte more than the sequence itself. */
  predicate DependsOnCuts(stream: seq<Byte>) {
    var rest := stream[ValidUpTo(stream)..];
    && rest != [] && LookAt(rest).Invalid?
    && var k := LookAt(rest).len;
       !IsPrefixOfValid(rest[k..]) && (|rest| > k + 1 || LookAt(rest[..k]).Invalid?)
  }

  lemma {:induction false} LossyResumes(s: seq<Byte>, more: seq<Byte>)
    ensures Lossy(s + more) == s[..ValidUpTo(s)] + Lossy(s[ValidUpTo(s)..] + more)
    decreases |s|
  {
    hide LookAt;
    if s == [] || !LookAt(s).Complete? {
      assert s[ValidUpTo(s)..] + more == s + more;
    } else {
      var k := LookAt(s).len;
      LookGrows(s, more);
      assert (s + more)[k..] == s[k..] + more && (s + more)[..k] == s[..k];
      LossyResumes(s[k..], more);
      assert s[k..][ValidUpTo(s[k..])..] == s[ValidUpTo(s)..];
      assert s[..k] + s[k..][..ValidUpTo(s[k..])] == s[..ValidUpTo(s)];
    }
  }

  lemma SameRest(s: seq<Byte>, more: seq<Byte>)
    ensures var n := ValidUpTo(s);
            && ValidUpTo(s + more) == n + ValidUpTo(s[n..] + more)
            && (s + more)[ValidUpTo(s + more)..] == (s[n..] + more)[ValidUpTo(s[n..] + more)..]
  {
    hide LookAt, ValidUpTo;
    ValidUpToResumes(s, more);
    assert s + more == s[..ValidUpTo(s)] + (s[ValidUpTo(s)..] + more);
  }

  lemma SameWhole(s: seq<Byte>, more: seq<Byte>)
    ensures Whole(s + more) == s[..ValidUpTo(s)] + Whole(s[ValidUpTo(s)..] + more)
  {
    hide LookAt, ValidUpTo, Lossy, Behind, Remaining;
    SameRest(s, more);
    SameRemaining(s, more);
    PrefixOfParts(s, more, ValidUpTo(s), ValidUpTo(s[ValidUpTo(s)..] + more));
  }

  lemma PrefixOfParts(s: seq<Byte>, more: seq<Byte>, n: nat, m: nat)
    requires n <= |s| && m <= |s[n..] + more|
    ensures (s + more)[..n + m] == s[..n] + (s[n..] + more)[..m]
  {
    assert s + more == s[..n] + (s[n..] + more);
  }

  lemma SameRemaining(s: seq<Byte>, more: seq<Byte>)
    ensures Remaining(s + more) == Remaining(s[ValidUpTo(s)..] + more)
  {
    hide ValidUpTo, Behind;
    SameRest(s, more);
  }

  /** The stream from the first byte on that is not whole: the same question again. */
  lemma RestartsAt(s: seq<Byte>, more: seq<Byte>)
    ensures var n := ValidUpTo(s);
            && Whole(s + more) == s[..n] + Whole(s[n..] + more)
            && (IsPrefixOfValid(s + more) <==> IsPrefixOfValid(s[n..] + more))
            && (DependsOnCuts(s + more) <==> DependsOnCuts(s[n..] + more))
  {
    hide LookAt, ValidUpTo, Whole;
    SameRest(s, more);
    SameWhole(s, more);
  }

  /** Without an ill-formed sequence to come, every way of cutting shows the same. */
  lemma {:induction false} CleanShown(pending: seq<Byte>, chunks: seq<seq<Byte>>)
    requires IsPrefixOfValid(pending + Flat(chunks))
    ensures Shown(pending, chunks) == Lossy(pending + Flat(chunks))
    decreases |chunks|
  {
    hide LookAt, ValidUpTo, Lossy;
    if chunks == [] {
      assert pending + [] == pending;
    } else {
      var window, more := pending + chunks[0], Flat(chunks[1..]);
      assert pending + Flat(chunks) == window + more;
      PrefixesStayPrefixes(window, more);
      RestartsAt(window, more);
      LossyResumes(window, more);
      CleanShown(Remaining(window), chunks[1..]);
    }
  }

  lemma InvalidGrows(s: seq<Byte>, k: nat)
    requires s != [] && LookAt(s) == Invalid(k)
    ensures LookAt(s[..k]).Invalid? || (LookAt(s[..k]).Truncated? && |s| > k)
    ensures LookAt(s[..k]).Invalid? ==> LookAt(s[..k]) == Invalid(k)
    ensures |s| > k ==> LookAt(s[..k + 1]) == Invalid(k)
  {
    assert s[..k] == s || |s| > k;
  }

  lemma {:induction false} OneWayShown(pending: seq<Byte>, chunks: seq<seq<Byte>>)
    requires pending == [] || LookAt(pending).Truncated?
    requires NoneEmpty(chunks)
    requires !DependsOnCuts(pending + Flat(chunks))
    ensures Shown(pending, chunks) == Whole(pending + Flat(chunks))
    decreases |chunks|
  {
    hide LookAt, ValidUpTo, Lossy;
    if chunks == [] {
      assert pending + [] == pending;
      AtRest(pending);
    } else {
      var window, more := pending + chunks[0], Flat(chunks[1..]);
      var rest := window[ValidUpTo(window)..];
      assert pending + Flat(chunks) == window + more;
      RestartsAt(window, more);
      RestNotComplete(window);
      if rest == [] || LookAt(rest).Truncated? {
        OneWayShown(rest, chunks[1..]);
      } else {
        OneWayBehind(rest, chunks[1..]);
      }
    }
  }

  lemma AtRest(s: seq<Byte>)
    requires s == [] || LookAt(s).Truncated?
    ensures Whole(s) == Lossy(s) && ValidUpTo(s) == 0
  {
    assert s[..0] == [] && s[0..] == s;
  }

  lemma StartsIllFormed(s: seq<Byte>)
    requires s != [] && LookAt(s).Invalid?
    ensures var k := LookAt(s).len;
            && ValidUpTo(s) == 0 && Remaining(s) == s[k..] && Whole(s) == Lossy(s[k..])
            && (DependsOnCuts(s) <==> !IsPrefixOfValid(s[k..]) && (|s| > k + 1 || LookAt(s[..k]).Invalid?))
  {
    assert s[0..] == s && s[..0] == [];
  }

  lemma FlatEmpty(chunks: seq<seq<Byte>>)
    requires NoneEmpty(chunks)
    ensures Flat(chunks) == [] <==> chunks == []
  {
  }

  lemma OneWayBehind(rest: seq<Byte>, chunks: seq<seq<Byte>>)
    requires rest != [] && LookAt(rest).Invalid? && NoneEmpty(chunks)
    requires !DependsOnCuts(rest + Flat(chunks))
    ensures Shown(rest[LookAt(rest).len..], chunks) == Whole(rest + Flat(chunks))
  {
    hide Lossy, LookAt, ValidUpTo, DependsOnCuts, Whole, IsPrefixOfValid;
    var k, more := LookAt(rest).len, Flat(chunks);
    LookGrows(rest, more);
    StartsIllFormed(rest + more);
    assert (rest + more)[k..] == rest[k..] + more;
    if IsPrefixOfValid(rest[k..] + more) {
      CleanShown(rest[k..], chunks);
    } else {
      InvalidGrows(rest, k);
      assert (rest + more)[..k] == rest[..k];
      assert more == [];
      FlatEmpty(chunks);
      assert rest[k..] + more == rest[k..];
    }
  }

  /** The first read ends right behind the place where its ill-formed sequence is recognised. */
  lemma FirstRead(stream: seq<Byte>, rest: seq<Byte>, k: nat, d: nat)
    requires rest == stream[ValidUpTo(stream)..] && rest != [] && LookAt(rest) == Invalid(k)
    requires k <= d <= |rest| && LookAt(rest[..d]) == Invalid(k)
    ensures var read := stream[..ValidUpTo(stream) + d];
            read[..ValidUpTo(read)] == stream[..ValidUpTo(stream)] && Remaining(read) == rest[k..d]
  {
    hide LookAt, ValidUpTo, Whole, DependsOnCuts, IsPrefixOfValid, Lossy;
    var n := ValidUpTo(stream);
    var read := stream[..n + d];
    assert read == stream[..n] + rest[..d];
    ValidPrefix(stream);
    ValidUpToResumes(stream[..n], rest[..d]);
    assert stream[..n][n..] + rest[..d] == rest[..d] == read[n..];
    StartsIllFormed(rest[..d]);
    assert rest[..d][k..] == rest[k..d];
  }

  lemma TwoReads(first: seq<Byte>, second: seq<Byte>)
    requires first != [] && second != []
    ensures Cuts([first, second], first + second)
    ensures Shown([], [first, second]) == first[..ValidUpTo(first)] + Whole(Remaining(first) + second)
  {
    hide ValidUpTo, Remaining, Lossy;
    var chunks := [first, second];
    assert chunks[1..] == [second] && [second][1..] == [] && [] + first == first && second + [] == second;
    assert Flat([second]) == second;
    var window := Remaining(first) + second;
    assert Shown(Remaining(first), [second]) == window[..ValidUpTo(window)] + Shown(Remaining(window), [second][1..]);
  }

  /** A cut right behind the place where the first ill-formed sequence is recognised. */
  lemma TwoWaysShown(stream: seq<Byte>) returns (chunks: seq<seq<Byte>>)
    requires DependsOnCuts(stream)
    ensures Cuts(chunks, stream) && Shown([], chunks) != Whole(stream)
  {
    hide LookAt, ValidUpTo, Lossy, Shown, Cuts, Remaining, Whole, IsPrefixOfValid, DependsOnCuts;
    var n := ValidUpTo(stream);
    var rest, k, d := WhereToCut(stream);
    FirstRead(stream, rest, k, d);
    SecondIsReplaced(rest[k..]);
    chunks := [stream[..n + d], stream[n + d..]];
    assert stream[..n + d] + stream[n + d..] == stream && rest[k..d] + stream[n + d..] == rest[k..];
    TwoReads(stream[..n + d], stream[n + d..]);
  }

  lemma WhereToCut(stream: seq<Byte>) returns (rest: seq<Byte>, k: nat, d: nat)
    requires DependsOnCuts(stream)
    ensures rest == stream[ValidUpTo(stream)..] && rest != [] && LookAt(rest) == Invalid(k)
    ensures 0 < k <= d < |rest| && LookAt(rest[..d]) == Invalid(k) && !IsPrefixOfValid(rest[k..])
    ensures Whole(stream) == stream[..ValidUpTo(stream)] + Lossy(rest[k..])
  {
    hide LookAt, Lossy;
    rest := stream[ValidUpTo(stream)..];
    k := LookAt(rest).len;
    d := if LookAt(rest[..k]).Invalid? then k else k + 1;
    InvalidGrows(rest, k);
    assert rest[k..] != [];
  }

  lemma SecondIsReplaced(s: seq<Byte>)
    requires !IsPrefixOfValid(s)
    ensures |Lossy(s)| == |Whole(s)| + 3
  {
    var rest := s[ValidUpTo(s)..];
    RestNotComplete(s);
    LossyResumes(s, []);
    assert s + [] == s && rest + [] == rest;
  }

  /** What is shown of a stream is independent of how it is cut into pieces exactly if no second
      ill-formed sequence can be recognised in a later piece than the first. */
  lemma CutsMatterIff(stream: seq<Byte>)
    ensures (forall chunks :: Cuts(chunks, stream) ==> Shown([], chunks) == Whole(stream)) <==> !DependsOnCuts(stream)
  {
    if DependsOnCuts(stream) {
      var chunks := TwoWaysShown(stream);
    } else {
      forall chunks | Cuts(chunks, stream) ensures Shown([], chunks) == Whole(stream) {
        assert [] + stream == stream;
        OneWayShown([], chunks);
      }
    }
  }

  lemma {:induction false} PiecesFit(chunks: seq<seq<Byte>>, i: nat)
    requires i < |chunks|
    ensures |chunks[i]| <= |Flat(chunks)|
  {
    if i > 0 {
      PiecesFit(chunks[1..], i - 1);
    }
  }

  /** For what one buffer can hold the condition is exact of the reads themselves; for longer
      streams it is sufficient. */
  lemma ReadsMatterIff(stream: seq<Byte>)
    ensures !DependsOnCuts(stream) ==> forall chunks :: ReadAs(chunks, stream) ==> Shown([], chunks) == Whole(stream)
    ensures |stream| <= READ_MAX ==>
              ((forall chunks :: ReadAs(chunks, stream) ==> Shown([], chunks) == Whole(stream)) <==> !DependsOnCuts(stream))
  {
    CutsMatterIff(stream);
    hide Shown, Whole, DependsOnCuts;
    if |stream| <= READ_MAX {
      forall chunks | Cuts(chunks, stream) ensures ReadAs(chunks, stream) {
        forall i | 0 <= i < |chunks| ensures |chunks[i]| <= READ_MAX {
          PiecesFit(chunks, i);
        }
      }
    }
  }

  /** Two bytes that begin no character: in one read the second is replaced, in two it vanishes. */
  method CutsMatter() returns (together: seq<Byte>, apart: seq<Byte>)
    ensures together == REPLACEMENT && apart == []
  {
    assert LookAt([0xFF]) == Invalid(1) && LookAt([0xFF, 0xFF]) == Invalid(1);
    var bad: seq<Byte> := [0xFF];
    var both: seq<Byte> := [0xFF, 0xFF];
    assert both[0..] == both && both[1..] == bad && bad[0..] == bad && bad[1..] == [];
    assert [] + bad == bad && [] + both == both;
    assert Remaining(both) == bad && Remaining(bad) == [];
    var first := new Decoder();
    together := first.Collect([both]);
    assert [both][1..] == [] && Lossy(bad) == REPLACEMENT + Lossy(bad[1..]);
    assert Shown([], [both]) == [] + Shown(bad, [both][1..]);
    var second := new Decoder();
    apart := second.Collect([bad, bad]);
    assert [bad, bad][1..] == [bad] && [bad][1..] == [];
    assert Shown([], [bad]) == [] + Shown([], [bad][1..]);
    assert Shown([], [bad, bad]) == [] + Shown([], [bad, bad][1..]);
  }
}
