/**
 Which streams depend on how they are read, when one read brings a bounded number of bytes. Each
 read drops one ill-formed sequence if it has recognised any that is not dropped yet; what is left
 over at the end is replaced. So the text depends on the reads exactly through the number left over.
 */
module Utf8Reads {
  import opened Utf8

  /** How many ill-formed sequences can be recognised in `s`. */
  function Ills(s: seq<Byte>): nat
    decreases |s|
  {
    if s == [] then 0
    else match LookAt(s)
      case Complete(k) => Ills(s[k..])
      case Truncated => 0
      case Invalid(k) => 1 + Ills(s[k..])
  }

  /** How many are left over when the stream has ended. */
  function LeftOver(pending: seq<Byte>, chunks: seq<seq<Byte>>): nat
    decreases |chunks|
  {
    if chunks == [] then Ills(pending) else LeftOver(Remaining(pending + chunks[0]), chunks[1..])
  }

  /** The text of `s` with the first `dropped` ill-formed sequences gone and the others replaced. */
  function Marked(s: seq<Byte>, dropped: nat): seq<Byte>
    decreases |s|
  {
    if s == [] then []
    else match LookAt(s)
      case Complete(k) => s[..k] + Marked(s[k..], dropped)
      case Truncated => REPLACEMENT
      case Invalid(k) => if dropped > 0 then Marked(s[k..], dropped - 1) else REPLACEMENT + Marked(s[k..], 0)
  }

  predicate Drops(window: seq<Byte>) {
    var rest := window[ValidUpTo(window)..];
    rest != [] && LookAt(rest).Invalid?
  }

  // ---- one read ----

  lemma {:induction false} MarkedResumes(s: seq<Byte>, more: seq<Byte>, dropped: nat)
    ensures Marked(s + more, dropped) == s[..ValidUpTo(s)] + Marked(s[ValidUpTo(s)..] + more, dropped)
    ensures Ills(s + more) == Ills(s[ValidUpTo(s)..] + more)
    decreases |s|
  {
    hide LookAt;
    if s == [] || !LookAt(s).Complete? {
      assert s[ValidUpTo(s)..] + more == s + more;
    } else {
      var k := LookAt(s).len;
      LookGrows(s, more);
      assert (s + more)[k..] == s[k..] + more && (s + more)[..k] == s[..k];
      MarkedResumes(s[k..], more, dropped);
      assert s[k..][ValidUpTo(s[k..])..] == s[ValidUpTo(s)..];
      assert s[..k] + s[k..][..ValidUpTo(s[k..])] == s[..ValidUpTo(s)];
    }
  }

  /** What one read leaves to the later ones. */
  lemma OneRead(window: seq<Byte>, more: seq<Byte>, dropped: nat)
    ensures Ills(window + more) == Ills(Remaining(window) + more) + if Drops(window) then 1 else 0
    ensures Marked(window + more, dropped + if Drops(window) then 1 else 0)
         == window[..ValidUpTo(window)] + Marked(Remaining(window) + more, dropped)
  {
    hide LookAt, ValidUpTo;
    var rest := window[ValidUpTo(window)..];
    MarkedResumes(window, more, dropped + if Drops(window) then 1 else 0);
    if Drops(window) {
      LookGrows(rest, more);
      var k := LookAt(rest).len;
      assert (rest + more)[k..] == rest[k..] + more;
    }
  }

  /** A read drops something exactly if there is something to drop. */
  lemma DropsIff(window: seq<Byte>)
    ensures Drops(window) <==> Ills(window) > 0
    ensures !Drops(window) ==> Ills(Remaining(window)) == 0
  {
    hide LookAt, ValidUpTo;
    OneRead(window, [], 0);
    assert window + [] == window && Remaining(window) + [] == Remaining(window);
    RestNotComplete(window);
  }

  /** All reads: the text is decided by the number left over. */
  lemma {:induction false} ShownIsMarked(pending: seq<Byte>, chunks: seq<seq<Byte>>)
    ensures LeftOver(pending, chunks) <= Ills(pending + Flat(chunks))
    ensures Shown(pending, chunks)
         == Marked(pending + Flat(chunks), Ills(pending + Flat(chunks)) - LeftOver(pending, chunks))
    decreases |chunks|
  {
    hide Ills, Marked, Lossy, Remaining, Drops, ValidUpTo;
    if chunks == [] {
      assert pending + [] == pending;
      LossyIsMarked(pending);
    } else {
      var window, more := pending + chunks[0], Flat(chunks[1..]);
      assert pending + Flat(chunks) == window + more;
      ShownIsMarked(Remaining(window), chunks[1..]);
      OneRead(window, more, Ills(Remaining(window) + more) - LeftOver(Remaining(window), chunks[1..]));
    }
  }

  lemma {:induction false} LossyIsMarked(s: seq<Byte>)
    ensures Lossy(s) == Marked(s, 0)
    decreases |s|
  {
    hide LookAt;
    if s != [] && !LookAt(s).Truncated? {
      LossyIsMarked(s[LookAt(s).len..]);
    }
  }

  lemma {:induction false} MarkedLength(s: seq<Byte>, dropped: nat)
    requires dropped <= Ills(s)
    ensures |Marked(s, dropped)| + 3 * dropped == |Marked(s, 0)|
    decreases |s|
  {
    hide LookAt;
    if s != [] && !LookAt(s).Truncated? {
      var k := LookAt(s).len;
      MarkedLength(s[k..], if LookAt(s).Invalid? && dropped > 0 then dropped - 1 else dropped);
    }
  }

  /** Two ways of reading show the same text exactly if they leave the same number over. */
  lemma SameTextIff(stream: seq<Byte>, chunks: seq<seq<Byte>>, chunks': seq<seq<Byte>>)
    requires Flat(chunks) == Flat(chunks') == stream
    ensures Shown([], chunks) == Shown([], chunks') <==> LeftOver([], chunks) == LeftOver([], chunks')
  {
    hide Shown, LeftOver, Marked, Ills;
    assert [] + stream == stream;
    ShownIsMarked([], chunks);
    ShownIsMarked([], chunks');
    MarkedLength(stream, Ills(stream) - LeftOver([], chunks));
    MarkedLength(stream, Ills(stream) - LeftOver([], chunks'));
  }

  // ---- how much can be left over ----

  /** No more is left over than what came too fast at the end, from some read on or from the start. */
  lemma {:induction false} AtMost(pending: seq<Byte>, chunks: seq<seq<Byte>>, kept: nat)
    requires Ills(pending + Flat(chunks)) <= |chunks| + kept
    requires forall i :: 0 < i <= |chunks| ==>
               Ills(pending + Flat(chunks)) - Ills(pending + Flat(chunks[..i])) <= |chunks| - i + kept
    ensures LeftOver(pending, chunks) <= kept
    decreases |chunks|
  {
    hide Ills, Remaining, Drops;
    if chunks == [] {
      assert pending + [] == pending;
    } else {
      var window, rest := pending + chunks[0], chunks[1..];
      assert pending + Flat(chunks) == window + Flat(rest);
      OneRead(window, Flat(rest), 0);
      DropsIff(window);
      assert chunks[..1][1..] == [] && pending + Flat(chunks[..1]) == window by {
        assert chunks[0] + [] == chunks[0];
      }
      forall i | 0 < i <= |rest|
        ensures Ills(Remaining(window) + Flat(rest)) - Ills(Remaining(window) + Flat(rest[..i])) <= |rest| - i + kept
      {
        FirstReads(pending, chunks, i + 1);
        OneRead(window, Flat(rest[..i]), 0);
      }
      AtMost(Remaining(window), rest, kept);
    }
  }

  lemma FirstReads(pending: seq<Byte>, chunks: seq<seq<Byte>>, i: nat)
    requires 0 < i <= |chunks|
    ensures pending + Flat(chunks[..i]) == pending + chunks[0] + Flat(chunks[1..][..i - 1])
  {
    assert chunks[..i][1..] == chunks[1..][..i - 1];
  }

  /** Each read drops one at most. */
  lemma {:induction false} AtLeast(pending: seq<Byte>, chunks: seq<seq<Byte>>, i: nat)
    requires i <= |chunks|
    ensures LeftOver(pending, chunks) >= Ills(pending + Flat(chunks)) - |chunks|
    ensures i > 0 ==> LeftOver(pending, chunks)
                      >= Ills(pending + Flat(chunks)) - Ills(pending + Flat(chunks[..i])) - (|chunks| - i)
    decreases |chunks|
  {
    hide Ills, Remaining, Drops;
    if chunks == [] {
      assert pending + [] == pending;
    } else {
      var window, rest := pending + chunks[0], chunks[1..];
      assert pending + Flat(chunks) == window + Flat(rest);
      OneRead(window, Flat(rest), 0);
      DropsIff(window);
      AtLeast(Remaining(window), rest, if i > 0 then i - 1 else 0);
      if i > 0 {
        FirstReads(pending, chunks, i);
        OneRead(window, Flat(rest[..i - 1]), 0);
        if i == 1 {
          assert window + [] == window;
        }
      }
    }
  }

  // ---- places in the stream ----

  lemma {:induction false} FlatSplit(chunks: seq<seq<Byte>>, i: nat)
    requires i <= |chunks|
    ensures Flat(chunks) == Flat(chunks[..i]) + Flat(chunks[i..])
    ensures Flat(chunks)[..|Flat(chunks[..i])|] == Flat(chunks[..i])
    decreases |chunks|
  {
    if i == 0 {
      assert chunks[0..] == chunks;
    } else {
      FlatSplit(chunks[1..], i - 1);
      assert chunks[..i][1..] == chunks[1..][..i - 1] && chunks[1..][i - 1..] == chunks[i..];
      assert Flat(chunks) == Flat(chunks[..i]) + Flat(chunks[i..]);
    }
  }

  lemma {:induction false} FlatSize(chunks: seq<seq<Byte>>, max: nat)
    requires NoneEmpty(chunks) && forall i :: 0 <= i < |chunks| ==> |chunks[i]| <= max
    ensures |chunks| <= |Flat(chunks)| <= |chunks| * max
  {
    if chunks != [] {
      FlatSize(chunks[1..], max);
    }
  }

  /** A place between two reads, not behind `x` and with no more reads to come than bytes behind `x`. */
  lemma {:induction false} CutBefore(chunks: seq<seq<Byte>>, x: nat) returns (i: nat)
    requires NoneEmpty(chunks) && x <= |Flat(chunks)|
    ensures i <= |chunks| && |Flat(chunks[..i])| <= x && |chunks| - i <= |Flat(chunks)| - x
    decreases |chunks|
  {
    if chunks == [] {
      i := 0;
    } else if x < |chunks[0]| {
      i := 0;
      AtLeastOneByte(chunks[1..]);
    } else {
      var j := CutBefore(chunks[1..], x - |chunks[0]|);
      i := j + 1;
      assert chunks[..i][1..] == chunks[1..][..j];
    }
  }

  lemma {:induction false} AtLeastOneByte(chunks: seq<seq<Byte>>)
    requires NoneEmpty(chunks)
    ensures |chunks| <= |Flat(chunks)|
  {
    if chunks != [] {
      AtLeastOneByte(chunks[1..]);
    }
  }

  lemma {:induction false} IllsGrow(s: seq<Byte>, more: seq<Byte>)
    ensures Ills(s) <= Ills(s + more)
    decreases |s|
  {
    hide LookAt;
    if s != [] && !LookAt(s).Truncated? {
      var k := LookAt(s).len;
      LookGrows(s, more);
      assert (s + more)[k..] == s[k..] + more;
      IllsGrow(s[k..], more);
    }
  }

  // ---- the slowest and the fastest ways of reading ----

  function Bytes(s: seq<Byte>): (chunks: seq<seq<Byte>>)
    ensures |chunks| == |s| && forall i :: 0 <= i < |s| ==> chunks[i] == [s[i]]
  {
    seq(|s|, i requires 0 <= i < |s| => [s[i]])
  }

  lemma {:induction false} FlatBytes(s: seq<Byte>)
    ensures Flat(Bytes(s)) == s
  {
    if s != [] {
      FlatBytes(s[1..]);
      assert Bytes(s)[1..] == Bytes(s[1..]) && s == [s[0]] + s[1..];
    }
  }

  /** How many reads `n` bytes take at least. */
  function Reads(n: nat): nat {
    (n + READ_MAX - 1) / READ_MAX
  }

  function Slices(s: seq<Byte>): (chunks: seq<seq<Byte>>)
    ensures Flat(chunks) == s && |chunks| == Reads(|s|)
    ensures forall i :: 0 <= i < |chunks| ==> 0 < |chunks[i]| <= READ_MAX
  {
    if s == [] then []
    else if |s| <= READ_MAX then
      assert [s][1..] == [] && s + [] == s;
      [s]
    else
      var rest := Slices(s[READ_MAX..]);
      assert s == s[..READ_MAX] + s[READ_MAX..] && ([s[..READ_MAX]] + rest)[1..] == rest;
      [s[..READ_MAX]] + rest
  }

  /** How many ill-formed sequences are left over of a stream that comes byte by byte. */
  function OneByOne(stream: seq<Byte>): nat {
    LeftOver([], Bytes(stream))
  }

  /** From no place on do ill-formed sequences come faster than reads: as many reads follow as there
      are sequences to be recognised behind it, those aside that are left over in any case. */
  ghost predicate KeepsUp(stream: seq<Byte>) {
    forall x :: 0 <= x <= |stream| ==> Ills(stream) - Ills(stream[..x]) <= Reads(|stream| - x) + OneByOne(stream)
  }

  /** No way of reading leaves less over than reading byte by byte. */
  lemma BytesLeaveLeast(stream: seq<Byte>, chunks: seq<seq<Byte>>)
    requires Cuts(chunks, stream)
    ensures OneByOne(stream) <= LeftOver([], chunks)
  {
    hide Ills, LeftOver;
    var bytes, kept := Bytes(stream), LeftOver([], chunks);
    FlatBytes(stream);
    assert [] + stream == stream;
    forall i | 0 <= i <= |stream|
      ensures Ills(stream) - Ills(stream[..i]) <= |stream| - i + kept
      ensures Flat(bytes[..i]) == stream[..i] && [] + stream[..i] == stream[..i]
    {
      assert bytes[..i] == Bytes(stream[..i]);
      FlatBytes(stream[..i]);
      LeftFrom(stream, chunks, i);
    }
    assert stream[..0] == [] && Ills([]) == 0 by { NoIlls(); }
    AtMost([], bytes, kept);
  }

  lemma NoIlls()
    ensures Ills([]) == 0
  {
  }

  /** What any way of reading leaves over, seen from a place in the stream. */
  lemma LeftFrom(stream: seq<Byte>, chunks: seq<seq<Byte>>, x: nat)
    requires Cuts(chunks, stream) && x <= |stream|
    ensures Ills(stream) - Ills(stream[..x]) <= |stream| - x + LeftOver([], chunks)
  {
    hide Ills, LeftOver;
    var j := CutBefore(chunks, x);
    var y := |Flat(chunks[..j])|;
    FlatSplit(chunks, j);
    assert stream[..x] == stream[..y] + stream[y..x];
    IllsGrow(stream[..y], stream[y..x]);
    AtLeast([], chunks, j);
    assert [] + stream == stream && [] + stream[..y] == stream[..y];
    NoIlls();
  }

  /** While the reads keep up, none leaves more over. */
  lemma ReadsLeaveNoMore(stream: seq<Byte>, chunks: seq<seq<Byte>>)
    requires ReadAs(chunks, stream) && KeepsUp(stream)
    ensures LeftOver([], chunks) == OneByOne(stream)
  {
    hide Ills, LeftOver, OneByOne;
    BytesLeaveLeast(stream, chunks);
    assert [] + stream == stream;
    forall i | 0 <= i <= |chunks|
      ensures Ills(stream) - Ills([] + Flat(chunks[..i])) <= |chunks| - i + OneByOne(stream)
    {
      FlatSplit(chunks, i);
      FlatSize(chunks[i..], READ_MAX);
      var x := |Flat(chunks[..i])|;
      assert [] + Flat(chunks[..i]) == stream[..x];
      EnoughReads(|stream| - x, |chunks| - i);
    }
    NoIlls();
    assert chunks[..0] == [] && [] + Flat([]) == [];
    assert Ills(stream) - Ills([] + Flat(chunks[..0])) <= |chunks| + OneByOne(stream);
    AtMost([], chunks, OneByOne(stream));
  }

  lemma EnoughReads(n: nat, count: nat)
    requires n <= count * READ_MAX
    ensures Reads(n) <= count
  {
  }

  lemma {:induction false} FlatBoth(a: seq<seq<Byte>>, b: seq<seq<Byte>>)
    ensures Flat(a + b) == Flat(a) + Flat(b)
  {
    if a == [] {
      assert a + b == b;
    } else {
      FlatBoth(a[1..], b);
      assert (a + b)[1..] == a[1..] + b && (a + b)[0] == a[0];
      assert a[0] + (Flat(a[1..]) + Flat(b)) == (a[0] + Flat(a[1..])) + Flat(b);
    }
  }

  lemma BothFit(a: seq<seq<Byte>>, b: seq<seq<Byte>>)
    requires ReadAs(a, Flat(a)) && ReadAs(b, Flat(b))
    ensures ReadAs(a + b, Flat(a) + Flat(b))
  {
    hide Flat;
    FlatBoth(a, b);
  }

  /** Byte by byte up to `x`, and from there on as fast as possible. */
  lemma SlowThenFast(stream: seq<Byte>, x: nat) returns (chunks: seq<seq<Byte>>)
    requires x <= |stream|
    ensures ReadAs(chunks, stream)
    ensures LeftOver([], chunks) >= Ills(stream) - Ills(stream[..x]) - Reads(|stream| - x)
  {
    hide Ills, LeftOver, Flat, Reads;
    var slow, fast := Bytes(stream[..x]), Slices(stream[x..]);
    chunks := slow + fast;
    FlatBytes(stream[..x]);
    BothFit(slow, fast);
    assert chunks[..x] == slow && stream == stream[..x] + stream[x..];
    LeftBehind(stream, chunks, x);
  }

  lemma LeftBehind(stream: seq<Byte>, chunks: seq<seq<Byte>>, i: nat)
    requires i <= |chunks| && Flat(chunks) == stream
    ensures LeftOver([], chunks) >= Ills(stream) - Ills(Flat(chunks[..i])) - (|chunks| - i)
  {
    hide Ills, LeftOver;
    AtLeast([], chunks, i);
    assert [] + stream == stream && [] + Flat(chunks[..i]) == Flat(chunks[..i]);
    NoIlls();
  }

  /** What is shown of a stream is independent of how it is read, in reads of at most 8192 bytes,
      exactly if the reads keep up with its ill-formed sequences. */
  lemma ReadsMatterExactly(stream: seq<Byte>)
    ensures (forall chunks, chunks' :: ReadAs(chunks, stream) && ReadAs(chunks', stream) ==> Shown([], chunks) == Shown([], chunks'))
       <==> KeepsUp(stream)
  {
    hide Ills, LeftOver, Shown, OneByOne;
    if KeepsUp(stream) {
      forall chunks, chunks' | ReadAs(chunks, stream) && ReadAs(chunks', stream)
        ensures Shown([], chunks) == Shown([], chunks')
      {
        ReadsLeaveNoMore(stream, chunks);
        ReadsLeaveNoMore(stream, chunks');
        SameTextIff(stream, chunks, chunks');
      }
    } else {
      var x :| 0 <= x <= |stream| && Ills(stream) - Ills(stream[..x]) > Reads(|stream| - x) + OneByOne(stream);
      var chunks := SlowThenFast(stream, x);
      FlatBytes(stream);
      assert ReadAs(Bytes(stream), stream) && OneByOne(stream) == LeftOver([], Bytes(stream)) by { SlowestReads(stream); }
      SameTextIff(stream, chunks, Bytes(stream));
    }
  }

  lemma SlowestReads(stream: seq<Byte>)
    ensures ReadAs(Bytes(stream), stream) && OneByOne(stream) == LeftOver([], Bytes(stream))
  {
    FlatBytes(stream);
  }

  /** Two bad bytes further apart than one read are dropped however they are read, though slices of
      any length could tell the difference. */
  lemma FarApart(text: seq<Byte>)
    requires |text| >= READ_MAX - 1 && forall i :: 0 <= i < |text| ==> text[i] < 0x80
    ensures KeepsUp([0xFF] + text + [0xFF]) && DependsOnCuts([0xFF] + text + [0xFF])
  {
    var s: seq<Byte> := [0xFF] + text + [0xFF];
    assert LookAt(s) == Invalid(1) && s[1..] == text + [0xFF];
    TextThenBad(text);
    assert Ills(s) == 2;
    forall x | 0 <= x <= |s| ensures Ills(s) - Ills(s[..x]) <= Reads(|s| - x) + OneByOne(s) {
      hide OneByOne, LookAt;
      if x == |s| {
        assert s[..x] == s;
      } else if x > 0 {
        OneBad(s[..x]);
        assert Reads(|s| - x) >= 1;
      } else {
        assert Reads(|s|) >= 2;
      }
    }
    assert ValidUpTo(s) == 0 && s[0..] == s && LookAt(s[..1]) == Invalid(1);
  }

  lemma OneBad(s: seq<Byte>)
    requires s != [] && s[0] == 0xFF
    ensures Ills(s) >= 1
  {
    assert LookAt(s) == Invalid(1);
  }

  lemma {:induction false} TextThenBad(text: seq<Byte>)
    requires forall i :: 0 <= i < |text| ==> text[i] < 0x80
    ensures Ills(text + [0xFF]) == 1 && !IsPrefixOfValid(text + [0xFF])
  {
    var s: seq<Byte> := text + [0xFF];
    if text == [] {
      assert s == [0xFF] && LookAt(s) == Invalid(1) && s[1..] == [] && s[0..] == s;
    } else {
      assert LookAt(s) == Complete(1) && s[1..] == text[1..] + [0xFF];
      TextThenBad(text[1..]);
      assert s[1..][ValidUpTo(s[1..])..] == s[ValidUpTo(s)..];
    }
  }
}
