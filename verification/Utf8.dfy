// UTF-8 as Buffer.toString("utf8") reads it: what is no character becomes U+FFFD, one
// for each maximal beginning of a character and one for each other byte.
module Utf8 {
  import opened Text

  const REPLACEMENT := '\U{FFFD}'

  function Continuation(bits: int): Byte
    requires 0 <= bits < 64
  {
    0x80 + bits
  }

  function EncodeChar(c: char): (bytes: seq<Byte>)
    ensures |bytes| == Utf8Width(c)
  {
    var n := c as int;
    var high := n / 64;
    var higher := high / 64;
    if n < 0x80 then [n]
    else if n < 0x800 then [0xC0 + high, Continuation(n % 64)]
    else if n < 0x10000 then [0xE0 + higher, Continuation(high % 64), Continuation(n % 64)]
    else [0xF0 + higher / 64, Continuation(higher % 64), Continuation(high % 64), Continuation(n % 64)]
  }

  function Encode(text: string): seq<Byte> {
    if text == "" then [] else EncodeChar(text[0]) + Encode(text[1..])
  }

  // ---- decoding ----

  // How many bytes a character with this first byte has; 0 if none starts like this.
  function Width(lead: Byte): nat {
    if lead < 0x80 then 1
    else if 0xC2 <= lead <= 0xDF then 2
    else if 0xE0 <= lead <= 0xEF then 3
    else if 0xF0 <= lead <= 0xF4 then 4
    else 0
  }

  // Whether a byte can be the k-th one after this first byte: the second byte of some
  // characters is restricted further.
  predicate Continues(lead: Byte, k: nat, b: Byte) {
    && IsContinuation(b)
    && (k == 1 ==>
          && (lead == 0xE0 ==> b >= 0xA0) && (lead == 0xED ==> b < 0xA0)
          && (lead == 0xF0 ==> b >= 0x90) && (lead == 0xF4 ==> b < 0x90))
  }

  // How many of the bytes belong together as one character or its maximal beginning.
  function Extent(bytes: seq<Byte>, k: nat): (n: nat)
    requires 1 <= k <= |bytes| && k <= Width(bytes[0])
    ensures k <= n <= |bytes| && n <= Width(bytes[0])
    decreases |bytes| - k
  {
    if k < Width(bytes[0]) && k < |bytes| && Continues(bytes[0], k, bytes[k]) then Extent(bytes, k + 1) else k
  }

  function Scalar(bytes: seq<Byte>): int
    requires 1 <= |bytes| <= 4
  {
    if |bytes| == 1 then bytes[0]
    else if |bytes| == 2 then Above(bytes[0], 0xC0) * 64 + Above(bytes[1], 0x80)
    else if |bytes| == 3 then Above(bytes[0], 0xE0) * 4096 + Above(bytes[1], 0x80) * 64 + Above(bytes[2], 0x80)
    else
      Above(bytes[0], 0xF0) * 262144 + Above(bytes[1], 0x80) * 4096 + Above(bytes[2], 0x80) * 64 + Above(bytes[3], 0x80)
  }

  function Above(b: Byte, base: int): int {
    b as int - base
  }

  function ToChar(scalar: int): char {
    if 0 <= scalar < 0xD800 || 0xE000 <= scalar < 0x110000 then scalar as char else REPLACEMENT
  }

  function DecodeOne(bytes: seq<Byte>): (r: (char, nat))
    requires bytes != []
    ensures 1 <= r.1 <= |bytes|
  {
    if Width(bytes[0]) == 0 then (REPLACEMENT, 1)
    else
      var n := Extent(bytes, 1);
      (if n == Width(bytes[0]) then ToChar(Scalar(bytes[..n])) else REPLACEMENT, n)
  }

  function Decode(bytes: seq<Byte>): string {
    if bytes == [] then ""
    else
      var (c, n) := DecodeOne(bytes);
      [c] + Decode(bytes[n..])
  }

  // Chunks that are decoded each by itself.
  function Concat(chunks: seq<seq<Byte>>): seq<Byte> {
    if chunks == [] then [] else chunks[0] + Concat(chunks[1..])
  }

  function DecodeChunks(chunks: seq<seq<Byte>>): string {
    if chunks == [] then "" else Decode(chunks[0]) + DecodeChunks(chunks[1..])
  }

  predicate IsContinuation(b: Byte) {
    0x80 <= b < 0xC0
  }

  // No chunk begins in the middle of a character.
  predicate CutsNoCharacter(chunks: seq<seq<Byte>>) {
    forall i :: 0 <= i < |chunks| && chunks[i] != [] ==> !IsContinuation(chunks[i][0])
  }

  lemma {:induction false} OneMoreChunk(chunks: seq<seq<Byte>>, last: seq<Byte>)
    ensures Concat(chunks + [last]) == Concat(chunks) + last
    ensures DecodeChunks(chunks + [last]) == DecodeChunks(chunks) + Decode(last)
    decreases |chunks|
  {
    hide Decode;
    if chunks == [] {
      assert chunks + [last] == [last] && [last][1..] == [];
    } else {
      assert (chunks + [last])[1..] == chunks[1..] + [last];
      OneMoreChunk(chunks[1..], last);
    }
  }

  // ---- a border in front of a byte that continues nothing ----

  lemma {:induction false} ExtentStops(a: seq<Byte>, b: seq<Byte>, k: nat)
    requires 1 <= k <= |a| && k <= Width(a[0])
    requires b != [] ==> !IsContinuation(b[0])
    ensures Extent(a + b, k) == Extent(a, k)
    decreases |a| - k
  {
    if k < Width(a[0]) && k < |a| && Continues(a[0], k, a[k]) {
      ExtentStops(a, b, k + 1);
    }
  }

  // Decoding in two pieces changes nothing there, whatever the bytes are.
  lemma {:induction false} DecodeSplits(a: seq<Byte>, b: seq<Byte>)
    requires b != [] ==> !IsContinuation(b[0])
    ensures Decode(a + b) == Decode(a) + Decode(b)
    decreases |a|
  {
    hide Extent, Scalar, Continues;
    if a == [] {
      assert a + b == b;
    } else {
      var n := DecodeOne(a).1;
      if Width(a[0]) != 0 {
        ExtentStops(a, b, 1);
        assert (a + b)[..n] == a[..n];
      }
      assert DecodeOne(a + b) == DecodeOne(a);
      assert (a + b)[n..] == a[n..] + b;
      DecodeSplits(a[n..], b);
    }
  }

  lemma {:induction false} DecodeInChunks(chunks: seq<seq<Byte>>)
    requires CutsNoCharacter(chunks)
    ensures DecodeChunks(chunks) == Decode(Concat(chunks))
    ensures Concat(chunks) != [] ==> !IsContinuation(Concat(chunks)[0])
    decreases |chunks|
  {
    hide Decode;
    if chunks == [] {
      assert Decode([]) == "" by { NoBytes(); }
    } else {
      assert CutsNoCharacter(chunks[1..]) by {
        assert forall i :: 0 <= i < |chunks[1..]| ==> chunks[1..][i] == chunks[i + 1];
      }
      DecodeInChunks(chunks[1..]);
      DecodeSplits(chunks[0], Concat(chunks[1..]));
    }
  }

  lemma NoBytes()
    ensures Decode([]) == ""
  {
  }

  // ---- whole characters ----

  lemma CharShape(c: char)
    ensures Width(EncodeChar(c)[0]) == |EncodeChar(c)| && !IsContinuation(EncodeChar(c)[0])
    ensures forall k :: 1 <= k < |EncodeChar(c)| ==> Continues(EncodeChar(c)[0], k, EncodeChar(c)[k])
    ensures Scalar(EncodeChar(c)) == c as int
  {
  }

  // Bytes that fit together up to the end of the character or of the input.
  lemma {:induction false} ExtentGoesOn(bytes: seq<Byte>, k: nat, m: nat)
    requires 1 <= k <= m <= |bytes| && m <= Width(bytes[0])
    requires m == Width(bytes[0]) || m == |bytes|
    requires forall i :: 1 <= i < m ==> Continues(bytes[0], i, bytes[i])
    ensures Extent(bytes, k) == m
    decreases m - k
  {
    if k < m {
      ExtentGoesOn(bytes, k + 1, m);
    }
  }

  lemma CharRoundTrip(c: char, more: seq<Byte>)
    ensures Decode(EncodeChar(c) + more) == [c] + Decode(more)
  {
    hide Extent, Scalar, EncodeChar, Continues, Width;
    var whole := EncodeChar(c);
    var bytes := whole + more;
    CharShape(c);
    assert bytes[0] == whole[0] && bytes[..|whole|] == whole && bytes[|whole|..] == more;
    ExtentGoesOn(bytes, 1, |whole|);
  }

  // A character cut off early becomes one U+FFFD.
  lemma CutCharacter(c: char, j: nat)
    requires 0 < j < |EncodeChar(c)|
    ensures Decode(EncodeChar(c)[..j]) == [REPLACEMENT]
  {
    hide Extent, Scalar, EncodeChar, Continues, Width;
    var whole := EncodeChar(c);
    var bytes := whole[..j];
    CharShape(c);
    ExtentGoesOn(bytes, 1, j);
    assert bytes[j..] == [];
    NoBytes();
  }

  predicate AllContinue(bytes: seq<Byte>) {
    forall i :: 0 <= i < |bytes| ==> IsContinuation(bytes[i])
  }

  // Each stray continuation byte becomes a U+FFFD of its own.
  lemma {:induction false} StrayBytes(stray: seq<Byte>, more: seq<Byte>)
    requires AllContinue(stray)
    ensures |Decode(stray + more)| == |stray| + |Decode(more)|
    decreases |stray|
  {
    if stray == [] {
      assert stray + more == more;
    } else {
      assert Width(stray[0]) == 0;
      assert (stray + more)[1..] == stray[1..] + more;
      StrayBytes(stray[1..], more);
    }
  }

  // Decoding inverts encoding.
  lemma {:induction false} TextRoundTrip(text: string, more: seq<Byte>)
    ensures Decode(Encode(text) + more) == text + Decode(more)
    decreases |text|
  {
    hide Decode, EncodeChar;
    if text == "" {
      assert Encode(text) + more == more;
    } else {
      assert Encode(text) + more == EncodeChar(text[0]) + (Encode(text[1..]) + more);
      CharRoundTrip(text[0], Encode(text[1..]) + more);
      TextRoundTrip(text[1..], more);
      assert [text[0]] + text[1..] == text;
    }
  }

  lemma {:induction false} EncodedSize(text: string)
    ensures |Encode(text)| == ByteLength(text)
  {
    if text != "" {
      EncodedSize(text[1..]);
      assert text == [text[0]] + text[1..];
      ByteLengthAppend([text[0]], text[1..]);
      assert [text[0]][..0] == "";
      assert ByteLength([text[0]]) == Utf8Width(text[0]);
    }
  }

  // What is decoded without a U+FFFD is the encoding of the result: no overlong form, no
  // surrogate and no other byte passes for a character.
  lemma {:induction false} DecodedIsEncoded(bytes: seq<Byte>)
    requires REPLACEMENT !in Decode(bytes)
    ensures Encode(Decode(bytes)) == bytes
    decreases |bytes|
  {
    hide EncodeChar, DecodeOne;
    if bytes != [] {
      var (c, n) := DecodeOne(bytes);
      var later := Decode(bytes[n..]);
      assert Decode(bytes) == [c] + later;
      assert c == Decode(bytes)[0] && ([c] + later)[1..] == later;
      DecodedOnce(bytes);
      DecodedIsEncoded(bytes[n..]);
      assert bytes[..n] + bytes[n..] == bytes;
    }
  }

  lemma DecodedOnce(bytes: seq<Byte>)
    requires bytes != [] && DecodeOne(bytes).0 != REPLACEMENT
    ensures EncodeChar(DecodeOne(bytes).0) == bytes[..DecodeOne(bytes).1]
  {
    hide EncodeChar, Scalar;
    var n := Extent(bytes, 1);
    ExtentContinues(bytes, 1);
    CharOf(bytes[..n]);
  }

  lemma {:induction false} ExtentContinues(bytes: seq<Byte>, k: nat)
    requires 1 <= k <= |bytes| && k <= Width(bytes[0])
    ensures forall i :: k <= i < Extent(bytes, k) ==> Continues(bytes[0], i, bytes[i])
    decreases |bytes| - k
  {
    if k < Width(bytes[0]) && k < |bytes| && Continues(bytes[0], k, bytes[k]) {
      ExtentContinues(bytes, k + 1);
    }
  }

  lemma CharOf(bytes: seq<Byte>)
    requires bytes != [] && |bytes| == Width(bytes[0])
    requires forall i :: 1 <= i < |bytes| ==> Continues(bytes[0], i, bytes[i])
    ensures EncodeChar(ToChar(Scalar(bytes))) == bytes
  {
    hide EncodeChar, ToChar;
    if |bytes| == 1 {
      assert bytes == [bytes[0]];
      OneByte(bytes[0]);
    } else if |bytes| == 2 {
      assert bytes == [bytes[0], bytes[1]] && Continues(bytes[0], 1, bytes[1]);
      TwoBytes(bytes[0], bytes[1]);
    } else if |bytes| == 3 {
      assert bytes == [bytes[0], bytes[1], bytes[2]];
      assert Continues(bytes[0], 1, bytes[1]) && Continues(bytes[0], 2, bytes[2]);
      ThreeBytes(bytes[0], bytes[1], bytes[2]);
    } else {
      assert bytes == [bytes[0], bytes[1], bytes[2], bytes[3]];
      assert Continues(bytes[0], 1, bytes[1]) && Continues(bytes[0], 2, bytes[2]) && Continues(bytes[0], 3, bytes[3]);
      FourBytes(bytes[0], bytes[1], bytes[2], bytes[3]);
    }
  }

  lemma OneByte(b0: Byte)
    requires b0 < 0x80
    ensures EncodeChar(ToChar(b0)) == [b0]
  {
  }

  lemma TwoBytes(b0: Byte, b1: Byte)
    requires 0xC2 <= b0 <= 0xDF && 0x80 <= b1 < 0xC0
    ensures EncodeChar(ToChar(Above(b0, 0xC0) * 64 + Above(b1, 0x80))) == [b0, b1]
  {
  }

  lemma ThreeBytes(b0: Byte, b1: Byte, b2: Byte)
    requires 0xE0 <= b0 <= 0xEF && 0x80 <= b1 < 0xC0 && 0x80 <= b2 < 0xC0
    requires (b0 == 0xE0 ==> b1 >= 0xA0) && (b0 == 0xED ==> b1 < 0xA0)
    ensures EncodeChar(ToChar(Above(b0, 0xE0) * 4096 + Above(b1, 0x80) * 64 + Above(b2, 0x80))) == [b0, b1, b2]
  {
    var n := Above(b0, 0xE0) * 4096 + Above(b1, 0x80) * 64 + Above(b2, 0x80);
    assert n / 64 == Above(b0, 0xE0) * 64 + Above(b1, 0x80) && n % 64 == Above(b2, 0x80);
  }

  lemma FourBytes(b0: Byte, b1: Byte, b2: Byte, b3: Byte)
    requires 0xF0 <= b0 <= 0xF4 && 0x80 <= b1 < 0xC0 && 0x80 <= b2 < 0xC0 && 0x80 <= b3 < 0xC0
    requires (b0 == 0xF0 ==> b1 >= 0x90) && (b0 == 0xF4 ==> b1 < 0x90)
    ensures
      var n := Above(b0, 0xF0) * 262144 + Above(b1, 0x80) * 4096 + Above(b2, 0x80) * 64 + Above(b3, 0x80);
      EncodeChar(ToChar(n)) == [b0, b1, b2, b3]
  {
    var high := Above(b0, 0xF0) * 4096 + Above(b1, 0x80) * 64 + Above(b2, 0x80);
    var n := high * 64 + Above(b3, 0x80);
    assert n / 64 == high && n % 64 == Above(b3, 0x80);
    assert high / 64 == Above(b0, 0xF0) * 64 + Above(b1, 0x80) && high % 64 == Above(b2, 0x80);
  }

  // ---- cut characters ----

  // Where a border falls in a text.
  datatype Cut = Between(front: string, back: string) | Inside(front: string, c: char, j: nat, back: string)

  ghost predicate CutsAt(a: seq<Byte>, b: seq<Byte>, text: string, cut: Cut) {
    match cut
    case Between(front, back) => text == front + back && a == Encode(front) && b == Encode(back)
    case Inside(front, c, j, back) =>
      && text == front + [c] + back && 0 < j < |EncodeChar(c)|
      && a == Encode(front) + EncodeChar(c)[..j] && b == EncodeChar(c)[j..] + Encode(back)
  }

  // The longer of two beginnings of the same bytes.
  lemma Overlap(a: seq<Byte>, b: seq<Byte>, c: seq<Byte>, d: seq<Byte>)
    requires a + b == c + d && |c| <= |a|
    ensures a == c + a[|c|..] && d == a[|c|..] + b
  {
    assert (a + b)[..|a|] == a && (c + d)[..|c|] == c;
    assert (a + b)[..|c|] == a[..|c|];
    assert (a + b)[|c|..] == a[|c|..] + b && (c + d)[|c|..] == d;
  }

  lemma OneMoreInFront(c: char, a: seq<Byte>, b: seq<Byte>, text: string, cut: Cut)
    requires CutsAt(a, b, text, cut)
    ensures CutsAt(EncodeChar(c) + a, b, [c] + text, cut.(front := [c] + cut.front))
  {
    hide EncodeChar;
    assert ([c] + cut.front)[1..] == cut.front;
    assert Encode([c] + cut.front) == EncodeChar(c) + Encode(cut.front);
  }

  lemma {:induction false} Locate(a: seq<Byte>, b: seq<Byte>, text: string) returns (cut: Cut)
    requires a + b == Encode(text)
    ensures CutsAt(a, b, text, cut)
    decreases |text|
  {
    hide EncodeChar;
    if a == [] {
      cut := Between("", text);
      assert a + b == b;
    } else if |EncodeChar(text[0])| <= |a| {
      hide CutsAt;
      var first := EncodeChar(text[0]);
      Overlap(a, b, first, Encode(text[1..]));
      cut := Locate(a[|first|..], b, text[1..]);
      OneMoreInFront(text[0], a[|first|..], b, text[1..], cut);
      cut := cut.(front := [text[0]] + cut.front);
      assert [text[0]] + text[1..] == text;
    } else {
      cut := Inside("", text[0], |a|, text[1..]);
      Overlap(EncodeChar(text[0]), Encode(text[1..]), a, b);
    }
  }

  // What is left of a cut character continues something.
  lemma RestContinues(c: char, j: nat)
    requires 0 < j < |EncodeChar(c)|
    ensures AllContinue(EncodeChar(c)[j..]) && EncodeChar(c)[j..] != []
  {
    hide EncodeChar;
    CharShape(c);
  }

  lemma StartsFresh(text: string)
    ensures text == "" <==> Encode(text) == []
    ensures text != "" ==> !IsContinuation(Encode(text)[0])
  {
    hide EncodeChar;
    if text != "" {
      CharShape(text[0]);
    }
  }

  // A chunk of a text: whole characters, and perhaps the beginning of another one.
  lemma DecodedChunk(a: seq<Byte>, b: seq<Byte>, text: string, cut: Cut)
    requires CutsAt(a, b, text, cut)
    ensures Decode(a) == cut.front + if cut.Between? then "" else [REPLACEMENT]
  {
    hide Decode, EncodeChar, Encode;
    if cut.Between? {
      TextRoundTrip(cut.front, []);
      NoBytes();
      assert a == Encode(cut.front) + [];
    } else {
      TextRoundTrip(cut.front, EncodeChar(cut.c)[..cut.j]);
      CutCharacter(cut.c, cut.j);
    }
  }

  // Decoding in chunks never makes a text shorter, even if it starts with stray bytes.
  lemma {:induction false} ChunksKeepLength(chunks: seq<seq<Byte>>, stray: seq<Byte>, text: string)
    requires Concat(chunks) == stray + Encode(text) && AllContinue(stray)
    ensures |DecodeChunks(chunks)| >= |stray| + |text|
    decreases |chunks|, 0
  {
    hide Decode, EncodeChar, Encode;
    StartsFresh(text);
    if chunks != [] {
      var chunk, later := chunks[0], Concat(chunks[1..]);
      if |chunk| <= |stray| {
        Overlap(stray, Encode(text), chunk, later);
        StrayBytes(chunk, []);
        NoBytes();
        assert chunk + [] == chunk;
        ChunksKeepLength(chunks[1..], stray[|chunk|..], text);
      } else {
        var a := chunk[|stray|..];
        Overlap(chunk, later, stray, Encode(text));
        var cut := Locate(a, later, text);
        StrayBytes(stray, a);
        DecodedChunk(a, later, text, cut);
        LaterChunks(chunks[1..], cut);
      }
    }
  }

  lemma LaterChunks(chunks: seq<seq<Byte>>, cut: Cut)
    requires cut.Inside? ==> 0 < cut.j < |EncodeChar(cut.c)|
    requires Concat(chunks) ==
      if cut.Between? then Encode(cut.back) else EncodeChar(cut.c)[cut.j..] + Encode(cut.back)
    ensures |DecodeChunks(chunks)| >= |cut.back| + if cut.Between? then 0 else 1
    decreases |chunks|, 1
  {
    hide EncodeChar, Encode, DecodeChunks;
    if cut.Between? {
      assert Encode(cut.back) == [] + Encode(cut.back);
      ChunksKeepLength(chunks, [], cut.back);
    } else {
      RestContinues(cut.c, cut.j);
      ChunksKeepLength(chunks, EncodeChar(cut.c)[cut.j..], cut.back);
    }
  }

  // A cut character makes it longer.
  lemma {:induction false} CutsShow(chunks: seq<seq<Byte>>, text: string)
    requires Concat(chunks) == Encode(text) && !CutsNoCharacter(chunks)
    ensures |DecodeChunks(chunks)| > |text|
    decreases |chunks|
  {
    hide Decode, EncodeChar, Encode;
    var chunk, later := chunks[0], Concat(chunks[1..]);
    var cut := Locate(chunk, later, text);
    DecodedChunk(chunk, later, text, cut);
    if cut.Between? {
      StartsFresh(text);
      assert CutsNoCharacter(chunks[1..]) ==> CutsNoCharacter(chunks) by {
        assert forall i :: 1 <= i < |chunks| ==> chunks[i] == chunks[1..][i - 1];
      }
      CutsShow(chunks[1..], cut.back);
    } else {
      LaterChunks(chunks[1..], cut);
    }
  }

  // A text that arrives in chunks is decoded to itself if and only if no chunk begins
  // in the middle of a character; else it comes out longer.
  lemma ChunksDecodeToText(chunks: seq<seq<Byte>>, text: string)
    requires Concat(chunks) == Encode(text)
    ensures DecodeChunks(chunks) == text <==> CutsNoCharacter(chunks)
    ensures |DecodeChunks(chunks)| > |text| <==> !CutsNoCharacter(chunks)
  {
    hide Decode, Encode, CutsNoCharacter;
    if CutsNoCharacter(chunks) {
      DecodeInChunks(chunks);
      TextRoundTrip(text, []);
      assert Encode(text) + [] == Encode(text);
      NoBytes();
    } else {
      CutsShow(chunks, text);
    }
  }

  // No chunk begins in the middle of a character if and only if every chunk holds whole
  // characters only.
  lemma WholeCharacters(chunks: seq<seq<Byte>>, text: string)
    requires Concat(chunks) == Encode(text)
    ensures CutsNoCharacter(chunks) <==> forall i :: 0 <= i < |chunks| ==> HoldsText(chunks[i])
  {
    hide EncodeChar, Encode, Concat;
    if CutsNoCharacter(chunks) {
      EachHoldsText(chunks, text);
    }
    forall i | 0 <= i < |chunks| && HoldsText(chunks[i]) && chunks[i] != []
      ensures !IsContinuation(chunks[i][0])
    {
      var held :| chunks[i] == Encode(held);
      StartsFresh(held);
    }
  }

  lemma {:induction false} EachHoldsText(chunks: seq<seq<Byte>>, text: string)
    requires Concat(chunks) == Encode(text) && CutsNoCharacter(chunks)
    ensures forall i :: 0 <= i < |chunks| ==> HoldsText(chunks[i])
    decreases |chunks|
  {
    hide EncodeChar, Encode, Decode;
    if chunks != [] {
      assert forall i :: 1 <= i < |chunks| ==> chunks[i] == chunks[1..][i - 1];
      assert CutsNoCharacter(chunks[1..]) by {
        assert forall i :: 0 <= i < |chunks[1..]| ==> chunks[1..][i] == chunks[i + 1];
      }
      DecodeInChunks(chunks[1..]);
      var cut := Locate(chunks[0], Concat(chunks[1..]), text);
      if cut.Inside? {
        RestContinues(cut.c, cut.j);
        assert false;
      }
      EachHoldsText(chunks[1..], cut.back);
    }
  }

  ghost predicate HoldsText(bytes: seq<Byte>) {
    exists text :: bytes == Encode(text)
  }
}
