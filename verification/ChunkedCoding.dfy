/** The chunked transfer coding (section 7.1 of RFC 9112), without extensions and trailers. */
module ChunkedCoding {
  import opened Prelude

  const CR: Byte := 13
  const LF: Byte := 10
  const CRLF: seq<Byte> := [CR, LF]
  const MAX_SIZE_DIGITS := 16

  predicate IsHex(b: Byte) { 48 <= b <= 57 || 65 <= b <= 70 || 97 <= b <= 102 }

  function HexDigit(b: Byte): nat
    requires IsHex(b)
  {
    if b <= 57 then b - 48 else if b <= 70 then b - 55 else b - 87
  }

  predicate IsSize(text: seq<Byte>) { 1 <= |text| <= MAX_SIZE_DIGITS && forall i :: 0 <= i < |text| ==> IsHex(text[i]) }

  function HexValue(text: seq<Byte>): nat
    requires forall i :: 0 <= i < |text| ==> IsHex(text[i])
  {
    if text == [] then 0 else HexValue(text[..|text| - 1]) * 16 + HexDigit(text[|text| - 1])
  }

  // ---- Numerals -----------------------------------------------------------

  /** "0123456789abcdef". */
  const DIGITS: seq<Byte> := [48, 49, 50, 51, 52, 53, 54, 55, 56, 57, 97, 98, 99, 100, 101, 102]

  /** How `n` is printed in hexadecimal, most significant digit first. */
  function HexText(n: nat): (text: seq<Byte>)
    ensures text != []
  {
    (if n < 16 then [] else HexText(n / 16)) + [DIGITS[n % 16]]
  }

  function LowerDigit(b: Byte): Byte { if 65 <= b <= 70 then b + 32 else b }

  function Lowered(text: seq<Byte>): seq<Byte> { seq(|text|, i requires 0 <= i < |text| => LowerDigit(text[i])) }

  function Zeros(k: nat): seq<Byte> { seq(k, _ => 48) }

  /** `text` is `n` printed, in either case, after any number of zeros. */
  predicate Prints(text: seq<Byte>, n: nat) {
    |HexText(n)| <= |text| && Lowered(text) == Zeros(|text| - |HexText(n)|) + HexText(n)
  }

  /** A chunk size line: at most sixteen digits that print `n`. */
  predicate Writes(text: seq<Byte>, n: nat) { |text| <= 16 && Prints(text, n) }

  lemma PrintsDigit(b: Byte, n: nat)
    ensures Prints([b], n) <==> IsHex(b) && HexDigit(b) == n
  {
    if n < 16 {
      assert HexText(n) == [DIGITS[n]] && Zeros(0) + HexText(n) == HexText(n);
      assert Lowered([b]) == [LowerDigit(b)];
      DigitIs(b, n);
    } else {
      assert |HexText(n)| >= 2;
    }
  }

  lemma DigitIs(b: Byte, d: nat)
    requires d < 16
    ensures LowerDigit(b) == DIGITS[d] <==> IsHex(b) && HexDigit(b) == d
  {
  }

  /** The last digit and the rest. */
  lemma PrintsMore(front: seq<Byte>, b: Byte, n: nat)
    requires front != []
    ensures Prints(front + [b], n) <==> Prints(front, n / 16) && LowerDigit(b) == DIGITS[n % 16]
  {
    var text, last := front + [b], [DIGITS[n % 16]];
    assert Lowered(text) == Lowered(front) + [LowerDigit(b)];
    if n < 16 {
      var k := |front|;
      assert HexText(n) == last && HexText(n / 16) == [48];
      assert Zeros(k) == Zeros(k - 1) + [48];
      SameEnds(Lowered(front), [LowerDigit(b)], Zeros(k), last);
    } else if |HexText(n)| <= |text| {
      var zeros := Zeros(|text| - |HexText(n)|);
      assert zeros + HexText(n) == (zeros + HexText(n / 16)) + last;
      SameEnds(Lowered(front), [LowerDigit(b)], zeros + HexText(n / 16), last);
    }
  }

  lemma SameEnds(a: seq<Byte>, b: seq<Byte>, x: seq<Byte>, y: seq<Byte>)
    requires |a| == |x| && |b| == |y| == 1
    ensures a + b == x + y <==> a == x && b[0] == y[0]
  {
    assert b == [b[0]] && y == [y[0]];
    assert (a + b)[..|a|] == a && (x + y)[..|a|] == x && (a + b)[|a|] == b[0] && (x + y)[|a|] == y[0];
  }

  /** Reading a numeral gives the number that prints as it. */
  lemma {:induction false} ValueIsPrinted(text: seq<Byte>, n: nat)
    requires text != []
    ensures Prints(text, n) <==> (forall i :: 0 <= i < |text| ==> IsHex(text[i])) && HexValue(text) == n
    decreases |text|
  {
    var front, b := text[..|text| - 1], text[|text| - 1];
    assert text == front + [b];
    if front == [] {
      PrintsDigit(b, n);
      assert text == [b];
    } else {
      PrintsMore(front, b, n);
      ValueIsPrinted(front, n / 16);
      DigitIs(b, n % 16);
      hide Prints, LowerDigit;
    }
  }

  /** The size lines read as `n` are exactly those that write it. */
  lemma SizeExactly(text: seq<Byte>, n: nat)
    ensures IsSize(text) && HexValue(text) == n <==> Writes(text, n)
  {
    if text != [] { ValueIsPrinted(text, n); }
  }

  // ---- Chunks -------------------------------------------------------------

  /** One chunk: how its size is written, and its data. */
  datatype Part = Part(size: seq<Byte>, data: seq<Byte>)

  predicate GoodPart(p: Part) { p.data != [] && Writes(p.size, |p.data|) }

  predicate GoodLast(last: seq<Byte>) { Writes(last, 0) }

  function Encoded(p: Part): seq<Byte> { p.size + CRLF + p.data + CRLF }

  /** A body in the chunked coding: its chunks, the last chunk, and the empty trailer. */
  function Encode(parts: seq<Part>, last: seq<Byte>): seq<Byte> {
    if parts == [] then last + CRLF + CRLF else Encoded(parts[0]) + Encode(parts[1..], last)
  }

  function Body(parts: seq<Part>): seq<Byte> {
    if parts == [] then [] else parts[0].data + Body(parts[1..])
  }

  predicate GoodParts(parts: seq<Part>) { forall i :: 0 <= i < |parts| ==> GoodPart(parts[i]) }

  /** What the next size line announces: nothing acceptable, the end, or a chunk and what follows it. */
  datatype Step = Bad | Last | Chunk(data: seq<Byte>, tail: seq<Byte>)

  function Take(body: seq<Byte>, room: nat): (r: Step)
    ensures r.Chunk? ==> r.data != [] && |r.data| <= room && |r.tail| < |body|
  {
    var end := IndexOf(body, CRLF);
    if end.None? || !IsSize(body[..end.value]) then Bad
    else
      var size, rest := HexValue(body[..end.value]), body[end.value + 2..];
      if size == 0 then (if rest == CRLF then Last else Bad)
      else if size + 2 > |rest| || rest[size..size + 2] != CRLF || size > room then Bad
      else Chunk(rest[..size], rest[size + 2..])
  }

  function Prepended(front: seq<Byte>, tail: Option<seq<Byte>>): Option<seq<Byte>> {
    if tail.Some? then Some(front + tail.value) else None
  }

  /** What decoding the rest of a body gives, when `room` more bytes fit. */
  function Decode(body: seq<Byte>, room: nat): (r: Option<seq<Byte>>)
    decreases |body|
  {
    match Take(body, room)
    case Bad => None
    case Last => Some([])
    case Chunk(data, tail) => Prepended(data, Decode(tail, room - |data|))
  }

  lemma SizeEnds(size: seq<Byte>, rest: seq<Byte>)
    requires IsSize(size)
    ensures IndexOf(size + CRLF + rest, CRLF) == Some(|size|)
    ensures (size + CRLF + rest)[..|size|] == size && (size + CRLF + rest)[|size| + 2..] == rest
  {
    var text := size + CRLF + rest;
    forall i | 0 <= i < |size| ensures !HasAt(text, CRLF, i) {
      assert text[i..i + 2][0] == size[i] && IsHex(size[i]);
    }
    FirstIndex(text, CRLF, |size|);
  }

  lemma TakesPart(p: Part, tail: seq<Byte>, room: nat)
    requires GoodPart(p)
    ensures Take(Encoded(p) + tail, room) == if |p.data| > room then Bad else Chunk(p.data, tail)
  {
    var rest := p.data + CRLF + tail;
    SizeExactly(p.size, |p.data|);
    hide Writes, IsSize, HexValue;
    SizeEnds(p.size, rest);
    assert Encoded(p) + tail == p.size + CRLF + rest;
    assert rest[|p.data|..|p.data| + 2] == CRLF && rest[..|p.data|] == p.data && rest[|p.data| + 2..] == tail;
  }

  /** Any way of writing a body in chunks decodes to it, if it fits. */
  lemma {:induction false} EncodedDecodes(parts: seq<Part>, last: seq<Byte>, room: nat)
    requires GoodParts(parts) && GoodLast(last)
    ensures Decode(Encode(parts, last), room) == if |Body(parts)| <= room then Some(Body(parts)) else None
    decreases |parts|
  {
    hide Take, GoodPart, GoodLast, Encoded;
    if parts == [] {
      TakesLast(last, room);
    } else {
      var p, tail := parts[0], Encode(parts[1..], last);
      TakesPart(p, tail, room);
      if |p.data| <= room { EncodedDecodes(parts[1..], last, room - |p.data|); }
    }
  }

  lemma TakesLast(last: seq<Byte>, room: nat)
    requires GoodLast(last)
    ensures Take(last + CRLF + CRLF, room) == Last
  {
    SizeExactly(last, 0);
    hide Writes, IsSize, HexValue;
    SizeEnds(last, CRLF);
  }

  lemma CutAt(text: seq<Byte>, i: nat)
    requires HasAt(text, CRLF, i)
    ensures text == text[..i] + CRLF + text[i + 2..]
  {
    assert text[i..i + 2] == CRLF;
  }

  /** A chunk taken off is a good part, written as it was. */
  lemma TakenPart(body: seq<Byte>, room: nat) returns (size: seq<Byte>)
    requires Take(body, room) != Bad
    ensures match Take(body, room)
      case Bad => false
      case Last => GoodLast(size) && body == size + CRLF + CRLF
      case Chunk(data, tail) => GoodPart(Part(size, data)) && body == Encoded(Part(size, data)) + tail
  {
    var end := IndexOf(body, CRLF).value;
    size := body[..end];
    var n, rest := HexValue(size), body[end + 2..];
    CutAt(body, end);
    SizeExactly(size, n);
    hide IsSize, HexValue, Writes, IndexOf;
    if n > 0 {
      CutAt(rest, n);
      PartJoins(size, rest[..n], rest[n + 2..]);
    }
  }

  lemma PartJoins(size: seq<Byte>, data: seq<Byte>, tail: seq<Byte>)
    ensures size + CRLF + (data + CRLF + tail) == Encoded(Part(size, data)) + tail
  {
  }

  /** Whatever decodes is such an encoding, to its last byte. */
  lemma {:induction false} DecodedIsEncoded(body: seq<Byte>, room: nat) returns (parts: seq<Part>, last: seq<Byte>)
    requires Decode(body, room).Some?
    ensures GoodParts(parts) && GoodLast(last) && body == Encode(parts, last)
    ensures Decode(body, room) == Some(Body(parts)) && |Body(parts)| <= room
    decreases |body|
  {
    hide Take, GoodPart, GoodLast, Encoded;
    var size := TakenPart(body, room);
    match Take(body, room) {
      case Last =>
        parts, last := [], size;
      case Chunk(data, tail) =>
        var more;
        more, last := DecodedIsEncoded(tail, room - |data|);
        parts := [Part(size, data)] + more;
        assert parts[1..] == more;
    }
  }

  ghost predicate IsEncoding(body: seq<Byte>, parts: seq<Part>, last: seq<Byte>, decoded: seq<Byte>) {
    GoodParts(parts) && GoodLast(last) && body == Encode(parts, last) && decoded == Body(parts)
  }

  /** Decoding accepts exactly the encodings of bodies within the limit; every accepted byte is accounted for. */
  lemma DecodesExactly(body: seq<Byte>, decoded: seq<Byte>)
    ensures Decode(body, MAX_RESPONSE_BYTES) == Some(decoded)
      <==> |decoded| <= MAX_RESPONSE_BYTES && exists parts, last :: IsEncoding(body, parts, last, decoded)
  {
    if Decode(body, MAX_RESPONSE_BYTES) == Some(decoded) {
      var parts, last := DecodedIsEncoded(body, MAX_RESPONSE_BYTES);
      assert IsEncoding(body, parts, last, decoded);
    }
    if |decoded| <= MAX_RESPONSE_BYTES && exists parts, last :: IsEncoding(body, parts, last, decoded) {
      var parts, last :| IsEncoding(body, parts, last, decoded);
      EncodedDecodes(parts, last, MAX_RESPONSE_BYTES);
    }
  }

  /** `body` is an encoding of something within the limit. */
  ghost predicate IsChunked(body: seq<Byte>) {
    exists parts, last, decoded :: |decoded| <= MAX_RESPONSE_BYTES && IsEncoding(body, parts, last, decoded)
  }

  lemma AcceptsExactly(body: seq<Byte>)
    ensures Decode(body, MAX_RESPONSE_BYTES).Some? <==> IsChunked(body)
  {
    if Decode(body, MAX_RESPONSE_BYTES).Some? {
      var parts, last := DecodedIsEncoded(body, MAX_RESPONSE_BYTES);
      assert IsEncoding(body, parts, last, Body(parts));
    }
    if IsChunked(body) {
      var parts, last, decoded :| |decoded| <= MAX_RESPONSE_BYTES && IsEncoding(body, parts, last, decoded);
      EncodedDecodes(parts, last, MAX_RESPONSE_BYTES);
    }
  }

  lemma PrependTwice(a: seq<Byte>, b: seq<Byte>, tail: Option<seq<Byte>>)
    ensures Prepended(a, Prepended(b, tail)) == Prepended(a + b, tail) && Prepended([], tail) == tail
  {
    if tail.Some? { assert a + (b + tail.value) == a + b + tail.value && [] + tail.value == tail.value; }
  }

  lemma PrependNothing(a: seq<Byte>)
    ensures Prepended(a, None) == None && Prepended(a, Some([])) == Some(a)
  {
    assert a + [] == a;
  }

  lemma DecodeUnfolds(body: seq<Byte>, room: nat)
    ensures Decode(body, room) == match Take(body, room)
      case Bad => None
      case Last => Some([])
      case Chunk(data, tail) => Prepended(data, Decode(tail, room - |data|))
  {
  }

  /**
   * One turn of the decoding loop, on what is left of the body: the checks on
   * a size line and on the data after it, and how many bytes they used.  A
   * size too large to be added to the offset is longer than the body anyway.
   */
  method NextChunk(rest: seq<Byte>, ghost offset: nat, room: nat) returns (step: Step, used: nat)
    requires offset + |rest| <= MAX_U64 / 2
    ensures step == Take(rest, room)
    ensures step.Chunk? ==> 0 < used <= |rest| && step.tail == rest[used..]
  {
    hide HexValue;
    step, used := Bad, 0;
    var line := IndexOf(rest, CRLF);
    if line.None? { return; }
    var text, after := rest[..line.value], rest[line.value + 2..];
    if !IsSize(text) { return; }
    var size := HexValue(text);
    if size == 0 {
      if after == CRLF { step := Last; }
      return;
    }
    if size + 2 > |after| || after[size..size + 2] != CRLF || size > room { return; }
    step, used := Chunk(after[..size], after[size + 2..]), line.value + 2 + size + 2;
    assert offset + used <= MAX_U64;
  }

  /** `decode_chunked`. */
  method DecodeChunked(body: seq<Byte>) returns (r: Option<seq<Byte>>)
    requires |body| <= MAX_U64 / 2
    ensures r == Decode(body, MAX_RESPONSE_BYTES)
    ensures r.Some? <==> IsChunked(body)
  {
    hide IsChunked, Take, Prepended, Decode;
    AcceptsExactly(body);
    r := DecodeLoop(body);
  }

  method DecodeLoop(body: seq<Byte>) returns (r: Option<seq<Byte>>)
    requires |body| <= MAX_U64 / 2
    ensures r == Decode(body, MAX_RESPONSE_BYTES)
  {
    hide Take, Prepended, Decode;
    var offset := 0;
    var decoded: seq<Byte> := [];
    PrependTwice([], [], Decode(body, MAX_RESPONSE_BYTES));
    assert body[0..] == body;
    while true
      invariant 0 <= offset <= |body| && |decoded| <= MAX_RESPONSE_BYTES
      invariant Decode(body, MAX_RESPONSE_BYTES) ==
        Prepended(decoded, Decode(body[offset..], MAX_RESPONSE_BYTES - |decoded|))
      decreases |body| - offset
    {
      DecodeUnfolds(body[offset..], MAX_RESPONSE_BYTES - |decoded|);
      PrependNothing(decoded);
      var step, used := NextChunk(body[offset..], offset, MAX_RESPONSE_BYTES - |decoded|);
      match step {
        case Bad => return None;
        case Last => return Some(decoded);
        case Chunk(data, tail) =>
          PrependTwice(decoded, data, Decode(tail, MAX_RESPONSE_BYTES - |decoded| - |data|));
          decoded := decoded + data;
          assert body[offset..][used..] == body[offset + used..];
          offset := offset + used;
      }
    }
  }
}
