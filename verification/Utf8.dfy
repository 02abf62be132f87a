/** UTF-8 (RFC 3629), strictly: exactly the encodings of scalar values decode. */
module Utf8 {
  import opened Prelude

  function Encoded(c: char): (bytes: seq<Byte>)
    ensures |bytes| == Utf8Width(c)
  {
    var n := c as int;
    var (m, l, k) := (n / 0x40, n / 0x40 / 0x40, n / 0x40 / 0x40 / 0x40);
    if n < 0x80 then [n]
    else if n < 0x800 then [0xC0 + m, Trail(n)]
    else if n < 0x1_0000 then [0xE0 + l, Trail(m), Trail(n)]
    else [0xF0 + k, Trail(l), Trail(m), Trail(n)]
  }

  /** A continuation byte, with the low six bits. */
  function Trail(n: nat): Byte { 0x80 + n % 0x40 }

  function Encode(s: string): (bytes: seq<Byte>)
    ensures |bytes| == Utf8Length(s)
  {
    if s == [] then [] else Encoded(s[0]) + Encode(s[1..])
  }

  /** What the leading bytes stand for, if they are well formed. */
  function Scalar(b: seq<Byte>): int
    requires b != []
  {
    if b[0] < 0x80 then b[0]
    else if b[0] < 0xE0 then if |b| < 2 then -1 else Six(b[0] as int - 0xC0, b[1])
    else if b[0] < 0xF0 then if |b| < 3 then -1 else Six(Six(b[0] as int - 0xE0, b[1]), b[2])
    else if |b| < 4 then -1 else Six(Six(Six(b[0] as int - 0xF0, b[1]), b[2]), b[3])
  }

  /** Six more bits. */
  function Six(n: int, b: Byte): int { n * 0x40 + (b as int - 0x80) }

  predicate IsScalar(n: int) { 0 <= n < 0xD800 || 0xE000 <= n < 0x11_0000 }

  /** The first character; overlong forms, surrogates and stray bytes are refused. */
  function First(b: seq<Byte>): (c: Option<char>)
    requires b != []
    ensures c.Some? ==> Encoded(c.value) <= b
  {
    var n := Scalar(b);
    if IsScalar(n) && Encoded(n as char) <= b then Some(n as char) else None
  }

  /** `str::from_utf8`. */
  function Decode(b: seq<Byte>): (s: Option<string>)
    decreases |b|
  {
    if b == [] then Some([])
    else
      var c := First(b);
      if c.None? then None
      else
        var rest := Decode(b[Utf8Width(c.value)..]);
        if rest.None? then None else Some([c.value] + rest.value)
  }

  lemma SixTrail(n: nat)
    ensures Six(n / 0x40, Trail(n)) == n
  {
  }

  lemma ScalarEncoded(c: char, rest: seq<Byte>)
    ensures Scalar(Encoded(c) + rest) == c as int
  {
    var n := c as int;
    SixTrail(n);
    SixTrail(n / 0x40);
    SixTrail(n / 0x40 / 0x40);
    var b, e := Encoded(c) + rest, Encoded(c);
    assert forall i :: 0 <= i < |e| ==> b[i] == e[i];
    hide Six, Trail;
  }

  lemma FirstEncoded(c: char, rest: seq<Byte>)
    ensures First(Encoded(c) + rest) == Some(c)
  {
    ScalarEncoded(c, rest);
    hide Encoded, Scalar;
  }

  /** Decoding undoes encoding. */
  lemma {:induction false} DecodesEncoded(s: string)
    ensures Decode(Encode(s)) == Some(s)
  {
    if s != [] {
      FirstEncoded(s[0], Encode(s[1..]));
      hide First, Encoded;
      var b := Encode(s);
      assert b == Encoded(s[0]) + Encode(s[1..]) && s == [s[0]] + s[1..];
      assert b[Utf8Width(s[0])..] == Encode(s[1..]);
      DecodesEncoded(s[1..]);
    }
  }

  /** Only encodings decode. */
  lemma {:induction false} EncodesDecoded(b: seq<Byte>)
    ensures Decode(b).Some? ==> Encode(Decode(b).value) == b
    decreases |b|
  {
    hide Encoded, Scalar;
    if b != [] && First(b).Some? {
      var c := First(b).value;
      var rest := b[Utf8Width(c)..];
      EncodesDecoded(rest);
      assert b == Encoded(c) + rest;
    }
  }

  lemma EncodeStep(s: string)
    ensures s == [] <==> Encode(s) == []
    ensures s != [] ==> Encode(s) == Encoded(s[0]) + Encode(s[1..]) && Encoded(s[0]) != []
  {
  }

  /** An ASCII byte is a character of its own. */
  lemma AsciiAlone(c: char, i: nat)
    requires i < |Encoded(c)| && Encoded(c)[i] < 0x80
    ensures i == 0 && |Encoded(c)| == 1 && c as int == Encoded(c)[0]
  {
  }

  lemma {:induction false} EncodeAppend(s: string, t: string)
    ensures Encode(s + t) == Encode(s) + Encode(t)
  {
    hide Encoded;
    if s == [] { assert s + t == t; }
    else {
      assert (s + t)[0] == s[0] && (s + t)[1..] == s[1..] + t;
      EncodeAppend(s[1..], t);
    }
  }

  /** An ASCII byte is in an encoding exactly if its character is in the text. */
  lemma {:induction false} AsciiIn(s: string, b: Byte)
    requires b < 0x80
    ensures b in Encode(s) <==> exists i :: 0 <= i < |s| && s[i] as int == b
  {
    if s != [] {
      AsciiIn(s[1..], b);
      var e := Encoded(s[0]);
      if s[0] as int == b { assert e == [b]; }
      forall i | 0 <= i < |e| && e[i] == b ensures s[0] as int == b { AsciiAlone(s[0], i); }
      assert Encode(s) == e + Encode(s[1..]);
      if j: nat :| j < |s[1..]| && s[1..][j] as int == b { assert s[j + 1] as int == b; }
      if i :| 0 < i < |s| && s[i] as int == b { assert s[1..][i - 1] as int == b; }
      hide Encoded;
    }
  }
}
