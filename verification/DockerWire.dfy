/** Responses written out: what a daemon sends for a body is read as that body. */
module DockerWire {
  import opened Prelude
  import opened ChunkedCoding
  import opened DockerResponse
  import Utf8

  const STATUS := "HTTP/1.1 200 OK"
  const JSON := "Content-Type: application/json"
  const CHUNKED := "Transfer-Encoding: chunked"

  function LengthField(n: nat): string { "Content-Length: " + DecText(n) }

  /** Bytes of text in ASCII. */
  function Ascii(text: string): (bytes: seq<Byte>)
    requires forall i :: 0 <= i < |text| ==> text[i] as int < 128
  {
    seq(|text|, i requires 0 <= i < |text| => text[i] as int)
  }

  lemma {:induction false} AsciiEncodes(text: string)
    requires forall i :: 0 <= i < |text| ==> text[i] as int < 128
    ensures Utf8.Encode(text) == Ascii(text)
  {
    if text == [] {
    } else {
      AsciiEncodes(text[1..]);
      assert Ascii(text) == [text[0] as int] + Ascii(text[1..]);
    }
  }

  const CONTROLS := "\t\n\U{B}\U{C}\r"
  const QUADS := "\U{2000}\U{2001}\U{2002}\U{2003}\U{2004}\U{2005}\U{2006}\U{2007}\U{2008}\U{2009}\U{200A}"

  /** The characters with the Unicode property White_Space. */
  const WHITE_SPACE :=
    CONTROLS + " " + "\U{85}" + "\U{A0}" + "\U{1680}" + QUADS
    + "\U{2028}" + "\U{2029}" + "\U{202F}" + "\U{205F}" + "\U{3000}"

  lemma SpaceExactly(c: char)
    ensures IsSpace(c) <==> c in WHITE_SPACE
  {
    Between(c, '\t', CONTROLS);
    Between(c, '\U{2000}', QUADS);
  }

  predicate Blank(s: string) { forall i :: 0 <= i < |s| ==> s[i] in WHITE_SPACE }

  /** No white space at either end. */
  predicate Bare(s: string) { s != [] ==> s[0] !in WHITE_SPACE && s[|s| - 1] !in WHITE_SPACE }

  lemma {:induction false} StartTrimmed(lead: string, rest: string)
    requires Blank(lead) && (rest != [] ==> rest[0] !in WHITE_SPACE)
    ensures TrimStart(lead + rest) == rest
  {
    hide WHITE_SPACE, IsSpace;
    if lead == [] {
      assert lead + rest == rest;
      if rest != [] { SpaceExactly(rest[0]); }
    } else {
      SpaceExactly(lead[0]);
      assert (lead + rest)[0] == lead[0] && (lead + rest)[1..] == lead[1..] + rest;
      StartTrimmed(lead[1..], rest);
    }
  }

  lemma {:induction false} EndTrimmed(rest: string, trail: string)
    requires Blank(trail) && (rest != [] ==> rest[|rest| - 1] !in WHITE_SPACE)
    ensures TrimEnd(rest + trail) == rest
  {
    hide WHITE_SPACE, IsSpace;
    if trail == [] {
      assert rest + trail == rest;
      if rest != [] { SpaceExactly(rest[|rest| - 1]); }
    } else {
      var (s, k) := (rest + trail, |trail| - 1);
      SpaceExactly(trail[k]);
      assert s[|s| - 1] == trail[k] && s[..|s| - 1] == rest + trail[..k];
      EndTrimmed(rest, trail[..k]);
    }
  }

  /** Trimming removes any white space around a value, and nothing else. */
  lemma TrimExactly(lead: string, value: string, trail: string)
    requires Blank(lead) && Bare(value) && Blank(trail)
    ensures Trim(lead + value + trail) == value
  {
    hide WHITE_SPACE, TrimStart, TrimEnd;
    if value == [] {
      assert lead + value + trail == (lead + trail) + [];
      StartTrimmed(lead + trail, []);
      EndTrimmed([], []);
      assert lead + trail + [] == lead + trail && [] + [] == "";
    } else {
      assert lead + value + trail == lead + (value + trail);
      StartTrimmed(lead, value + trail);
      EndTrimmed(value, trail);
    }
  }

  lemma ColonEnds()
    ensures ':' !in TOKEN && Blank(" ") && Blank([])
  {
    TokenExactly(':');
    SpaceExactly(' ');
  }

  /** A name of token characters, a colon, and a value with any white space around it. */
  lemma FieldRead(name: string, lead: string, value: string, trail: string)
    requires name != [] && (forall c :: c in name ==> c in TOKEN) && Blank(lead) && Bare(value) && Blank(trail)
    ensures var line := name + ":" + (lead + value + trail);
      WellFormed(line) && FieldName(line) == name && FieldValue(line) == value
  {
    hide TOKEN, WHITE_SPACE, Trim, IsNameChar, Blank, Bare;
    var line := name + ":" + (lead + value + trail);
    TrimExactly(lead, value, trail);
    ColonEnds();
    WellFormedExactly(name, lead + value + trail);
    forall i | 0 <= i < |name| ensures !HasAt(line, ":", i) {
      assert line[i..i + 1] == [name[i]] && name[i] in name;
    }
    assert line[|name|..|name| + 1] == ":";
    FirstIndex(line, ":", |name|);
    hide IndexOf;
    assert line[..|name|] == name && line[|name| + 1..] == lead + value + trail;
  }

  lemma FieldWritten(name: string, value: string)
    requires IsName(name) && value != [] && !IsSpace(value[0]) && !IsSpace(value[|value| - 1])
    ensures var line := name + ": " + value;
      WellFormed(line) && FieldName(line) == name && FieldValue(line) == value
  {
    hide TOKEN, WHITE_SPACE, WellFormed, FieldName, FieldValue, IsNameChar, IsSpace;
    forall i | 0 <= i < |name| ensures name[i] in TOKEN { TokenExactly(name[i]); }
    SpaceExactly(value[0]);
    SpaceExactly(value[|value| - 1]);
    ColonEnds();
    hide Blank;
    FieldRead(name, " ", value, []);
    assert name + ": " + value == name + ":" + (" " + value + []);
  }

  lemma CountedField(n: nat)
    ensures AllDigits(DecText(n)) && Counts(DecText(n), n)
  {
    assert ZeroChars(0) + DecText(n) == DecText(n);
    DecimalExactly(DecText(n), n);
  }

  predicate Spelled(a: string, b: string) {
    |a| == |b| && forall i :: 0 <= i < |a| ==> LowerChar(a[i]) == b[i]
  }

  lemma SpelledSame(a: string, b: string)
    requires Spelled(a, b) && Spelled(b, b)
    ensures SameIgnoringCase(a, b)
  {
    assert forall i :: 0 <= i < |a| ==> Lower(a)[i] == Lower(b)[i];
  }

  lemma LengthName()
    ensures IsName("Content-Length") && SameIgnoringCase("Content-Length", LENGTH)
  {
    SpelledSame("Content-Length", LENGTH);
  }

  lemma TransferName()
    ensures IsName("Transfer-Encoding") && SameIgnoringCase("Transfer-Encoding", TRANSFER)
  {
    SpelledSame("Transfer-Encoding", TRANSFER);
  }

  lemma TypeName()
    ensures IsName("Content-Type") && SameIgnoringCase("Content-Type", TYPE)
  {
    SpelledSame("Content-Type", TYPE);
  }

  /** A number is a value without white space or a break. */
  lemma NumberValue(n: nat)
    ensures var value := DecText(n);
      && !IsSpace(value[0]) && !IsSpace(value[|value| - 1])
      && forall i :: 0 <= i < |value| ==> value[i] != '\r'
  {
    CountedField(n);
    hide DecText, Counts;
    assert forall i :: 0 <= i < |DecText(n)| ==> IsDigit(DecText(n)[i]);
  }

  lemma LengthWritten(n: nat)
    requires n <= MAX_RESPONSE_BYTES
    ensures LengthLine(LengthField(n), n) && OneLine(LengthField(n)) && LengthField(n) != []
  {
    var name, value := "Content-Length", DecText(n);
    LengthName();
    CountedField(n);
    NumberValue(n);
    hide IsName, SameIgnoringCase, Counts, DecText, IsSpace;
    FieldWritten(name, value);
    assert LengthField(n) == name + ": " + value;
    NoReturn(LengthField(n));
    hide WellFormed, FieldName, FieldValue, OneLine;
  }

  lemma ChunkedText()
    ensures CHUNKED == "Transfer-Encoding" + ": " + "chunked" && OneLine(CHUNKED)
    ensures var value := "chunked"; !IsSpace(value[0]) && !IsSpace(value[|value| - 1])
  {
    NoReturn(CHUNKED);
    hide OneLine;
  }

  lemma ChunkedWritten()
    ensures ChunkedLine(CHUNKED) && OneLine(CHUNKED)
  {
    TransferName();
    ChunkedText();
    SameItself("chunked");
    hide IsName, SameIgnoringCase, IsSpace, OneLine, WellFormed, FieldName, FieldValue;
    FieldWritten("Transfer-Encoding", "chunked");
  }

  lemma SameItself(a: string)
    ensures SameIgnoringCase(a, a)
  {
  }

  lemma NoReturn(line: string)
    requires forall i :: 0 <= i < |line| ==> line[i] != '\r'
    ensures OneLine(line)
  {
    forall i ensures !HasAt(line, BREAK, i) {
      if 0 <= i && i + 2 <= |line| { assert line[i..i + 2][0] == line[i]; }
    }
  }

  lemma JsonWritten()
    ensures WellFormed(JSON) && FieldName(JSON) == "Content-Type" && FieldValue(JSON) == "application/json"
    ensures OneLine(JSON) && SameIgnoringCase(FieldName(JSON), TYPE)
  {
    TypeName();
    JsonText();
    hide *;
    FieldWritten("Content-Type", "application/json");
  }

  lemma JsonText()
    ensures JSON == "Content-Type" + ": " + "application/json" && OneLine(JSON)
    ensures var value := "application/json"; !IsSpace(value[0]) && !IsSpace(value[|value| - 1])
  {
    NoReturn(JSON);
    hide OneLine;
  }

  lemma BeforeAbsent(s: string, c: char)
    requires c !in s
    ensures Before(s, c) == s
  {
    forall k | 0 <= k < |s| ensures !HasAt(s, [c], k) { assert s[k..k + 1] == [s[k]]; }
  }

  lemma JsonIsJson()
    ensures IsJson("application/json")
  {
    var value := "application/json";
    BeforeAbsent(value, ';');
    assert !IsSpace(value[0]) && !IsSpace(value[|value| - 1]);
    SameItself(value);
    hide SameIgnoringCase, IsSpace, Before;
    assert TrimStart(value) == value && TrimEnd(value) == value;
  }

  function LengthHead(n: nat): seq<string> { With(STATUS, [JSON], LengthField(n), []) }

  const CHUNKED_HEAD: seq<string> := With(STATUS, [JSON], CHUNKED, [])

  lemma StatusGood()
    ensures IsStatusLine(STATUS, "200") && OneLine(STATUS)
  {
    assert STATUS[..12] == "HTTP/1.1 200" == "HTTP/1.1 " + "200";
    NoReturn(STATUS);
  }

  lemma HeadProper(line: string, n: nat)
    requires LengthLine(line, n)
    ensures Proper(With(STATUS, [JSON], line, [])[1..])
  {
    JsonWritten();
    LengthRead(line, n);
    OneName(FieldName(JSON));
    OneName(FieldName(line));
    hide WellFormed, FieldName, FieldValue, SameIgnoringCase, Counts, IsLength, Values;
    OneProper(JSON);
    OneProper(line);
    EmptyProper();
    hide Proper;
    WithProper(STATUS, [JSON], line, []);
  }

  lemma HeadGood(line: string, n: nat)
    requires LengthLine(line, n)
    ensures GoodHead(With(STATUS, [JSON], line, []), "200")
  {
    var lines := With(STATUS, [JSON], line, []);
    assert lines != [] && lines[0] == STATUS;
    StatusGood();
    HeadProper(line, n);
    hide With, Counts, FieldValue, IsStatusLine, WellFormed, SameIgnoringCase, FieldName, Values, Proper;
    HeadValues(line);
  }

  lemma LengthText(n: nat)
    ensures WellFormed(LengthField(n)) && FieldValue(LengthField(n)) == DecText(n)
  {
    LengthName();
    NumberValue(n);
    assert LengthField(n) == "Content-Length" + ": " + DecText(n);
    hide *;
    FieldWritten("Content-Length", DecText(n));
  }

  lemma HeadLines(n: nat)
    requires n <= MAX_RESPONSE_BYTES
    ensures OneLines(LengthHead(n))
  {
    LengthWritten(n);
    JsonText();
    StatusGood();
    var lines := LengthHead(n);
    assert lines[0] == STATUS && |lines| == 3 && lines[1] == JSON && lines[2] == LengthField(n);
    hide OneLine, LengthHead, LengthLine;
  }

  /** The head with a length is good and carries the body. */
  lemma LengthCarries(body: seq<Byte>)
    requires |body| <= MAX_RESPONSE_BYTES
    ensures OneLines(LengthHead(|body|)) && Carries(LengthHead(|body|), body, body)
  {
    var n, line := |body|, LengthField(|body|);
    HeadLines(n);
    LengthWritten(n);
    JsonIsJson();
    CountedField(n);
    LengthText(n);
    hide FieldValue, Counts, IsJson, WellFormed, SameIgnoringCase, FieldName, Values, GoodHead, DecText, With, OneLines;
    HeadGood(line, n);
    HeadValues(line);
    assert LengthHead(n) == With(STATUS, [JSON], line, []);
  }

  lemma EmptyProper()
    ensures Proper([])
  {
  }

  lemma HeadValues(line: string)
    requires WellFormed(line) && SameIgnoringCase(FieldName(line), LENGTH)
    ensures var fields := With(STATUS, [JSON], line, [])[1..];
      && Values(fields, LENGTH) == [FieldValue(line)] && Values(fields, TRANSFER) == []
      && Values(fields, TYPE) == ["application/json"]
  {
    JsonWritten();
    OneName(FieldName(JSON));
    OneName(FieldName(line));
    hide WellFormed, FieldName, FieldValue, SameIgnoringCase;
    forall name | name in {LENGTH, TRANSFER, TYPE}
      ensures Values(With(STATUS, [JSON], line, [])[1..], name) == Values([JSON], name) + Values([line], name)
    {
      WithValues(STATUS, [JSON], line, [], name);
      assert Values([], name) == [];
    }
    OneValue(JSON, LENGTH);
    OneValue(JSON, TRANSFER);
    OneValue(JSON, TYPE);
    OneValue(line, LENGTH);
    OneValue(line, TRANSFER);
    OneValue(line, TYPE);
    hide Values, With;
  }

  /** With a length in decimal. */
  lemma LengthForm(body: seq<Byte>)
    requires |body| <= MAX_RESPONSE_BYTES
    ensures Payload(Message(LengthHead(|body|), body)) == Some(body)
  {
    LengthCarries(body);
    hide Carries, LengthHead, Payload;
    ResponseExactly(Message(LengthHead(|body|), body), body);
  }

  lemma LinesGood(line: string)
    requires OneLine(line)
    ensures OneLines([line]) && OneLines([])
  {
    hide OneLine;
  }

  lemma JsonThere()
    ensures JSON != []
  {
  }

  /** In chunks whose sizes are printed in hexadecimal. */
  lemma ChunkedForm(parts: seq<Part>, last: seq<Byte>)
    requires GoodParts(parts) && GoodLast(last) && |Body(parts)| <= MAX_RESPONSE_BYTES
    ensures Payload(Message(CHUNKED_HEAD, Encode(parts, last))) == Some(Body(parts))
  {
    var body := Body(parts);
    assert LengthHead(|body|) == With(STATUS, [JSON], LengthField(|body|), []);
    hide *;
    LengthForm(body);
    LengthWritten(|body|);
    ChunkedWritten();
    JsonWritten();
    StatusGood();
    LinesGood(JSON);
    JsonThere();
    FormsAgree(STATUS, [JSON], [], LengthField(|body|), CHUNKED, body, parts, last);
  }

  /** Any cut of a body into nonempty chunks of at most 64 KiB, with the sizes as printed. */
  function Printed(chunks: seq<seq<Byte>>): seq<Part> {
    seq(|chunks|, i requires 0 <= i < |chunks| => Part(HexText(|chunks[i]|), chunks[i]))
  }

  lemma ShortNumeral(n: nat)
    requires n <= MAX_RESPONSE_BYTES
    ensures |HexText(n)| <= 5
  {
    assert |HexText(n / 16 / 16 / 16 / 16)| == 1 by { assert n / 16 / 16 / 16 / 16 < 16; }
    assert |HexText(n / 16 / 16 / 16)| <= 2;
    assert |HexText(n / 16 / 16)| <= 3;
    assert |HexText(n / 16)| <= 4;
  }

  /** A printed number is a numeral. */
  lemma {:induction false} PrintedIsNumeral(n: nat)
    ensures Lowered(HexText(n)) == HexText(n) && Prints(HexText(n), n)
  {
    var text := HexText(n);
    if n < 16 {
      assert Lowered(text) == text;
    } else {
      PrintedIsNumeral(n / 16);
      assert Lowered(text) == Lowered(HexText(n / 16)) + [DIGITS[n % 16]];
    }
    assert Zeros(0) + text == text;
  }

  lemma {:induction false} BodyHolds(parts: seq<Part>, i: nat)
    requires i < |parts|
    ensures |parts[i].data| <= |Body(parts)|
  {
    if i > 0 { BodyHolds(parts[1..], i - 1); }
  }

  lemma PrintedForm(chunks: seq<seq<Byte>>)
    requires forall i :: 0 <= i < |chunks| ==> chunks[i] != []
    requires |Body(Printed(chunks))| <= MAX_RESPONSE_BYTES
    ensures Payload(Message(CHUNKED_HEAD, Encode(Printed(chunks), Ascii("0")))) == Some(Body(Printed(chunks)))
  {
    var parts := Printed(chunks);
    forall i | 0 <= i < |parts| ensures GoodPart(parts[i]) {
      BodyHolds(parts, i);
      ShortNumeral(|chunks[i]|);
      PrintedIsNumeral(|chunks[i]|);
    }
    assert GoodLast(Ascii("0")) by {
      PrintedIsNumeral(0);
      assert HexText(0) == [48] == Ascii("0");
    }
    hide GoodPart, GoodLast, Payload;
    ChunkedForm(parts, Ascii("0"));
  }
}
