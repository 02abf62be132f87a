/**
 * Strict HTTP responses: the status line, the header fields, and the framing of the
 * body (sections 6.2 and 6.3 of RFC 9112).
 */
module DockerResponse {
  import opened Prelude
  import opened ChunkedCoding
  import Utf8

  const BREAK := "\r\n"

  datatype Framing = ContentLength(length: nat) | Chunked

  datatype Head = Head(status: nat, framing: Framing, contentType: string)

  /** The header fields that matter, as far as they were read. */
  datatype Fields = Fields(contentLength: Option<nat>, transferEncoding: Option<string>, contentType: Option<string>)

  // ---- Text -------------------------------------------------------------

  /** Unicode white space, which `trim` removes. */
  predicate IsSpace(c: char) {
    var n := c as int;
    || 9 <= n <= 13 || n == 32 || n == 0x85 || n == 0xA0 || n == 0x1680 || 0x2000 <= n <= 0x200A
    || n == 0x2028 || n == 0x2029 || n == 0x202F || n == 0x205F || n == 0x3000
  }

  function TrimStart(s: string): string { if s != [] && IsSpace(s[0]) then TrimStart(s[1..]) else s }

  function TrimEnd(s: string): string { if s != [] && IsSpace(s[|s| - 1]) then TrimEnd(s[..|s| - 1]) else s }

  function Trim(s: string): string { TrimEnd(TrimStart(s)) }

  predicate IsDigit(c: char) { '0' <= c <= '9' }

  predicate AllDigits(s: string) { forall i :: 0 <= i < |s| ==> IsDigit(s[i]) }

  function Decimal(s: string): nat
    requires AllDigits(s)
  {
    if s == [] then 0 else Decimal(s[..|s| - 1]) * 10 + (s[|s| - 1] as int - '0' as int)
  }

  // How `n` is printed in decimal, and numerals with leading zeros.

  function DecText(n: nat): (text: string)
    ensures text != []
  {
    (if n < 10 then [] else DecText(n / 10)) + ["0123456789"[n % 10]]
  }

  function ZeroChars(k: nat): string { seq(k, _ => '0') }

  /** `text` is `n` printed in decimal, after any number of zeros. */
  predicate Counts(text: string, n: nat) {
    |DecText(n)| <= |text| && text == ZeroChars(|text| - |DecText(n)|) + DecText(n)
  }

  lemma CountsDigit(c: char, n: nat)
    ensures Counts([c], n) <==> IsDigit(c) && c as int - '0' as int == n
  {
    if n < 10 {
      assert DecText(n) == ["0123456789"[n]] && ZeroChars(0) + DecText(n) == DecText(n);
    } else {
      assert |DecText(n)| >= 2;
    }
  }

  /** The last digit and the rest. */
  lemma CountsMore(front: string, c: char, n: nat)
    requires front != []
    ensures Counts(front + [c], n) <==> Counts(front, n / 10) && c == "0123456789"[n % 10]
  {
    var text, last := front + [c], "0123456789"[n % 10];
    assert text[..|front|] == front && text[|front|] == c;
    if n < 10 {
      var k := |front|;
      assert DecText(n) == [last] && DecText(n / 10) == "0";
      assert ZeroChars(k) == ZeroChars(k - 1) + "0";
      assert (ZeroChars(k) + [last])[..k] == ZeroChars(k);
    } else if |DecText(n)| <= |text| {
      var high := ZeroChars(|text| - |DecText(n)|) + DecText(n / 10);
      assert ZeroChars(|text| - |DecText(n)|) + DecText(n) == high + [last];
      assert (high + [last])[..|high|] == high;
    }
  }

  /** Reading one digit more. */
  lemma DecimalMore(front: string, c: char, n: nat)
    ensures AllDigits(front + [c]) <==> AllDigits(front) && IsDigit(c)
    ensures AllDigits(front) && IsDigit(c) ==>
      (Decimal(front + [c]) == n <==> Decimal(front) == n / 10 && c == "0123456789"[n % 10])
  {
    var text := front + [c];
    assert text[..|front|] == front && text[|front|] == c;
    assert AllDigits(text) ==> forall i :: 0 <= i < |front| ==> front[i] == text[i];
  }

  /** Reading digits gives the number that prints as them. */
  lemma {:induction false} DecimalExactly(text: string, n: nat)
    requires text != []
    ensures Counts(text, n) <==> AllDigits(text) && Decimal(text) == n
    decreases |text|
  {
    hide Counts;
    var front, c := text[..|text| - 1], text[|text| - 1];
    assert text == front + [c];
    if front == [] {
      CountsDigit(c, n);
      assert text == [c];
    } else {
      CountsMore(front, c, n);
      DecimalExactly(front, n / 10);
      DecimalMore(front, c, n);
      hide Decimal, AllDigits;
    }
  }

  /** `eq_ignore_ascii_case`. */
  predicate SameIgnoringCase(a: string, b: string) { Lower(a) == Lower(b) }

  predicate IsNameChar(c: char) {
    'a' <= c <= 'z' || 'A' <= c <= 'Z' || IsDigit(c) || c in "!#$%&'*+-.^_`|~"
  }

  predicate IsName(s: string) { s != [] && forall i :: 0 <= i < |s| ==> IsNameChar(s[i]) }

  /** What is before the first occurrence of `c`. */
  function Before(s: string, c: char): string {
    var i := IndexOf(s, [c]);
    if i.Some? then s[..i.value] else s
  }

  // ---- Lines ------------------------------------------------------------

  /** `split("\r\n")`. */
  function Split(text: string): (lines: seq<string>)
    ensures lines != []
    decreases |text|
  {
    var end := IndexOf(text, BREAK);
    if end.None? then [text] else [text[..end.value]] + Split(text[end.value + 2..])
  }

  function Join(lines: seq<string>): string
    requires lines != []
  {
    if |lines| == 1 then lines[0] else lines[0] + BREAK + Join(lines[1..])
  }

  ghost predicate OneLine(line: string) { forall i :: !HasAt(line, BREAK, i) }

  lemma LineEnds(line: string, rest: string)
    requires OneLine(line)
    ensures IndexOf(line + BREAK + rest, BREAK) == Some(|line|)
    ensures (line + BREAK + rest)[..|line|] == line && (line + BREAK + rest)[|line| + 2..] == rest
  {
    var text := line + BREAK + rest;
    assert text[|line|..|line| + 2] == BREAK;
    forall i | 0 <= i < |line| ensures !HasAt(text, BREAK, i) {
      if i + 2 <= |line| {
        assert text[i..i + 2] == line[i..i + 2] && !HasAt(line, BREAK, i);
      } else {
        assert text[i..i + 2][1] == BREAK[0];
      }
    }
    FirstIndex(text, BREAK, |line|);
  }

  lemma NoBreak(text: string)
    requires OneLine(text)
    ensures IndexOf(text, BREAK) == None
  {
    var i := IndexOf(text, BREAK);
  }

  /** Splitting undoes joining. */
  lemma {:induction false} SplitJoin(lines: seq<string>)
    requires lines != [] && OneLines(lines)
    ensures Split(Join(lines)) == lines
  {
    if |lines| == 1 {
      NoBreak(lines[0]);
    } else {
      SplitJoin(lines[1..]);
      LineEnds(lines[0], Join(lines[1..]));
    }
  }

  /** The lines of a text have no break in them, and joined again are the text. */
  lemma {:induction false} JoinSplit(text: string)
    ensures Join(Split(text)) == text && OneLines(Split(text))
    decreases |text|
  {
    IndexIsFirst(text, BREAK);
    var end := IndexOf(text, BREAK);
    if end.Some? {
      var line, rest := text[..end.value], text[end.value + 2..];
      JoinSplit(rest);
      assert text == line + BREAK + rest;
      forall i ensures !HasAt(line, BREAK, i) { assert HasAt(line, BREAK, i) ==> HasAt(text, BREAK, i); }
    }
  }

  ghost predicate OneLines(lines: seq<string>) { forall i :: 0 <= i < |lines| ==> OneLine(lines[i]) }

  // ---- Header fields ----------------------------------------------------

  function StatusOf(line: string): Option<nat> {
    var first := IndexOf(line, " ");
    if first.None? || line[..first.value] != "HTTP/1.1" then None
    else
      var code := Before(line[first.value + 1..], ' ');
      if |code| == 3 && AllDigits(code) then Some(Decimal(code)) else None
  }

  /** A field name, a colon, and a value; no folded line. */
  predicate WellFormed(line: string) {
    && line != [] && line[0] != ' ' && line[0] != '\t'
    && IndexOf(line, ":").Some? && IsName(line[..IndexOf(line, ":").value])
  }

  /** The characters of a field name: section 5.6.2 of RFC 9110. */
  const TOKEN := "!#$%&'*+-.^_`|~" + "0123456789" + "ABCDEFGHIJKLMNOPQRSTUVWXYZ" + "abcdefghijklmnopqrstuvwxyz"

  /** The characters of a run are those between its first and its last. */
  lemma Between(c: char, first: char, run: string)
    requires run != [] && forall i :: 0 <= i < |run| ==> run[i] as int == first as int + i
    ensures c in run <==> first as int <= c as int < first as int + |run|
  {
    if first as int <= c as int < first as int + |run| { assert c == run[c as int - first as int]; }
  }

  lemma TokenExactly(c: char)
    ensures IsNameChar(c) <==> c in TOKEN
  {
    Between(c, '0', "0123456789");
    Between(c, 'A', "ABCDEFGHIJKLMNOPQRSTUVWXYZ");
    Between(c, 'a', "abcdefghijklmnopqrstuvwxyz");
  }

  /** A line is well formed exactly if a name of token characters comes before its first colon. */
  lemma WellFormedExactly(name: string, value: string)
    requires ':' !in name
    ensures WellFormed(name + ":" + value) <==> name != [] && forall c :: c in name ==> c in TOKEN
    ensures !WellFormed(name)
  {
    var line := name + ":" + value;
    assert HasAt(line, ":", |name|);
    forall i | 0 <= i < |name| ensures !HasAt(line, ":", i) && !HasAt(name, ":", i) {
      assert line[i..i + 1] == name[i..i + 1] == [name[i]] && name[i] != ':';
    }
    FirstIndex(line, ":", |name|);
    assert line[..|name|] == name && (name != [] ==> line[0] == name[0] && name[0] in name);
    assert IndexOf(name, ":") == None;
    forall c | c in name ensures IsNameChar(c) <==> c in TOKEN { TokenExactly(c); }
    TokenExactly(' ');
    TokenExactly('\t');
    hide IsNameChar, HasAt, IndexOf;
    hide TOKEN;
  }

  function FieldName(line: string): string
    requires WellFormed(line)
  {
    line[..IndexOf(line, ":").value]
  }

  function FieldValue(line: string): string
    requires WellFormed(line)
  {
    Trim(line[IndexOf(line, ":").value + 1..])
  }

  /** One header line added to the fields. */
  function AddLine(f: Fields, line: string): Option<Fields> {
    if WellFormed(line) then AddField(f, FieldName(line), FieldValue(line)) else None
  }

  const LENGTH := "content-length"
  const TRANSFER := "transfer-encoding"
  const TYPE := "content-type"
  const CODING := "content-encoding"

  function AddField(f: Fields, name: string, value: string): Option<Fields> {
    if SameIgnoringCase(name, LENGTH) then
      if f.contentLength.Some? || !IsLength(value) then None else Some(f.(contentLength := Some(Decimal(value))))
    else if SameIgnoringCase(name, TRANSFER) then
      if f.transferEncoding.Some? then None else Some(f.(transferEncoding := Some(value)))
    else if SameIgnoringCase(name, TYPE) then
      if f.contentType.Some? then None else Some(f.(contentType := Some(value)))
    else if SameIgnoringCase(name, CODING) && !SameIgnoringCase(value, "identity") then None
    else Some(f)
  }

  predicate IsLength(value: string) { value != [] && AllDigits(value) && Decimal(value) <= MAX_RESPONSE_BYTES }

  function AddLines(f: Fields, lines: seq<string>): Option<Fields>
    decreases |lines|
  {
    if lines == [] then Some(f)
    else
      var g := AddLine(f, lines[0]);
      if g.None? then None else AddLines(g.value, lines[1..])
  }

  function FramingOf(f: Fields): Option<Framing> {
    match (f.contentLength, f.transferEncoding)
    case (Some(_), Some(_)) => None
    case (Some(n), None) => Some(ContentLength(n))
    case (None, Some(e)) => if SameIgnoringCase(e, "chunked") then Some(Chunked) else None
    case (None, None) => None
  }

  function HeadOf(lines: seq<string>): Option<Head>
    requires lines != []
  {
    var status, fields := StatusOf(lines[0]), AddLines(Fields(None, None, None), lines[1..]);
    if status.None? || fields.None? || fields.value.contentType.None? then None
    else
      var framing := FramingOf(fields.value);
      if framing.None? then None else Some(Head(status.value, framing.value, fields.value.contentType.value))
  }

  /** `parse_headers`, on the text of the header section. */
  method ParseHeaders(text: string) returns (r: Option<Head>)
    ensures r == HeadOf(Split(text))
  {
    hide AddLine, Split, StatusOf, FramingOf;
    var lines := Split(text);
    var status := StatusOf(lines[0]);
    if status.None? { return None; }
    var fields := Fields(None, None, None);
    var i := 1;
    while i < |lines|
      invariant 1 <= i <= |lines|
      invariant AddLines(fields, lines[i..]) == AddLines(Fields(None, None, None), lines[1..])
    {
      assert lines[i..][1..] == lines[i + 1..];
      var next := AddLine(fields, lines[i]);
      if next.None? { return None; }
      fields := next.value;
      i := i + 1;
    }
    if fields.contentType.None? { return None; }
    var framing := FramingOf(fields);
    if framing.None? { return None; }
    return Some(Head(status.value, framing.value, fields.contentType.value));
  }

  // ---- What is accepted ---------------------------------------------------

  /** The values of the fields with this name, in any case, in their order. */
  function Values(lines: seq<string>, name: string): seq<string> {
    if lines == [] then []
    else (if WellFormed(lines[0]) && SameIgnoringCase(FieldName(lines[0]), name) then [FieldValue(lines[0])] else [])
         + Values(lines[1..], name)
  }

  /** Every line is well formed, every length is one, and nothing is content-coded. */
  predicate Proper(lines: seq<string>) {
    && (forall i :: 0 <= i < |lines| ==> WellFormed(lines[i]))
    && (forall v :: v in Values(lines, LENGTH) ==> IsLength(v))
    && (forall v :: v in Values(lines, CODING) ==> SameIgnoringCase(v, "identity"))
  }

  /** Exactly one length, or exactly one transfer coding, which is `chunked`. */
  predicate FramedBy(lengths: seq<string>, codings: seq<string>) {
    || (|lengths| == 1 && codings == [])
    || (lengths == [] && |codings| == 1 && SameIgnoringCase(codings[0], "chunked"))
  }

  predicate OneFraming(lines: seq<string>) { FramedBy(Values(lines, LENGTH), Values(lines, TRANSFER)) }

  /** The status line starts with `HTTP/1.1`, a space, and exactly three digits. */
  predicate IsStatusLine(line: string, code: string) {
    && |code| == 3 && AllDigits(code)
    && "HTTP/1.1 " + code <= line && (|line| == 12 || line[12] == ' ')
  }

  /** A head the parser takes: status line, well-formed fields, one content type, one framing. */
  ghost predicate GoodHead(lines: seq<string>, code: string) {
    && lines != [] && IsStatusLine(lines[0], code)
    && Proper(lines[1..]) && |Values(lines[1..], TYPE)| == 1 && OneFraming(lines[1..])
  }

  lemma StatusRead(line: string, code: string)
    requires IsStatusLine(line, code)
    ensures StatusOf(line) == Some(Decimal(code)) && line[9..12] == code
  {
    var head := "HTTP/1.1 " + code;
    assert line[..12] == head && line[..9] == head[..9] == "HTTP/1.1 " && line[9..12] == head[9..] == code;
    assert line[..8] == line[..9][..8] == "HTTP/1.1" && line[8..9] == [line[..9][8]] == " ";
    forall i | 0 <= i < 8
      ensures !HasAt(line, " ", i)
    {
      assert line[i] == "HTTP/1.1"[i] && line[i..i + 1] == [line[i]];
    }
    FirstIndex(line, " ", 8);
    var rest := line[9..];
    assert rest[..3] == code;
    forall i | 0 <= i < 3
      ensures !HasAt(rest, [' '], i)
    {
      assert rest[i] == code[i] && IsDigit(code[i]) && rest[i..i + 1] == [rest[i]];
    }
    if |line| > 12 {
      assert rest[3..4] == [' '];
      FirstIndex(rest, [' '], 3);
    } else {
      assert rest == code;
      var i := IndexOf(rest, [' ']);
      assert i.Some? ==> HasAt(rest, [' '], i.value);
    }
    hide Decimal;
  }

  lemma StatusWritten(line: string)
    requires StatusOf(line).Some?
    ensures |line| >= 12 && IsStatusLine(line, line[9..12])
  {
    var first := IndexOf(line, " ").value;
    assert line[first..first + 1] == " " && line[first] == ' ' && line[..first] == "HTTP/1.1";
    var rest := line[9..];
    var next := IndexOf(rest, [' ']);
    var code := Before(rest, ' ');
    assert code == rest[..3] == line[9..12];
    if next.Some? { assert rest[3..4] == [' '] && line[12] == rest[3]; } else { assert code == rest; }
    assert line[..12] == line[..8] + line[8..9] + line[9..12];
    hide Decimal;
  }

  function One<T>(o: Option<T>): nat { if o.Some? then 1 else 0 }

  /** A field after more of its values. */
  function Added(o: Option<string>, values: seq<string>): Option<string> { if values == [] then o else Some(values[0]) }

  function LengthAdded(o: Option<nat>, values: seq<string>): Option<nat> {
    if values == [] || !IsLength(values[0]) then o else Some(Decimal(values[0]))
  }

  /** The lines can be added: proper, and no field a second time. */
  predicate Addable(f: Fields, lines: seq<string>) {
    && Proper(lines)
    && One(f.contentLength) + |Values(lines, LENGTH)| <= 1
    && One(f.transferEncoding) + |Values(lines, TRANSFER)| <= 1
    && One(f.contentType) + |Values(lines, TYPE)| <= 1
  }

  function AllAdded(f: Fields, lines: seq<string>): Fields {
    Fields(LengthAdded(f.contentLength, Values(lines, LENGTH)), Added(f.transferEncoding, Values(lines, TRANSFER)),
           Added(f.contentType, Values(lines, TYPE)))
  }

  lemma LowerLength(a: string, b: string)
    ensures SameIgnoringCase(a, b) ==> |a| == |b|
  {
    assert |Lower(a)| == |a| && |Lower(b)| == |b|;
  }

  lemma {:induction false} ValuesAppend(a: seq<string>, b: seq<string>, name: string)
    ensures Values(a + b, name) == Values(a, name) + Values(b, name)
  {
    hide WellFormed, FieldName, FieldValue, SameIgnoringCase;
    if a == [] { assert a + b == b; }
    else {
      assert (a + b)[0] == a[0] && (a + b)[1..] == a[1..] + b;
      ValuesAppend(a[1..], b, name);
    }
  }

  lemma OneValue(line: string, name: string)
    ensures Values([line], name) ==
      if WellFormed(line) && SameIgnoringCase(FieldName(line), name) then [FieldValue(line)] else []
  {
    hide WellFormed, FieldName, FieldValue, SameIgnoringCase;
    assert [line][1..] == [];
  }

  lemma ProperAppend(a: seq<string>, b: seq<string>)
    ensures Proper(a + b) <==> Proper(a) && Proper(b)
  {
    ValuesAppend(a, b, LENGTH);
    ValuesAppend(a, b, CODING);
    hide WellFormed, IsLength, SameIgnoringCase, Values;
    if Proper(a + b) {
      forall i | 0 <= i < |a| ensures WellFormed(a[i]) { assert (a + b)[i] == a[i]; }
      forall i | 0 <= i < |b| ensures WellFormed(b[i]) { assert (a + b)[|a| + i] == b[i]; }
    }
  }

  lemma OneProper(line: string)
    ensures Proper([line]) <==>
      && WellFormed(line)
      && (SameIgnoringCase(FieldName(line), LENGTH) ==> IsLength(FieldValue(line)))
      && (SameIgnoringCase(FieldName(line), CODING) ==> SameIgnoringCase(FieldValue(line), "identity"))
  {
    OneValue(line, LENGTH);
    OneValue(line, CODING);
    assert [line][0] == line && Values([line], LENGTH) + [] == Values([line], LENGTH);
    hide WellFormed, FieldName, FieldValue, SameIgnoringCase, IsLength, Values;
    assert WellFormed(line) ==> forall i :: 0 <= i < |[line]| ==> WellFormed([line][i]);
  }

  /** The four field names have different lengths. */
  lemma OneName(name: string)
    ensures SameIgnoringCase(name, LENGTH) ==> |name| == 14
    ensures SameIgnoringCase(name, TRANSFER) ==> |name| == 17
    ensures SameIgnoringCase(name, TYPE) ==> |name| == 12
    ensures SameIgnoringCase(name, CODING) ==> |name| == 16
  {
    LowerLength(name, LENGTH);
    LowerLength(name, TRANSFER);
    LowerLength(name, TYPE);
    LowerLength(name, CODING);
  }

  lemma LineAdds(f: Fields, line: string)
    ensures AddLine(f, line) == if Addable(f, [line]) then Some(AllAdded(f, [line])) else None
  {
    OneProper(line);
    OneValue(line, LENGTH);
    OneValue(line, TRANSFER);
    OneValue(line, TYPE);
    if WellFormed(line) { OneName(FieldName(line)); }
    hide Proper, Values, WellFormed, FieldName, FieldValue, SameIgnoringCase, IsLength;
  }

  lemma AddsOn(f: Fields, line: string, rest: seq<string>)
    ensures Addable(f, [line] + rest) <==> Addable(f, [line]) && Addable(AllAdded(f, [line]), rest)
    ensures Addable(f, [line] + rest) ==> AllAdded(AllAdded(f, [line]), rest) == AllAdded(f, [line] + rest)
  {
    ProperAppend([line], rest);
    ValuesAppend([line], rest, LENGTH);
    ValuesAppend([line], rest, TRANSFER);
    ValuesAppend([line], rest, TYPE);
    assert Proper([line]) && Values([line], LENGTH) != [] ==> IsLength(Values([line], LENGTH)[0]);
    if Proper([line]) { AddsLength(f.contentLength, Values([line], LENGTH), Values(rest, LENGTH)); }
    hide Proper, Values, IsLength, Decimal, LengthAdded;
    AddsText(f.transferEncoding, Values([line], TRANSFER), Values(rest, TRANSFER));
    AddsText(f.contentType, Values([line], TYPE), Values(rest, TYPE));
    hide Added;
  }

  lemma AddsLength(o: Option<nat>, x: seq<string>, y: seq<string>)
    requires x != [] ==> IsLength(x[0])
    ensures One(o) + |x| <= 1 ==> One(LengthAdded(o, x)) == One(o) + |x|
    ensures One(o) + |x + y| <= 1 ==> LengthAdded(LengthAdded(o, x), y) == LengthAdded(o, x + y)
  {
    hide IsLength, Decimal;
    if x != [] { assert (x + y)[0] == x[0]; } else { assert x + y == y; }
  }

  lemma AddsText(o: Option<string>, x: seq<string>, y: seq<string>)
    ensures One(o) + |x| <= 1 ==> One(Added(o, x)) == One(o) + |x|
    ensures One(o) + |x + y| <= 1 ==> Added(Added(o, x), y) == Added(o, x + y)
  {
    if x != [] { assert (x + y)[0] == x[0]; } else { assert x + y == y; }
  }

  /** Adding all lines succeeds exactly on proper lines without a repeated field. */
  lemma {:induction false} AddsExactly(f: Fields, lines: seq<string>)
    ensures AddLines(f, lines) == if Addable(f, lines) then Some(AllAdded(f, lines)) else None
    decreases |lines|
  {
    if lines != [] {
      assert lines == [lines[0]] + lines[1..];
      LineAdds(f, lines[0]);
      AddsOn(f, lines[0], lines[1..]);
      AddsExactly(AllAdded(f, [lines[0]]), lines[1..]);
      hide AddLine, Addable, AllAdded;
    }
  }

  const EMPTY: Fields := Fields(None, None, None)

  /** The head of good lines. */
  function TheHead(lines: seq<string>, code: string): Head
    requires lines != [] && |Values(lines[1..], TYPE)| == 1 && AllDigits(code)
  {
    var length := LengthAdded(None, Values(lines[1..], LENGTH));
    Head(Decimal(code), if length.Some? then ContentLength(length.value) else Chunked, Values(lines[1..], TYPE)[0])
  }

  /** The parser takes exactly the good heads, and reports what is in them. */
  lemma HeadExactly(lines: seq<string>, code: string)
    requires lines != []
    ensures GoodHead(lines, code) ==> HeadOf(lines) == Some(TheHead(lines, code))
    ensures HeadOf(lines).Some? ==> |lines[0]| >= 12 && GoodHead(lines, lines[0][9..12])
  {
    if IsStatusLine(lines[0], code) { StatusRead(lines[0], code); }
    if StatusOf(lines[0]).Some? { StatusWritten(lines[0]); }
    AddsExactly(EMPTY, lines[1..]);
    if Addable(EMPTY, lines[1..]) { FramingExactly(lines[1..]); }
    hide Values, IsStatusLine, StatusOf, IsLength, WellFormed, SameIgnoringCase, Decimal, AddLines, LengthAdded;
    hide OneFraming, FramingOf, Proper;
  }

  lemma FramingExactly(lines: seq<string>)
    requires Addable(EMPTY, lines)
    ensures var f := AllAdded(EMPTY, lines);
      var length := LengthAdded(None, Values(lines, LENGTH));
      FramingOf(f) ==
        if !OneFraming(lines) then None else if length.Some? then Some(ContentLength(length.value)) else Some(Chunked)
  {
    var lengths := Values(lines, LENGTH);
    if lengths != [] { assert lengths[0] in lengths; }
    hide Values, IsLength, SameIgnoringCase, Decimal;
  }

  // ---- The whole response ---------------------------------------------------

  const BLANK: seq<Byte> := CRLF + CRLF

  predicate IsJson(contentType: string) { SameIgnoringCase(Trim(Before(contentType, ';')), "application/json") }

  function PayloadOf(lines: seq<string>, body: seq<Byte>): Option<seq<Byte>>
    requires lines != []
  {
    var head := HeadOf(lines);
    if head.None? || head.value.status != 200 || !IsJson(head.value.contentType) then None
    else match head.value.framing
      case ContentLength(n) => if n == |body| then Some(body) else None
      case Chunked => Decode(body, MAX_RESPONSE_BYTES)
  }

  /** The decoded body of an acceptable response. */
  function Payload(response: seq<Byte>): Option<seq<Byte>> {
    var end := IndexOf(response, BLANK);
    if end.None? then None
    else
      var text := Utf8.Decode(response[..end.value]);
      if text.None? then None else PayloadOf(Split(text.value), response[end.value + 4..])
  }

  /** The head says JSON with status 200, and its framing makes the body carry exactly `payload`. */
  ghost predicate Carries(lines: seq<string>, body: seq<Byte>, payload: seq<Byte>) {
    && GoodHead(lines, "200") && IsJson(Values(lines[1..], TYPE)[0])
    && var lengths := Values(lines[1..], LENGTH);
       if lengths != [] then Counts(lengths[0], |body|) && payload == body
       else |payload| <= MAX_RESPONSE_BYTES && exists parts, last :: IsEncoding(body, parts, last, payload)
  }

  function Message(lines: seq<string>, body: seq<Byte>): seq<Byte>
    requires lines != []
  {
    Utf8.Encode(Join(lines)) + BLANK + body
  }

  /** `response` is a message whose lines and body carry `payload`. */
  ghost predicate Accepted(response: seq<Byte>, payload: seq<Byte>) {
    exists lines, body ::
      lines != [] && OneLines(lines) && response == Message(lines, body) && Carries(lines, body, payload)
  }

  lemma CodeIs200(code: string)
    requires |code| == 3 && AllDigits(code)
    ensures Decimal(code) == 200 <==> code == "200"
  {
    assert code == [code[0], code[1], code[2]];
    assert code[..2] == [code[0], code[1]] && code[..2][..1] == [code[0]] && code[..2][..1][..0] == [];
    assert Decimal(code[..2][..1]) == code[0] as int - '0' as int;
  }

  lemma GoodLengths(lines: seq<string>, n: nat)
    requires Proper(lines)
    ensures var lengths := Values(lines, LENGTH);
      lengths != [] ==> IsLength(lengths[0]) && (Decimal(lengths[0]) == n <==> Counts(lengths[0], n))
  {
    var lengths := Values(lines, LENGTH);
    hide Counts;
    if lengths != [] {
      assert lengths[0] in lengths;
      DecimalExactly(lengths[0], n);
    }
  }

  lemma PayloadExactly(lines: seq<string>, body: seq<Byte>, payload: seq<Byte>)
    requires lines != []
    ensures PayloadOf(lines, body) == Some(payload) <==> Carries(lines, body, payload)
  {
    DecodesExactly(body, payload);
    if HeadOf(lines).Some? {
      HeadExactly(lines, "200");
      var code := lines[0][9..12];
      CodeIs200(code);
      HeadExactly(lines, code);
    }
    if GoodHead(lines, "200") {
      HeadExactly(lines, "200");
      CodeIs200("200");
      GoodLengths(lines[1..], |body|);
    }
    hide HeadOf, Values, IsJson, Decode, Proper, Decimal, IsEncoding, Counts, IsStatusLine, OneFraming;
  }

  // ---- Where the head ends ----------------------------------------------------

  lemma BreakBytes(text: seq<Byte>, i: nat)
    requires i + 2 <= |text|
    ensures HasAt(text, CRLF, i) <==> text[i] == CR && text[i + 1] == LF
  {
  }

  /** A break in the bytes of a line is one in the line. */
  lemma {:induction false} EncodedOneLine(line: string, i: nat)
    requires HasAt(Utf8.Encode(line), CRLF, i)
    ensures exists j :: HasAt(line, BREAK, j)
    decreases |line|
  {
    Utf8.EncodeStep(line);
    hide Utf8.Encode, Utf8.Encoded;
    var b := Utf8.Encode(line);
    BreakBytes(b, i);
    var e, rest := Utf8.Encoded(line[0]), Utf8.Encode(line[1..]);
    assert b == e + rest;
    if i >= |e| {
      BreakBytes(rest, i - |e|);
      EncodedOneLine(line[1..], i - |e|);
      var j :| HasAt(line[1..], BREAK, j);
      assert line[1..][j..j + 2] == line[j + 1..j + 3];
      assert HasAt(line, BREAK, j + 1);
    } else {
      Utf8.AsciiAlone(line[0], i);
      assert rest[0] == LF;
      Utf8.EncodeStep(line[1..]);
      Utf8.AsciiAlone(line[1], 0);
      assert line[0..2] == BREAK;
      assert HasAt(line, BREAK, 0);
    }
  }

  /** The head and the blank line after it. */
  function Section(lines: seq<seq<Byte>>): seq<Byte>
    requires lines != []
  {
    lines[0] + CRLF + if |lines| == 1 then CRLF else Section(lines[1..])
  }

  ghost predicate Solid(line: seq<Byte>) { forall i :: !HasAt(line, CRLF, i) }

  lemma BlankBytes(text: seq<Byte>, i: nat)
    requires i + 4 <= |text|
    ensures HasAt(text, BLANK, i) <==> text[i] == CR && text[i + 1] == LF && text[i + 2] == CR && text[i + 3] == LF
  {
  }

  /** A line is followed by no blank line before its own break. */
  lemma NoBlankIn(line: seq<Byte>, rest: seq<Byte>, i: nat)
    requires Solid(line) && i < |line|
    ensures !HasAt(line + CRLF + rest, BLANK, i)
  {
    var text := line + CRLF + rest;
    if i + 2 <= |line| { BreakBytes(line, i); }
    assert !(text[i] == CR && text[i + 1] == LF);
    if i + 4 <= |text| { BlankBytes(text, i); }
  }

  /** With no header line empty, the first blank line is the one after the head. */
  lemma {:induction false} FirstBlank(lines: seq<seq<Byte>>, body: seq<Byte>, i: nat)
    requires lines != [] && (forall k :: 0 <= k < |lines| ==> Solid(lines[k]))
    requires forall k :: 1 <= k < |lines| ==> lines[k] != []
    requires i < |Section(lines)| - 4
    ensures !HasAt(Section(lines) + body, BLANK, i)
    decreases |lines|
  {
    var line := lines[0];
    var rest := (if |lines| == 1 then CRLF else Section(lines[1..])) + body;
    var text := Section(lines) + body;
    assert text == line + CRLF + rest;
    BlankBytes(text, i);
    if i < |line| { NoBlankIn(line, rest, i); }
    else if i == |line| { FilledLine(lines[1..], body); }
    else if i == |line| + 1 { assert text[i] == LF; }
    else {
      var k := i - |line| - 2;
      FirstBlank(lines[1..], body, k);
      BlankBytes(rest, k);
    }
  }

  /** A line that is not empty does not start with a break. */
  lemma FilledLine(more: seq<seq<Byte>>, body: seq<Byte>)
    requires more != [] && more[0] != [] && Solid(more[0])
    ensures var rest := Section(more) + body; !(rest[0] == CR && rest[1] == LF)
  {
    var line, rest := more[0], Section(more) + body;
    assert rest[0] == line[0];
    if |line| >= 2 {
      BreakBytes(line, 0);
      assert rest[1] == line[1];
    } else {
      assert rest[1] == CR;
    }
  }

  function EncodedLines(lines: seq<string>): seq<seq<Byte>> {
    seq(|lines|, i requires 0 <= i < |lines| => Utf8.Encode(lines[i]))
  }

  lemma BreakEncoded()
    ensures Utf8.Encode(BREAK) == CRLF
  {
    assert BREAK[1..] == "\n" && "\n"[1..] == "";
  }

  lemma {:induction false} SectionEncoded(lines: seq<string>)
    requires lines != []
    ensures Section(EncodedLines(lines)) == Utf8.Encode(Join(lines)) + BLANK
    decreases |lines|
  {
    var bytes := EncodedLines(lines);
    BreakEncoded();
    hide Utf8.Encode;
    if |lines| == 1 {
      assert bytes[0] + CRLF + CRLF == bytes[0] + BLANK;
    } else {
      assert bytes[1..] == EncodedLines(lines[1..]);
      SectionEncoded(lines[1..]);
      var first, rest := lines[0], Join(lines[1..]);
      Utf8.EncodeAppend(first + BREAK, rest);
      Utf8.EncodeAppend(first, BREAK);
      hide Join;
      var x, y, z := Utf8.Encode(first), Utf8.Encode(rest), Section(bytes[1..]);
      hide Section;
      assert x + CRLF + (y + BLANK) == x + CRLF + y + BLANK;
    }
  }

  /** With no header line empty, the head of a message is found where it ends, and its lines are read as written. */
  lemma MessageRead(lines: seq<string>, body: seq<Byte>)
    requires lines != [] && OneLines(lines) && forall k :: 1 <= k < |lines| ==> lines[k] != []
    ensures Payload(Message(lines, body)) == PayloadOf(lines, body)
  {
    var bytes, head := EncodedLines(lines), Utf8.Encode(Join(lines));
    var response := Message(lines, body);
    SectionEncoded(lines);
    forall k | 0 <= k < |lines| ensures Solid(bytes[k]) && (k > 0 ==> bytes[k] != []) {
      forall i | HasAt(bytes[k], CRLF, i) ensures false { EncodedOneLine(lines[k], i); }
    }
    assert response == Section(bytes) + body;
    forall i | 0 <= i < |head| ensures !HasAt(response, BLANK, i) { FirstBlank(bytes, body, i); }
    assert response[|head|..|head| + 4] == BLANK && response[..|head|] == head && response[|head| + 4..] == body;
    FirstIndex(response, BLANK, |head|);
    Utf8.DecodesEncoded(Join(lines));
    SplitJoin(lines);
    hide Join, Split, Section, PayloadOf, OneLines;
  }

  lemma AcceptedIsRead(lines: seq<string>, body: seq<Byte>, payload: seq<Byte>)
    requires lines != [] && OneLines(lines) && Carries(lines, body, payload)
    ensures Payload(Message(lines, body)) == Some(payload)
  {
    HeadLinesFilled(lines);
    MessageRead(lines, body);
    PayloadExactly(lines, body, payload);
    hide Payload, Message, Carries, PayloadOf;
  }

  lemma ReadIsAccepted(response: seq<Byte>, payload: seq<Byte>)
    requires Payload(response) == Some(payload)
    ensures Accepted(response, payload)
  {
    hide PayloadOf, Utf8.Decode, Utf8.Encode, Join;
    var end := IndexOf(response, BLANK).value;
    var head, body := response[..end], response[end + 4..];
    var text := Utf8.Decode(head).value;
    Utf8.EncodesDecoded(head);
    JoinSplit(text);
    PayloadExactly(Split(text), body, payload);
    hide *;
    assert response == head + BLANK + body by { CutAt(response, BLANK); }
    MessageOf(Split(text), head, body);
    Accepts(Split(text), body, response, payload);
  }

  lemma CutAt(response: seq<Byte>, blank: seq<Byte>)
    requires IndexOf(response, blank).Some?
    ensures var end := IndexOf(response, blank).value;
      end + |blank| <= |response| && response == response[..end] + blank + response[end + |blank|..]
  {
  }

  lemma MessageOf(lines: seq<string>, head: seq<Byte>, body: seq<Byte>)
    requires lines != [] && Utf8.Encode(Join(lines)) == head
    ensures Message(lines, body) == head + BLANK + body
  {
  }

  lemma Accepts(lines: seq<string>, body: seq<Byte>, response: seq<Byte>, payload: seq<Byte>)
    requires lines != [] && OneLines(lines) && response == Message(lines, body) && Carries(lines, body, payload)
    ensures Accepted(response, payload)
  {
    hide Carries, Message, OneLines;
  }

  /** What is delivered, exactly: a body some message with good head lines carries. */
  lemma ResponseExactly(response: seq<Byte>, payload: seq<Byte>)
    ensures Payload(response) == Some(payload) <==> Accepted(response, payload)
  {
    hide Payload, Carries, Message, OneLines;
    if Accepted(response, payload) {
      var lines, body :|
        lines != [] && OneLines(lines) && response == Message(lines, body) && Carries(lines, body, payload);
      AcceptedIsRead(lines, body, payload);
    }
    if Payload(response) == Some(payload) { ReadIsAccepted(response, payload); }
  }

  lemma HeadLinesFilled(lines: seq<string>)
    requires lines != [] && Proper(lines[1..])
    ensures forall k :: 1 <= k < |lines| ==> lines[k] != []
  {
    forall k | 1 <= k < |lines| ensures lines[k] != [] { assert WellFormed(lines[1..][k - 1]); }
  }

  /** `parse_response` up to the decoded body. */
  method ParseResponse(response: seq<Byte>) returns (r: Option<seq<Byte>>)
    requires |response| <= MAX_U64 / 2
    ensures r == Payload(response)
    ensures forall payload :: r == Some(payload) <==> Accepted(response, payload)
  {
    hide Accepted, Split, HeadOf, IsJson, Decode;
    forall payload ensures Payload(response) == Some(payload) <==> Accepted(response, payload) {
      ResponseExactly(response, payload);
    }
    var end := IndexOf(response, BLANK);
    if end.None? { return None; }
    var body := response[end.value + 4..];
    var text := Utf8.Decode(response[..end.value]);
    if text.None? { return None; }
    var head := ParseHeaders(text.value);
    if head.None? || head.value.status != 200 || !IsJson(head.value.contentType) { return None; }
    match head.value.framing {
      case ContentLength(n) => r := if n == |body| then Some(body) else None;
      case Chunked => r := DecodeChunked(body);
    }
  }

  // ---- The two framings agree -------------------------------------------

  predicate LengthLine(line: string, n: nat) {
    && WellFormed(line) && SameIgnoringCase(FieldName(line), LENGTH)
    && Counts(FieldValue(line), n) && n <= MAX_RESPONSE_BYTES
  }

  predicate ChunkedLine(line: string) {
    WellFormed(line) && SameIgnoringCase(FieldName(line), TRANSFER) && SameIgnoringCase(FieldValue(line), "chunked")
  }

  /** A head with one line in the middle of its fields. */
  function With(status: string, a: seq<string>, line: string,
                b: seq<string>): seq<string> { [status] + (a + ([line] + b)) }

  lemma WithValues(status: string, a: seq<string>, line: string, b: seq<string>, name: string)
    ensures Values(With(status, a, line, b)[1..], name) == Values(a, name) + Values([line], name) + Values(b, name)
  {
    assert With(status, a, line, b)[1..] == a + ([line] + b);
    ValuesAppend(a, [line] + b, name);
    ValuesAppend([line], b, name);
  }

  lemma WithProper(status: string, a: seq<string>, line: string, b: seq<string>)
    ensures Proper(With(status, a, line, b)[1..]) <==> Proper(a) && Proper([line]) && Proper(b)
  {
    assert With(status, a, line, b)[1..] == a + ([line] + b);
    ProperAppend(a, [line] + b);
    ProperAppend([line], b);
  }

  lemma SwapValues(status: string, a: seq<string>, b: seq<string>, l: string, n: nat, t: string, name: string)
    requires LengthLine(l, n) && ChunkedLine(t) && name in {LENGTH, TRANSFER, TYPE}
    ensures Values(With(status, a, l, b)[1..], name) ==
      Values(a, name) + (if name == LENGTH then [FieldValue(l)] else []) + Values(b, name)
    ensures Values(With(status, a, t, b)[1..], name) ==
      Values(a, name) + (if name == TRANSFER then [FieldValue(t)] else []) + Values(b, name)
  {
    OneName(FieldName(l));
    OneName(FieldName(t));
    WithValues(status, a, l, b, name);
    WithValues(status, a, t, b, name);
    OneValue(l, name);
    OneValue(t, name);
    hide Values, With, WellFormed, FieldName, FieldValue, IsLength, SameIgnoringCase, Decimal;
  }

  lemma LengthRead(line: string, n: nat)
    requires LengthLine(line, n)
    ensures IsLength(FieldValue(line)) && Decimal(FieldValue(line)) == n
  {
    DecimalExactly(FieldValue(line), n);
  }

  lemma SwapProper(status: string, a: seq<string>, b: seq<string>, l: string, n: nat, t: string)
    requires LengthLine(l, n) && ChunkedLine(t)
    ensures Proper(With(status, a, l, b)[1..]) <==> Proper(With(status, a, t, b)[1..])
  {
    LengthRead(l, n);
    OneName(FieldName(l));
    OneName(FieldName(t));
    OneProper(l);
    OneProper(t);
    WithProper(status, a, l, b);
    WithProper(status, a, t, b);
    hide Proper, With, WellFormed, FieldName, FieldValue, IsLength, SameIgnoringCase, Decimal, Counts;
  }

  lemma SwapFramings(p: seq<string>, q: seq<string>, v: string, e: seq<string>, f: seq<string>, w: string)
    requires SameIgnoringCase(w, "chunked")
    ensures FramedBy(p + [v] + q, e + [] + f) <==> p == q == e == f == []
    ensures FramedBy(p + [] + q, e + [w] + f) <==> p == q == e == f == []
  {
    hide SameIgnoringCase;
    assert |p + [v] + q| == |p| + 1 + |q| && |e + [w] + f| == |e| + 1 + |f|;
    assert |e + [] + f| == |e| + |f| && |p + [] + q| == |p| + |q|;
  }

  /** Swapping a length line for a chunked line swaps the framing, and nothing else. */
  lemma FramingSwaps(status: string, a: seq<string>, b: seq<string>, l: string, n: nat, t: string, code: string)
    requires LengthLine(l, n) && ChunkedLine(t)
    ensures var x, y := With(status, a, l, b), With(status, a, t, b);
      && (GoodHead(x, code) <==> GoodHead(y, code))
      && (GoodHead(x, code) ==>
            && TheHead(x, code).framing == ContentLength(n)
            && TheHead(y, code) == TheHead(x, code).(framing := Chunked))
  {
    LengthRead(l, n);
    SwapProper(status, a, b, l, n, t);
    SwapValues(status, a, b, l, n, t, LENGTH);
    SwapValues(status, a, b, l, n, t, TRANSFER);
    SwapValues(status, a, b, l, n, t, TYPE);
    SwapFramings(Values(a, LENGTH), Values(b, LENGTH), FieldValue(l), Values(a, TRANSFER), Values(b, TRANSFER),
                 FieldValue(t));
    assert With(status, a, l, b)[0] == With(status, a, t, b)[0] == status;
    hide Values, Proper, With, WellFormed, FieldName, FieldValue, IsStatusLine, IsLength, Decimal, SameIgnoringCase;
    hide Counts;
    assert With(status, a, l, b) != [] && With(status, a, t, b) != [];
  }

  /**
   * A body sent with Content-Length and the same body sent in any chunks are
   * received alike, whatever the status line and the other header lines are.
   */
  lemma FormsAgree(status: string, a: seq<string>, b: seq<string>, l: string, t: string,
                   body: seq<Byte>, parts: seq<Part>, last: seq<Byte>)
    requires OneLine(status) && OneLine(l) && OneLine(t) && OneLines(a) && OneLines(b)
    requires (forall i :: 0 <= i < |a| ==> a[i] != []) && forall i :: 0 <= i < |b| ==> b[i] != []
    requires LengthLine(l, |body|) && ChunkedLine(t)
    requires GoodParts(parts) && GoodLast(last) && Body(parts) == body
    ensures Payload(Message(With(status, a, l, b), body)) ==
      Payload(Message(With(status, a, t, b), Encode(parts, last)))
  {
    var x, y := With(status, a, l, b), With(status, a, t, b);
    WithLines(status, a, l, b);
    WithLines(status, a, t, b);
    MessageRead(x, body);
    MessageRead(y, Encode(parts, last));
    EncodedDecodes(parts, last, MAX_RESPONSE_BYTES);
    LengthFits(l, |body|);
    HeadsAgree(status, a, b, l, |body|, t);
    hide With, FieldValue, FieldName, WellFormed, SameIgnoringCase, IsLength, Decimal, HeadOf, Message, Payload;
    hide Counts, LengthLine, ChunkedLine, GoodParts, GoodLast, Body, Encode, IsJson, Decode;
  }

  lemma WithLines(status: string, a: seq<string>, line: string, b: seq<string>)
    requires OneLine(status) && OneLine(line) && OneLines(a) && OneLines(b) && WellFormed(line)
    requires (forall i :: 0 <= i < |a| ==> a[i] != []) && forall i :: 0 <= i < |b| ==> b[i] != []
    ensures OneLines(With(status, a, line, b))
    ensures forall k :: 1 <= k < |With(status, a, line, b)| ==> With(status, a, line, b)[k] != []
  {
    hide OneLine, IsName;
  }

  lemma LengthFits(l: string, n: nat)
    requires LengthLine(l, n)
    ensures n <= MAX_RESPONSE_BYTES
  {
    hide WellFormed, FieldName, FieldValue, SameIgnoringCase, Decimal;
  }

  lemma HeadsAgree(status: string, a: seq<string>, b: seq<string>, l: string, n: nat, t: string)
    requires LengthLine(l, n) && ChunkedLine(t)
    ensures var x, y := HeadOf(With(status, a, l, b)), HeadOf(With(status, a, t, b));
      && x.Some? == y.Some?
      && (x.Some? ==> x.value.framing == ContentLength(n) && y.value == x.value.(framing := Chunked))
  {
    var x, y := With(status, a, l, b), With(status, a, t, b);
    assert x[0] == y[0] == status;
    var code := if |status| >= 12 then status[9..12] else "";
    FramingSwaps(status, a, b, l, n, t, code);
    HeadExactly(x, code);
    HeadExactly(y, code);
    hide With, HeadOf, GoodHead, LengthLine, ChunkedLine;
  }
}
