/** One-page text reports as PDF files, and a reader that finds the objects and the
    text again the way section 7.5 of ISO 32000-1 lays files out. */
module PdfFile {
  import opened Base
  import opened Numerals
  import opened PdfText

  // ----- the page -----

  /** Parentheses and backslashes in report lines become spaces. */
  function Blanked(line: Text): Text {
    seq(|line|, i requires 0 <= i < |line| => if Special(line[i]) then SPACE else line[i])
  }

  function ContentLines(title: Text, lines: seq<Text>): seq<Text> {
    [title, []] + seq(|lines|, i requires 0 <= i < |lines| => Blanked(lines[i]))
  }

  function Cut(line: Text): (safe: Text)
    ensures |safe| <= 110
  {
    if |line| <= 110 then line else line[..110]
  }

  function TextOp(y: nat, safe: Text): Text {
    Ascii("BT /F1 10 Tf 40 ") + Ascii(Decimal(y)) + Ascii(" Td (") + EscapePdf(safe) + Ascii(") Tj ET")
  }

  /** One operation per line, downwards from `y` in steps of 14, none below 50. */
  function TextOps(content: seq<Text>, y: int): seq<Text>
    decreases |content|
  {
    if content == [] || y < 50 then [] else [TextOp(y, Cut(content[0]))] + TextOps(content[1..], y - 14)
  }

  function Joined(ops: seq<Text>): Text {
    if ops == [] then []
    else if |ops| == 1 then ops[0]
    else ops[0] + [LF] + Joined(ops[1..])
  }

  function Stream(title: Text, lines: seq<Text>): Text {
    Joined(TextOps(ContentLines(title, lines), 800))
  }

  // ----- the file -----

  const CATALOG := Ascii("1 0 obj<< /Type /Catalog /Pages 2 0 R >>endobj")
  const PAGES := Ascii("2 0 obj<< /Type /Pages /Kids [3 0 R] /Count 1 >>endobj")
  const PAGE := Ascii("3 0 obj<< /Type /Page /Parent 2 0 R /MediaBox [0 0 612 792] /Contents 4 0 R /Resources << /Font << /F1 5 0 R >> >> >>endobj")
  const LENGTH_KEY := Ascii("4 0 obj<< /Length ")
  const STREAM_BEGIN := Ascii(" >>stream\n")
  const STREAM_END := Ascii("\nendstream\nendobj")
  const FONT := Ascii("5 0 obj<< /Type /Font /Subtype /Type1 /BaseFont /Helvetica >>endobj")
  const HEADER := Ascii("%PDF-1.4\n")

  function ContentObject(stream: Text): Text {
    LENGTH_KEY + Ascii(Decimal(|Encode(stream)|)) + STREAM_BEGIN + stream + STREAM_END
  }

  function Objects(stream: Text): seq<Text> {
    [CATALOG, PAGES, PAGE, ContentObject(stream), FONT]
  }

  /** The header and the first `n` objects. */
  function Body(objects: seq<Text>, n: nat): Text
    requires n <= |objects|
  {
    if n == 0 then HEADER else Body(objects, n - 1) + objects[n - 1] + [LF]
  }

  /** Where object `n` starts, in bytes. */
  function Offset(objects: seq<Text>, n: nat): nat
    requires 1 <= n <= |objects|
  {
    |Encode(Body(objects, n - 1))|
  }

  function XrefStart(objects: seq<Text>): nat {
    |Encode(Body(objects, |objects|))|
  }

  function Entry(offset: nat): Text {
    Ascii(PadStart(Decimal(offset), 10)) + Ascii(" 00000 n \n")
  }

  const FREE_ENTRY := Ascii("0000000000 65535 f \n")

  /** The free entry and those of the first `n` objects. */
  function Entries(objects: seq<Text>, n: nat): Text
    requires n <= |objects|
  {
    if n == 0 then FREE_ENTRY else Entries(objects, n - 1) + Entry(Offset(objects, n))
  }

  function XrefHeader(size: nat): Text {
    Ascii("xref\n0 ") + Ascii(Decimal(size)) + [LF]
  }

  function Trailer(size: nat): Text {
    Ascii("trailer<< /Size ") + Ascii(Decimal(size)) + Ascii(" /Root 1 0 R >>\n")
  }

  const EOF := Ascii("\n%%EOF")

  function Ending(xrefStart: nat): Text {
    Ascii("startxref\n") + Ascii(Decimal(xrefStart)) + EOF
  }

  function Document(objects: seq<Text>): Text {
    Body(objects, |objects|) + XrefHeader(|objects| + 1) + Entries(objects, |objects|)
    + Trailer(|objects| + 1) + Ending(XrefStart(objects))
  }

  function PdfOf(title: Text, lines: seq<Text>): Bytes {
    Encode(Document(Objects(Stream(title, lines))))
  }

  method WriteTextOps(contentLines: seq<Text>) returns (textOps: seq<Text>)
    ensures textOps == TextOps(contentLines, 800)
  {
    var y := 800;
    textOps := [];
    var i := 0;
    while i < |contentLines|
      invariant 0 <= i <= |contentLines|
      invariant textOps + TextOps(contentLines[i..], y) == TextOps(contentLines, 800)
    {
      if y < 50 {
        break;
      }
      var safe := Cut(contentLines[i]);
      textOps := textOps + [TextOp(y, safe)];
      assert contentLines[i..][1..] == contentLines[i + 1..];
      y := y - 14;
      i := i + 1;
    }
  }

  method WriteObjects(objects: seq<Text>) returns (pdf: Text, offsets: seq<nat>)
    ensures pdf == Body(objects, |objects|)
    ensures |offsets| == |objects| + 1
    ensures forall n | 1 <= n <= |objects| :: offsets[n] == Offset(objects, n)
  {
    pdf := HEADER;
    offsets := [0];
    for n := 0 to |objects|
      invariant pdf == Body(objects, n)
      invariant |offsets| == n + 1
      invariant forall k | 1 <= k <= n :: offsets[k] == Offset(objects, k)
    {
      offsets := offsets + [|Encode(pdf)|];
      pdf := pdf + objects[n] + [LF];
    }
  }

  ghost predicate OffsetsOf(offsets: seq<nat>, objects: seq<Text>) {
    |offsets| == |objects| + 1 && forall n | 1 <= n <= |objects| :: offsets[n] == Offset(objects, n)
  }

  method WriteEntry(offsets: seq<nat>, ghost objects: seq<Text>, n: nat) returns (entry: Text)
    requires OffsetsOf(offsets, objects) && 1 <= n <= |objects|
    ensures Entries(objects, n) == Entries(objects, n - 1) + entry
  {
    entry := Entry(offsets[n]);
  }

  method WriteEntries(offsets: seq<nat>, ghost objects: seq<Text>) returns (table: Text)
    requires OffsetsOf(offsets, objects)
    ensures table == Entries(objects, |objects|)
  {
    table := FREE_ENTRY;
    for n := 1 to |offsets|
      invariant table == Entries(objects, n - 1)
    {
      var entry := WriteEntry(offsets, objects, n);
      table := table + entry;
    }
  }

  method WriteFile(objects: seq<Text>) returns (pdf: Text)
    ensures pdf == Document(objects)
  {
    var offsets;
    pdf, offsets := WriteObjects(objects);
    var xrefStart := |Encode(pdf)|;
    var table := WriteEntries(offsets, objects);
    pdf := pdf + XrefHeader(|objects| + 1) + table + Trailer(|objects| + 1) + Ending(xrefStart);
  }

  method BuildSimplePdf(title: Text, lines: seq<Text>) returns (file: Bytes)
    ensures file == PdfOf(title, lines)
  {
    var textOps := WriteTextOps(ContentLines(title, lines));
    var pdf := WriteFile(Objects(Joined(textOps)));
    file := Encode(pdf);
  }

  // ----- reading a file -----

  predicate At(file: Bytes, position: int, bytes: Bytes) {
    0 <= position && position + |bytes| <= |file| && forall i | 0 <= i < |bytes| :: file[position + i] == bytes[i]
  }

  predicate IsDigitByte(b: nat) {
    48 <= b < 58
  }

  /** The number a buffer ends in. */
  function NumberAtEnd(s: Bytes): nat {
    if s == [] || !IsDigitByte(s[|s| - 1]) then 0
    else NumberAtEnd(s[..|s| - 1]) * 10 + (s[|s| - 1] - 48)
  }

  /** How many digits a buffer starts with. */
  function DigitsInFront(s: Bytes): (n: nat)
    ensures n <= |s|
  {
    if s == [] || !IsDigitByte(s[0]) then 0 else 1 + DigitsInFront(s[1..])
  }

  /** The position a file's last lines name. */
  function StartXref(file: Bytes): nat {
    if |file| < |EOF| then 0 else NumberAtEnd(file[..|file| - |EOF|])
  }

  /** The offset entry `n` of the cross-reference table gives, for up to nine entries. */
  function EntryOffset(file: Bytes, n: nat): Option<nat> {
    var p := StartXref(file) + |"xref\n0 0\n"| + 20 * n;
    if p + 20 <= |file| then Some(NumberAtEnd(file[p..p + 10])) else None
  }

  /** The `length` bytes between two keywords. */
  function Between(s: Bytes, length: nat, begin: Bytes, end: Bytes): Option<Bytes> {
    if !(begin <= s) then None
    else
      var t := s[|begin|..];
      if length <= |t| && end <= t[length..] then Some(t[..length]) else None
  }

  /** What lies between two keywords and is as long as the number after the key says. */
  function Measured(s: Bytes, key: Bytes, begin: Bytes, end: Bytes): Option<Bytes> {
    if !(key <= s) then None
    else
      var t := s[|key|..];
      var digits := DigitsInFront(t);
      Between(t[digits..], NumberAtEnd(t[..digits]), begin, end)
  }

  /** The stream of the object at a position, as long as its dictionary says. */
  function StreamAt(file: Bytes, position: nat): Option<Bytes> {
    if position <= |file| then Measured(file[position..], LENGTH_KEY, STREAM_BEGIN, STREAM_END) else None
  }

  /** The literal strings of a content stream, in order. */
  function TextsIn(stream: Bytes): seq<Bytes>
    decreases |stream|
  {
    if stream == [] then []
    else if stream[0] != LEFT then TextsIn(stream[1..])
    else
      match ReadLiteral(stream[1..], 0)
      case None => []
      case Some(l) => [l.text] + TextsIn(l.rest)
  }

  /** The texts shown on the page: the stream object 4 holds, found by its entry. */
  function ReadPage(file: Bytes): Option<seq<Bytes>> {
    match EntryOffset(file, 4)
    case None => None
    case Some(position) =>
      match StreamAt(file, position)
      case None => None
      case Some(stream) => Some(TextsIn(stream))
  }
}
