/** What the built file satisfies. It is small enough for ten-digit offsets; every entry of
    its table is the position of its object; the stream is as long as it says; and a reader
    that follows the table to the stream gets the printed lines back. */
module PdfLaws {
  import opened Base
  import opened Numerals
  import opened Sequences
  import opened PdfText
  import opened PdfFile

  // ----- widths -----

  function Power10(k: nat): nat {
    if k == 0 then 1 else 10 * Power10(k - 1)
  }

  lemma {:induction false} DecimalWidth(n: nat, k: nat)
    requires k >= 1 && n < Power10(k)
    ensures 1 <= |Decimal(n)| <= k
  {
    if n < 10 {
    } else {
      assert k > 1;
      DecimalWidth(n / 10, k - 1);
    }
  }

  lemma {:induction false} PaddedWidth(s: string, width: nat)
    requires |s| <= width
    ensures |PadStart(s, width)| == width
    decreases width
  {
    if |s| >= width {
    } else {
      PaddedWidth(s, width - 1);
    }
  }

  /** Offsets of ten digits make entries of twenty bytes. */
  lemma EntryWidth(offset: nat)
    requires offset < Power10(10)
    ensures |Entry(offset)| == 20
  {
    DecimalWidth(offset, 10);
    PaddedWidth(Decimal(offset), 10);
  }

  lemma OpSize(y: nat, safe: Text)
    requires y < 1000 && |safe| <= 110
    ensures |TextOp(y, safe)| <= 251
  {
    assert Power10(3) == 1000;
    DecimalWidth(y, 3);
    EscapesOnce(safe);
  }

  lemma {:induction false} OpsSize(content: seq<Text>, y: int)
    requires 36 <= y < 1000
    ensures |Joined(TextOps(content, y))| <= 18 * (y - 36)
    decreases |content|
  {
    if content == [] || y < 50 {
    } else {
      OpSize(y, Cut(content[0]));
      OpsSize(content[1..], y - 14);
      var ops := TextOps(content, y);
      assert ops[1..] == TextOps(content[1..], y - 14);
    }
  }

  lemma StreamSize(title: Text, lines: seq<Text>)
    ensures |Stream(title, lines)| <= 13752
  {
    OpsSize(ContentLines(title, lines), 800);
  }

  /** However much text there is, the file stays far below ten digits of bytes. */
  lemma FileSize(title: Text, lines: seq<Text>)
    ensures XrefStart(Objects(Stream(title, lines))) < Power10(10)
  {
    var stream := Stream(title, lines);
    var objects := Objects(stream);
    StreamSize(title, lines);
    EncodedSize(stream);
    assert Power10(10) == 10_000_000_000;
    DecimalWidth(|Encode(stream)|, 10);
    assert |ContentObject(stream)| <= 14000;
    BodySize(objects, 5);
    EncodedSize(Body(objects, 5));
  }

  lemma {:induction false} BodySize(objects: seq<Text>, n: nat)
    requires n <= |objects| && forall i | 0 <= i < |objects| :: |objects[i]| <= 14000
    ensures |Body(objects, n)| <= 9 + 14001 * n
  {
    if n == 0 {
    } else {
      BodySize(objects, n - 1);
    }
  }

  // ----- where things are -----

  lemma BodyEncoded(objects: seq<Text>, n: nat)
    requires 1 <= n <= |objects|
    ensures Encode(Body(objects, n)) == Encode(Body(objects, n - 1)) + (Encode(objects[n - 1]) + [LF])
  {
    var before := Body(objects, n - 1);
    EncodeConcat(before, objects[n - 1]);
    EncodeConcat(before + objects[n - 1], [LF]);
    EncodePlain([LF]);
    Regroup(Encode(before), Encode(objects[n - 1]), [LF]);
  }

  /** A longer body begins with a shorter one. */
  lemma {:induction false} BodyExtends(objects: seq<Text>, n: nat, m: nat) returns (rest: Bytes)
    requires n <= m <= |objects|
    ensures Encode(Body(objects, m)) == Encode(Body(objects, n)) + rest
    decreases m - n
  {
    if n == m {
      rest := [];
    } else {
      var last := Encode(objects[m - 1]) + [LF];
      rest := BodyExtends(objects, n, m - 1);
      BodyEncoded(objects, m);
      Regroup(Encode(Body(objects, n)), rest, last);
      rest := rest + last;
    }
  }

  lemma AtFront(a: Bytes, b: Bytes, c: Bytes, d: Bytes)
    ensures At(a + b + c + d, |a|, b)
  {
    Regroup(a + b, c, d);
    Regroup(a, b, c + d);
  }

  /** What stands before object `n`, the object's line, and what follows it. */
  lemma BodyAround(objects: seq<Text>, n: nat) returns (front: Bytes, line: Bytes, rest: Bytes)
    requires 1 <= n <= |objects|
    ensures Encode(Body(objects, |objects|)) == front + line + rest
    ensures |front| == Offset(objects, n) && line == Encode(objects[n - 1]) + [LF]
  {
    front, line := Encode(Body(objects, n - 1)), Encode(objects[n - 1]) + [LF];
    BodyEncoded(objects, n);
    rest := BodyExtends(objects, n, |objects|);
  }

  /** Everything after the body is plain text. */
  function Tail(objects: seq<Text>): Text {
    XrefHeader(|objects| + 1) + (Entries(objects, |objects|) + (Trailer(|objects| + 1) + Ending(XrefStart(objects))))
  }

  lemma {:induction false} EntriesPlain(objects: seq<Text>, n: nat)
    requires n <= |objects|
    ensures Plain(Entries(objects, n))
  {
    if n == 0 {
    } else {
      EntriesPlain(objects, n - 1);
    }
  }

  lemma TailPlain(objects: seq<Text>)
    ensures Plain(Tail(objects))
  {
    EntriesPlain(objects, |objects|);
    assert Plain(XrefHeader(|objects| + 1)) && Plain(Trailer(|objects| + 1)) && Plain(Ending(XrefStart(objects)));
  }

  lemma DocumentEncoded(objects: seq<Text>)
    ensures Encode(Document(objects)) == Encode(Body(objects, |objects|)) + Tail(objects)
  {
    var body, header, table, trailer, ending := Body(objects, |objects|), XrefHeader(|objects| + 1),
      Entries(objects, |objects|), Trailer(|objects| + 1), Ending(XrefStart(objects));
    Regroup(body + header + table, trailer, ending);
    Regroup(body + header, table, trailer + ending);
    Regroup(body, header, table + (trailer + ending));
    TailPlain(objects);
    EncodeConcat(body, Tail(objects));
    EncodePlain(Tail(objects));
  }

  // ----- numbers -----

  lemma AsciiConcat(a: string, b: string)
    ensures Ascii(a + b) == Ascii(a) + Ascii(b)
  {
  }

  lemma LastDigit(n: nat)
    requires n >= 10
    ensures Ascii(Decimal(n)) == Ascii(Decimal(n / 10)) + [48 + n % 10]
  {
    AsciiConcat(Decimal(n / 10), [DigitOf(n % 10)]);
  }

  lemma {:induction false} NumberReadsBack(before: Bytes, n: nat)
    requires before == [] || !IsDigitByte(before[|before| - 1])
    ensures NumberAtEnd(before + Ascii(Decimal(n))) == n
    decreases n
  {
    if n < 10 {
      assert Ascii(Decimal(n)) == [48 + n];
    } else {
      NumberReadsBack(before, n / 10);
      LastDigit(n);
      Regroup(before, Ascii(Decimal(n / 10)), [48 + n % 10]);
    }
  }

  lemma {:induction false} LeadingZero(s: Bytes)
    requires forall i | 0 <= i < |s| :: IsDigitByte(s[i])
    ensures NumberAtEnd([48] + s) == NumberAtEnd(s)
  {
    if s == [] {
      assert NumberAtEnd(([48])[..0]) == 0;
    } else {
      LeadingZero(s[..|s| - 1]);
      assert ([48] + s)[..|s|] == [48] + s[..|s| - 1];
    }
  }

  lemma ZeroInFront(s: string)
    requires AllDigits(s)
    ensures AllDigits("0" + s) && NumberAtEnd(Ascii("0" + s)) == NumberAtEnd(Ascii(s))
  {
    AsciiConcat("0", s);
    LeadingZero(Ascii(s));
    assert Ascii("0") == [48];
  }

  lemma {:induction false} PaddedReadsBack(s: string, width: nat)
    requires AllDigits(s)
    ensures AllDigits(PadStart(s, width)) && NumberAtEnd(Ascii(PadStart(s, width))) == NumberAtEnd(Ascii(s))
    decreases width
  {
    if |s| >= width {
    } else {
      PaddedReadsBack(s, width - 1);
      ZeroInFront(PadStart(s, width - 1));
    }
  }

  lemma EntryNumber(offset: nat)
    requires offset < Power10(10)
    ensures NumberAtEnd(Entry(offset)[..10]) == offset
  {
    EntryWidth(offset);
    DecimalDigits(offset);
    PaddedReadsBack(Decimal(offset), 10);
    NumberReadsBack([], offset);
    assert [] + Ascii(Decimal(offset)) == Ascii(Decimal(offset));
    assert Entry(offset)[..10] == Ascii(PadStart(Decimal(offset), 10));
  }

  // ----- the cross-reference table -----

  lemma OffsetsRise(objects: seq<Text>, n: nat, m: nat)
    requires n <= m <= |objects|
    ensures |Encode(Body(objects, n))| <= |Encode(Body(objects, m))|
  {
    var rest := BodyExtends(objects, n, m);
  }

  lemma EntryOfObject(objects: seq<Text>, n: nat)
    requires 1 <= n <= |objects| && XrefStart(objects) < Power10(10)
    ensures Offset(objects, n) < Power10(10) && |Entry(Offset(objects, n))| == 20
  {
    OffsetsRise(objects, n - 1, |objects|);
    EntryWidth(Offset(objects, n));
  }

  lemma {:induction false} EntriesSize(objects: seq<Text>, n: nat)
    requires n <= |objects| && XrefStart(objects) < Power10(10)
    ensures |Entries(objects, n)| == 20 * (n + 1)
  {
    if n == 0 {
    } else {
      EntriesSize(objects, n - 1);
      EntryOfObject(objects, n);
    }
  }

  lemma {:induction false} EntryAt(objects: seq<Text>, n: nat, m: nat, tail: Bytes)
    requires 1 <= n <= m <= |objects| && XrefStart(objects) < Power10(10)
    ensures At(Entries(objects, m) + tail, 20 * n, Entry(Offset(objects, n)))
  {
    var entry := Entry(Offset(objects, m));
    EntriesSize(objects, m - 1);
    Regroup(Entries(objects, m - 1), entry, tail);
    if n == m {
    } else {
      EntryAt(objects, n, m - 1, entry + tail);
    }
  }

  lemma StartLine(before: Bytes, x: nat)
    requires before != [] && before[|before| - 1] == LF
    ensures StartXref(before + Ascii(Decimal(x)) + EOF) == x
  {
    var file := before + Ascii(Decimal(x)) + EOF;
    NumberReadsBack(before, x);
    assert file[..|file| - |EOF|] == before + Ascii(Decimal(x));
  }

  lemma StartIn(before: Bytes, x: nat)
    ensures StartXref(before + Ending(x)) == x
  {
    var line := before + Ascii("startxref\n");
    StartLine(line, x);
    assert before + Ending(x) == line + Ascii(Decimal(x)) + EOF;
  }

  lemma Unnest(a: Bytes, b: Bytes, c: Bytes, d: Bytes, e: Bytes)
    ensures a + (b + (c + (d + e))) == a + b + c + d + e
  {
    Regroup(a + b + c, d, e);
    Regroup(a + b, c, d + e);
    Regroup(a, b, c + (d + e));
  }

  /** The number at the end is where `xref` stands. */
  lemma StartFound(objects: seq<Text>)
    ensures StartXref(Encode(Document(objects))) == XrefStart(objects)
    ensures At(Encode(Document(objects)), XrefStart(objects), XrefHeader(|objects| + 1))
  {
    var body, header, table, trailer, ending := Encode(Body(objects, |objects|)), XrefHeader(|objects| + 1),
      Entries(objects, |objects|), Trailer(|objects| + 1), Ending(XrefStart(objects));
    DocumentEncoded(objects);
    Unnest(body, header, table, trailer, ending);
    StartIn(body + header + table + trailer, XrefStart(objects));
  }

  lemma SliceAt(file: Bytes, position: nat, bytes: Bytes, k: nat)
    requires At(file, position, bytes) && k <= |bytes|
    ensures position + k <= |file| && file[position..position + k] == bytes[..k]
  {
  }

  lemma EntryReads(file: Bytes, n: nat, entry: Bytes, offset: nat)
    requires |entry| == 20 && NumberAtEnd(entry[..10]) == offset
    requires At(file, StartXref(file) + 9 + 20 * n, entry)
    ensures EntryOffset(file, n) == Some(offset)
  {
    SliceAt(file, StartXref(file) + 9 + 20 * n, entry, 10);
  }

  lemma FileParts(objects: seq<Text>, file: Bytes, n: nat)
    returns (body: Bytes, header: Bytes, table: Bytes, entry: Bytes)
    requires 1 <= n <= |objects| < 9 && XrefStart(objects) < Power10(10) && file == Encode(Document(objects))
    ensures file == body + (header + table) && StartXref(file) == |body| && |header| == 9
    ensures entry == Entry(Offset(objects, n)) && |entry| == 20 && At(table, 20 * n, entry)
    ensures NumberAtEnd(entry[..10]) == Offset(objects, n)
  {
    var after := Trailer(|objects| + 1) + Ending(XrefStart(objects));
    body, header, table := Encode(Body(objects, |objects|)), XrefHeader(|objects| + 1), Entries(objects, |objects|)
        + after;
    entry := Entry(Offset(objects, n));
    DocumentEncoded(objects);
    EntryAt(objects, n, |objects|, after);
    EntryOfObject(objects, n);
    EntryNumber(Offset(objects, n));
    StartFound(objects);
  }

  lemma AtBehind(front: Bytes, rest: Bytes, position: nat, bytes: Bytes)
    requires At(rest, position, bytes)
    ensures At(front + rest, |front| + position, bytes)
  {
    assert (front + rest)[|front| + position..] == rest[position..];
  }

  lemma PartsRead(
      file: Bytes, body: Bytes, header: Bytes, table: Bytes, n: nat, entry: Bytes, offset: nat)
    requires file == body + (header + table) && StartXref(file) == |body| && |header| == 9
    requires |entry| == 20 && NumberAtEnd(entry[..10]) == offset && At(table, 20 * n, entry)
    ensures EntryOffset(file, n) == Some(offset) && At(file, StartXref(file) + 9 + 20 * n, entry)
  {
    AtBehind(header, table, 20 * n, entry);
    AtBehind(body, header + table, 9 + 20 * n, entry);
    EntryReads(file, n, entry, offset);
  }

  /** Every entry is twenty bytes and gives the position of its object. */
  lemma EntryPoints(objects: seq<Text>, file: Bytes, n: nat)
    requires 1 <= n <= |objects| < 9 && XrefStart(objects) < Power10(10) && file == Encode(Document(objects))
    ensures |Entry(Offset(objects, n))| == 20 && EntryOffset(file, n) == Some(Offset(objects, n))
    ensures At(file, StartXref(file) + 9 + 20 * n, Entry(Offset(objects, n)))
  {
    var body, header, table, entry := FileParts(objects, file, n);
    PartsRead(file, body, header, table, n, entry, Offset(objects, n));
  }

  /** Object `n` starts at its offset. */
  lemma ObjectStands(objects: seq<Text>, n: nat)
    requires 1 <= n <= |objects|
    ensures At(Encode(Document(objects)), Offset(objects, n), Encode(objects[n - 1]) + [LF])
  {
    var front, line, rest := BodyAround(objects, n);
    DocumentEncoded(objects);
    AtFront(front, line, rest, Tail(objects));
  }

  // ----- the built file -----

  /** Object `n` is where entry `n` of the table says, and the entry's twenty bytes are
      those of an object in use at that position. */
  predicate Found(file: Bytes, objects: seq<Text>, n: nat)
    requires 1 <= n <= |objects|
  {
    && EntryOffset(file, n).Some?
    && At(file, EntryOffset(file, n).value, Encode(objects[n - 1]) + [LF])
    && At(file, StartXref(file) + 9 + 20 * n, Entry(EntryOffset(file, n).value))
    && |Entry(EntryOffset(file, n).value)| == 20
  }

  lemma ObjectFound(objects: seq<Text>, file: Bytes, n: nat)
    requires 1 <= n <= |objects| < 9 && XrefStart(objects) < Power10(10) && file == Encode(Document(objects))
    ensures Found(file, objects, n)
  {
    EntryPoints(objects, file, n);
    ObjectStands(objects, n);
  }

  /** In every file built, for any title and lines, the last lines give the position of
      the cross-reference table and each entry that of its object. */
  lemma OffsetsAreRight(title: Text, lines: seq<Text>)
    ensures var file, objects := PdfOf(title, lines), Objects(Stream(title, lines));
            && At(file, StartXref(file), XrefHeader(6))
            && forall n | 1 <= n <= 5 :: Found(file, objects, n)
  {
    var objects := Objects(Stream(title, lines));
    FileSize(title, lines);
    StartFound(objects);
    forall n | 1 <= n <= 5
      ensures Found(PdfOf(title, lines), objects, n)
    {
      ObjectFound(objects, PdfOf(title, lines), n);
    }
  }

  lemma {:induction false} DigitsThen(s: string, rest: Bytes)
    requires AllDigits(s) && rest != [] && !IsDigitByte(rest[0])
    ensures DigitsInFront(Ascii(s) + rest) == |s|
  {
    if s == [] {
      assert Ascii(s) + rest == rest;
    } else {
      DigitsThen(s[1..], rest);
      assert (Ascii(s) + rest)[1..] == Ascii(s[1..]) + rest;
    }
  }

  lemma Split<T>(a: seq<T>, b: seq<T>)
    ensures (a + b)[..|a|] == a && (a + b)[|a|..] == b && a <= a + b
  {
  }

  lemma BetweenReads(begin: Bytes, stream: Bytes, end: Bytes, rest: Bytes)
    ensures Between(begin + (stream + (end + rest)), |stream|, begin, end) == Some(stream)
  {
    Split(begin, stream + (end + rest));
    Split(stream, end + rest);
    Split(end, rest);
  }

  /** Bytes with their number in front read back whole. */
  lemma MeasuredReads(key: Bytes, begin: Bytes, stream: Bytes, end: Bytes, rest: Bytes)
    requires begin != [] && !IsDigitByte(begin[0])
    ensures Measured(key + (Ascii(Decimal(|stream|)) + (begin + (stream + (end + rest)))), key, begin, end)
              == Some(stream)
  {
    var digits, after := Ascii(Decimal(|stream|)), begin + (stream + (end + rest));
    Split(key, digits + after);
    Split(digits, after);
    DecimalDigits(|stream|);
    DigitsThen(Decimal(|stream|), after);
    NumberReadsBack([], |stream|);
    assert [] + digits == digits;
    BetweenReads(begin, stream, end, rest);
  }

  lemma ContentEncoded(stream: Text)
    ensures Encode(ContentObject(stream))
            == LENGTH_KEY + Ascii(Decimal(|Encode(stream)|)) + STREAM_BEGIN + Encode(stream) + STREAM_END
  {
    EncodeBetween(LENGTH_KEY + Ascii(Decimal(|Encode(stream)|)) + STREAM_BEGIN, stream, STREAM_END);
  }

  lemma ContentReads(stream: Text, rest: Bytes)
    ensures Measured(Encode(ContentObject(stream)) + rest, LENGTH_KEY, STREAM_BEGIN, STREAM_END) == Some(Encode(stream))
  {
    var digits := Ascii(Decimal(|Encode(stream)|));
    ContentEncoded(stream);
    Unnest(LENGTH_KEY + digits, STREAM_BEGIN, Encode(stream), STREAM_END, rest);
    Regroup(LENGTH_KEY, digits, STREAM_BEGIN + (Encode(stream) + (STREAM_END + rest)));
    assert STREAM_BEGIN[0] == SPACE;
    MeasuredReads(LENGTH_KEY, STREAM_BEGIN, Encode(stream), STREAM_END, rest);
  }

  lemma AtRest(file: Bytes, position: nat, bytes: Bytes) returns (rest: Bytes)
    requires At(file, position, bytes)
    ensures file[position..] == bytes + rest
  {
    rest := file[position + |bytes|..];
  }

  lemma StreamStands(file: Bytes, position: nat, stream: Text)
    requires At(file, position, Encode(ContentObject(stream)) + [LF])
    ensures StreamAt(file, position) == Some(Encode(stream))
  {
    var content := Encode(ContentObject(stream));
    var rest := AtRest(file, position, content + [LF]);
    Regroup(content, [LF], rest);
    ContentReads(stream, [LF] + rest);
  }

  lemma StreamReadable(objects: seq<Text>, n: nat, stream: Text)
    requires 1 <= n <= |objects| < 9 && XrefStart(objects) < Power10(10)
    requires objects[n - 1] == ContentObject(stream)
    ensures var file := Encode(Document(objects));
            EntryOffset(file, n).Some? && StreamAt(file, EntryOffset(file, n).value) == Some(Encode(stream))
  {
    var file := Encode(Document(objects));
    ObjectFound(objects, file, n);
    StreamStands(file, EntryOffset(file, n).value, stream);
  }

  /** The length in the file is the stream's size in bytes: taking that many finds
      exactly the encoded stream. */
  lemma StreamFound(title: Text, lines: seq<Text>)
    ensures var file := PdfOf(title, lines);
            && EntryOffset(file, 4).Some?
            && StreamAt(file, EntryOffset(file, 4).value) == Some(Encode(Stream(title, lines)))
  {
    FileSize(title, lines);
    StreamReadable(Objects(Stream(title, lines)), 4, Stream(title, lines));
  }

  // ----- the page -----

  lemma {:induction false} NoLiteralIn(s: Bytes, rest: Bytes)
    requires LEFT !in s
    ensures TextsIn(s + rest) == TextsIn(rest)
  {
    if s == [] {
      assert s + rest == rest;
    } else {
      NoLiteralIn(s[1..], rest);
      assert (s + rest)[1..] == s[1..] + rest;
    }
  }

  lemma NoLeft(s: string)
    requires forall c | c in s :: c as int % 0x80 != LEFT
    ensures LEFT !in Ascii(s)
  {
    forall i | 0 <= i < |s|
      ensures Ascii(s)[i] != LEFT
    {
      assert s[i] in s;
    }
  }

  lemma LiteralsLackLeft()
    ensures LEFT !in Ascii("BT /F1 10 Tf 40 ") && LEFT !in Ascii(" Td ") && LEFT !in Ascii(" Tj ET")
  {
    NoLeft("BT /F1 10 Tf 40 ");
    NoLeft(" Td ");
    NoLeft(" Tj ET");
  }

  lemma OpParts(y: nat, safe: Text) returns (before: Bytes, after: Bytes)
    ensures TextOp(y, safe) == before + [LEFT] + Escaped(safe) + ([RIGHT] + after)
    ensures Plain(before) && Plain(after) && LEFT !in before && LEFT !in after
  {
    before, after := Ascii("BT /F1 10 Tf 40 ") + Ascii(Decimal(y)) + Ascii(" Td "), Ascii(" Tj ET");
    EscapesOnce(safe);
    assert Ascii(" Td (") == Ascii(" Td ") + [LEFT] && Ascii(") Tj ET") == [RIGHT] + after;
    Regroup(Ascii("BT /F1 10 Tf 40 ") + Ascii(Decimal(y)), Ascii(" Td "), [LEFT]);
    DecimalDigits(y);
    NoLeft(Decimal(y));
    LiteralsLackLeft();
  }

  lemma OpBytes(before: Bytes, safe: Text, after: Bytes)
    requires Plain(before) && Plain(after)
    ensures Encode(before + [LEFT] + Escaped(safe) + ([RIGHT] + after))
            == before + ([LEFT] + (Escaped(Encode(safe)) + ([RIGHT] + after)))
  {
    EncodeEscaped(safe);
    EncodeBetween(before + [LEFT], Escaped(safe), [RIGHT] + after);
    Regroup(before + [LEFT], Escaped(Encode(safe)), [RIGHT] + after);
    Regroup(before, [LEFT], Escaped(Encode(safe)) + ([RIGHT] + after));
  }

  /** An operation in bytes: what stands before and after its literal has none. */
  lemma OpEncoded(y: nat, safe: Text) returns (before: Bytes, after: Bytes)
    ensures Encode(TextOp(y, safe)) == before + ([LEFT] + (Escaped(Encode(safe)) + ([RIGHT] + after)))
    ensures LEFT !in before && LEFT !in after
  {
    before, after := OpParts(y, safe);
    OpBytes(before, safe, after);
  }

  lemma TextRead(before: Bytes, text: Bytes, after: Bytes, rest: Bytes)
    requires LEFT !in before && LEFT !in after
    ensures TextsIn(before + ([LEFT] + (Escaped(text) + ([RIGHT] + after))) + rest) == [LineFed(text)] + TextsIn(rest)
  {
    var literal := Escaped(text) + [RIGHT] + (after + rest);
    assert before + ([LEFT] + (Escaped(text) + ([RIGHT] + after))) + rest == before + ([LEFT] + literal);
    NoLiteralIn(before, [LEFT] + literal);
    assert ([LEFT] + literal)[1..] == literal;
    LiteralReadsBack(text, after + rest);
    NoLiteralIn(after, rest);
  }

  /** The texts of the lines that fit on the page. */
  function Printed(content: seq<Text>, y: int): seq<Bytes>
    decreases |content|
  {
    if content == [] || y < 50 then [] else [LineFed(Encode(Cut(content[0])))] + Printed(content[1..], y - 14)
  }

  lemma {:induction false} TextsReadBack(content: seq<Text>, y: int)
    ensures TextsIn(Encode(Joined(TextOps(content, y)))) == Printed(content, y)
    decreases |content|
  {
    if content == [] || y < 50 {
    } else {
      var ops := TextOps(content, y);
      var op := Encode(ops[0]);
      var before, after := OpEncoded(y, Cut(content[0]));
      TextsReadBack(content[1..], y - 14);
      assert ops[1..] == TextOps(content[1..], y - 14);
      if |ops| == 1 {
        TextRead(before, Encode(Cut(content[0])), after, []);
        assert op + [] == op;
      } else {
        var more := Encode(Joined(ops[1..]));
        TextRead(before, Encode(Cut(content[0])), after, [LF] + more);
        NoLiteralIn([LF], more);
        JoinEncoded(ops[0], Joined(ops[1..]));
      }
    }
  }

  lemma JoinEncoded(first: Text, rest: Text)
    ensures Encode(first + [LF] + rest) == Encode(first) + ([LF] + Encode(rest))
  {
    EncodePlain([LF]);
    EncodeConcat(first, [LF]);
    EncodeConcat(first + [LF], rest);
    Regroup(Encode(first), [LF], Encode(rest));
  }

  lemma {:induction false} PrintedAre(content: seq<Text>, y: int, i: nat)
    requires i < |content|
    ensures i < |Printed(content, y)| <==> y - 14 * i >= 50
    ensures i < |Printed(content, y)| ==> Printed(content, y)[i] == LineFed(Encode(Cut(content[i])))
    decreases i
  {
    if i == 0 || y < 50 {
    } else {
      PrintedAre(content[1..], y - 14, i - 1);
    }
  }

  lemma {:induction false} NoMorePrinted(content: seq<Text>, y: int)
    ensures |Printed(content, y)| <= |content|
    decreases |content|
  {
    if content == [] || y < 50 {
    } else {
      NoMorePrinted(content[1..], y - 14);
    }
  }

  function PageLines(content: seq<Text>): seq<Text> {
    if |content| <= 54 then content else content[..54]
  }

  function TextsOf(shown: seq<Text>): (texts: seq<Bytes>)
    ensures |texts| == |shown|
  {
    seq(|shown|, i requires 0 <= i < |shown| => LineFed(Encode(Cut(shown[i]))))
  }

  lemma PrintedIs(content: seq<Text>)
    ensures Printed(content, 800) == TextsOf(PageLines(content))
  {
    var printed, texts := Printed(content, 800), TextsOf(PageLines(content));
    NoMorePrinted(content, 800);
    if |content| > 54 {
      PrintedAre(content, 800, 53);
      PrintedAre(content, 800, 54);
    } else if content != [] {
      PrintedAre(content, 800, |content| - 1);
    }
    assert |printed| == |texts|;
    forall i | 0 <= i < |texts|
      ensures printed[i] == texts[i]
    {
      PrintedAre(content, 800, i);
    }
  }

  /** A reader that follows the cross-reference table to the content stream and reads
      its literal strings gets exactly the first 54 lines of the report, the title and
      an empty line among them, each cut to 110 units, with line ends as line feeds. */
  lemma PageReadsBack(title: Text, lines: seq<Text>)
    ensures ReadPage(PdfOf(title, lines)) == Some(TextsOf(PageLines(ContentLines(title, lines))))
  {
    StreamFound(title, lines);
    TextsReadBack(ContentLines(title, lines), 800);
    PrintedIs(ContentLines(title, lines));
  }

  /** A line cut to 110 units, with parentheses and backslashes as spaces where asked. */
  predicate ShownAs(line: Text, blanked: bool, shown: Text) {
    && |shown| == (if |line| <= 110 then |line| else 110)
    && forall k | 0 <= k < |shown| ::
         shown[k] == if blanked && (line[k] == 40 || line[k] == 41 || line[k] == 92) then 32 else line[k]
  }

  lemma BlankedShows(line: Text)
    ensures ShownAs(line, false, Cut(line)) && ShownAs(line, true, Cut(Blanked(line)))
  {
  }

  lemma LineShown(title: Text, lines: seq<Text>, i: nat) returns (shown: Text)
    requires i < 54 && i < |lines| + 2
    ensures var texts := TextsOf(PageLines(ContentLines(title, lines)));
            && |texts| == (if |lines| <= 52 then |lines| + 2 else 54)
            && texts[i] == LineFed(Encode(shown))
    ensures i == 0 ==> ShownAs(title, false, shown)
    ensures i == 1 ==> shown == []
    ensures i > 1 ==> ShownAs(lines[i - 2], true, shown)
  {
    shown := Cut(ContentLines(title, lines)[i]);
    if i == 0 {
      BlankedShows(title);
    } else if i > 1 {
      BlankedShows(lines[i - 2]);
    }
  }

  /** Line by line: the reader gets the title, an empty line, and the lines with parentheses and
      backslashes as spaces, as far as the page goes. */
  lemma PageShows(title: Text, lines: seq<Text>, i: nat) returns (texts: seq<Bytes>, shown: Text)
    requires i < 54 && i < |lines| + 2
    ensures ReadPage(PdfOf(title, lines)) == Some(texts)
    ensures |texts| == (if |lines| <= 52 then |lines| + 2 else 54) && texts[i] == LineFed(Encode(shown))
    ensures i == 0 ==> ShownAs(title, false, shown)
    ensures i == 1 ==> shown == []
    ensures i > 1 ==> ShownAs(lines[i - 2], true, shown)
  {
    PageReadsBack(title, lines);
    texts := TextsOf(PageLines(ContentLines(title, lines)));
    shown := LineShown(title, lines, i);
  }

  /** A text comes back byte for byte exactly when it holds no carriage return. */
  lemma TextComesBackExactlyWhen(text: Text, rest: Bytes)
    ensures ReadLiteral(Encode(EscapePdf(text)) + [RIGHT] + rest, 0) == Some(Literal(Encode(text), rest))
            <==> CR !in text
  {
    EscapesOnce(text);
    EncodeEscaped(text);
    LiteralReadsBack(Encode(text), rest);
    LineFedSame(Encode(text));
    CarriageReturns(text);
  }
}
