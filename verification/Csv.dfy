/** Reports as comma-separated values, and the reader of RFC 4180 (section 2, with
    LF as line break) that gets them back. */
module Csv {
  import opened Base
  import opened Sequences

  // ----- printing -----

  /** A record's values by key; what is absent or null prints as the empty string.
      Values other than strings are taken in their string form. */
  type Record = map<string, Option<string>>

  function Cell(row: Record, key: string): string {
    if key in row && row[key].Some? then row[key].value else ""
  }

  /** Doubles every quote. */
  function Escaped(s: string): string {
    if s == [] then [] else (if s[0] == '"' then "\"\"" else [s[0]]) + Escaped(s[1..])
  }

  function Quoted(s: string): string {
    "\"" + Escaped(s) + "\""
  }

  function Join(parts: seq<string>, separator: char): string {
    if parts == [] then []
    else if |parts| == 1 then parts[0]
    else parts[0] + [separator] + Join(parts[1..], separator)
  }

  function Cells(row: Record, keys: seq<string>): (cells: seq<string>)
    ensures |cells| == |keys|
  {
    seq(|keys|, i requires 0 <= i < |keys| => Cell(row, keys[i]))
  }

  function QuotedAll(cells: seq<string>): (quoted: seq<string>)
    ensures |quoted| == |cells|
  {
    seq(|cells|, i requires 0 <= i < |cells| => Quoted(cells[i]))
  }

  function Lines(rows: seq<Record>, keys: seq<string>): (lines: seq<string>)
    ensures |lines| == |rows|
  {
    seq(|rows|, i requires 0 <= i < |rows| => Join(QuotedAll(Cells(rows[i], keys)), ','))
  }

  /** `keys` lists the first record's keys in their order. */
  function RecordsToCsv(rows: seq<Record>, keys: seq<string>): string {
    if rows == [] then "message\nNo records\n" else Join([Join(keys, ',')] + Lines(rows, keys), '\n')
  }

  /** The cells of every record. */
  function Table(rows: seq<Record>, keys: seq<string>): (table: seq<seq<string>>)
    ensures |table| == |rows|
  {
    seq(|rows|, i requires 0 <= i < |rows| => Cells(rows[i], keys))
  }

  // ----- reading -----

  datatype Read<T> = Read(value: T, rest: string)

  /** The rest of a quoted field, after its opening quote. */
  function ReadQuoted(s: string): Option<Read<string>> {
    if s == [] then None
    else if s[0] != '"' then
      match ReadQuoted(s[1..])
      case None => None
      case Some(r) => Some(Read([s[0]] + r.value, r.rest))
    else if |s| >= 2 && s[1] == '"' then
      match ReadQuoted(s[2..])
      case None => None
      case Some(r) => Some(Read("\"" + r.value, r.rest))
    else Some(Read("", s[1..]))
  }

  predicate EndsField(s: string) {
    s == [] || s[0] == ',' || s[0] == '\n'
  }

  function ReadPlain(s: string): Option<Read<string>> {
    if EndsField(s) then Some(Read("", s))
    else if s[0] == '"' || s[0] == '\r' then None
    else
      match ReadPlain(s[1..])
      case None => None
      case Some(r) => Some(Read([s[0]] + r.value, r.rest))
  }

  function ReadField(s: string): (r: Option<Read<string>>)
    ensures r.Some? ==> EndsField(r.value.rest) && |r.value.rest| <= |s|
  {
    if s != [] && s[0] == '"' then
      var r := ReadQuoted(s[1..]);
      if r.Some? then
        ReadQuotedInverts(s[1..]);
        if EndsField(r.value.rest) then r else None
      else None
    else
      var r := ReadPlain(s);
      if r.Some? then ReadPlainInverts(s); r else r
  }

  function ReadRecord(s: string): (r: Option<Read<seq<string>>>)
    ensures r.Some? ==> r.value.value != [] && |r.value.rest| <= |s| && (r.value.rest == [] || r.value.rest[0] == '\n')
    decreases |s|
  {
    var f := ReadField(s);
    if f.None? then None
    else if f.value.rest == [] || f.value.rest[0] == '\n' then Some(Read([f.value.value], f.value.rest))
    else
      match ReadRecord(f.value.rest[1..])
      case None => None
      case Some(r) => Some(Read([f.value.value] + r.value, r.rest))
  }

  /** All records of a file; the last one may or may not end in a line break. */
  function ReadFile(s: string): Option<seq<seq<string>>>
    decreases |s|
  {
    var r := ReadRecord(s);
    if r.None? then None
    else if |r.value.rest| <= 1 then Some([r.value.value])
    else
      match ReadFile(r.value.rest[1..])
      case None => None
      case Some(more) => Some([r.value.value] + more)
  }

  /** Text that needs no quotes. */
  predicate PlainText(s: string) {
    forall i | 0 <= i < |s| :: s[i] != ',' && s[i] != '\n' && s[i] != '\r' && s[i] != '"'
  }

  // ----- fields -----

  lemma ReadQuotedUnit(c: char, more: string, value: string, rest: string)
    requires ReadQuoted(more) == Some(Read(value, rest))
    ensures ReadQuoted((if c == '"' then "\"\"" else [c]) + more) == Some(Read([c] + value, rest))
  {
    assert ("\"\"" + more)[2..] == more && ([c] + more)[1..] == more;
  }

  lemma {:induction false} ReadQuotedBack(s: string, rest: string)
    requires rest == [] || rest[0] != '"'
    ensures ReadQuoted(Escaped(s) + "\"" + rest) == Some(Read(s, rest))
  {
    if s == [] {
      assert Escaped(s) + "\"" + rest == "\"" + rest && ("\"" + rest)[1..] == rest;
    } else {
      var more := Escaped(s[1..]) + "\"" + rest;
      var unit := if s[0] == '"' then "\"\"" else [s[0]];
      ReadQuotedBack(s[1..], rest);
      ReadQuotedUnit(s[0], more, s[1..], rest);
      assert Escaped(s) + "\"" + rest == unit + more;
      Uncons(s);
    }
  }

  lemma {:induction false} ReadQuotedInverts(s: string)
    ensures ReadQuoted(s).Some? ==> s == Escaped(ReadQuoted(s).value.value) + "\"" + ReadQuoted(s).value.rest
    ensures ReadQuoted(s).Some? ==> |ReadQuoted(s).value.rest| < |s|
    decreases |s|
  {
    if s == [] || ReadQuoted(s).None? {
    } else {
      var r := ReadQuoted(s).value;
      if s[0] != '"' {
        ReadQuotedInverts(s[1..]);
        assert r.value[1..] == ReadQuoted(s[1..]).value.value;
        assert s == [s[0]] + s[1..];
      } else if |s| >= 2 && s[1] == '"' {
        ReadQuotedInverts(s[2..]);
        assert r.value[1..] == ReadQuoted(s[2..]).value.value;
        assert s == "\"\"" + s[2..];
      } else {
        assert s == "\"" + s[1..];
      }
    }
  }

  lemma {:induction false} ReadPlainBack(s: string, rest: string)
    requires PlainText(s) && EndsField(rest)
    ensures ReadPlain(s + rest) == Some(Read(s, rest))
  {
    if s == [] {
      assert s + rest == rest;
    } else {
      ReadPlainBack(s[1..], rest);
      assert (s + rest)[1..] == s[1..] + rest;
      assert s == [s[0]] + s[1..];
    }
  }

  lemma {:induction false} ReadPlainInverts(s: string)
    ensures ReadPlain(s).Some? ==>
              var r := ReadPlain(s).value;
              s == r.value + r.rest && PlainText(r.value) && EndsField(r.rest)
  {
    if EndsField(s) || ReadPlain(s).None? {
    } else {
      var r := ReadPlain(s[1..]).value;
      ReadPlainInverts(s[1..]);
      PlainCons(s[0], r.value);
      Regroup([s[0]], r.value, r.rest);
      Uncons(s);
    }
  }

  lemma Uncons(s: string)
    requires s != []
    ensures s == [s[0]] + s[1..]
  {
  }

  lemma PlainCons(c: char, s: string)
    requires PlainText(s) && c != ',' && c != '\n' && c != '\r' && c != '"'
    ensures PlainText([c] + s)
  {
  }

  // ----- records -----

  lemma JoinMore(parts: seq<string>, separator: char, rest: string)
    requires |parts| > 1
    ensures Join(parts, separator) + rest == parts[0] + ([separator] + (Join(parts[1..], separator) + rest))
  {
    Regroup(parts[0] + [separator], Join(parts[1..], separator), rest);
    Regroup(parts[0], [separator], Join(parts[1..], separator) + rest);
  }

  lemma QuotedReadsBack(cell: string, rest: string)
    requires EndsField(rest)
    ensures ReadField(Quoted(cell) + rest) == Some(Read(cell, rest))
  {
    ReadQuotedBack(cell, rest);
    assert (Quoted(cell) + rest)[1..] == Escaped(cell) + "\"" + rest;
  }

  lemma FieldThenRecord(text: string, field: string, more: string, cells: seq<string>, rest: string)
    requires ReadField(text) == Some(Read(field, [','] + more)) && ReadRecord(more) == Some(Read(cells, rest))
    ensures ReadRecord(text) == Some(Read([field] + cells, rest))
  {
    assert ([','] + more)[1..] == more;
  }

  /** A line of quoted cells reads back as the cells. */
  lemma {:induction false} CellsReadBack(cells: seq<string>, rest: string)
    requires cells != [] && (rest == [] || rest[0] == '\n')
    ensures ReadRecord(Join(QuotedAll(cells), ',') + rest) == Some(Read(cells, rest))
  {
    var quoted := QuotedAll(cells);
    if |cells| == 1 {
      QuotedReadsBack(cells[0], rest);
      assert cells == [cells[0]];
    } else {
      var more := Join(QuotedAll(cells[1..]), ',') + rest;
      assert quoted[1..] == QuotedAll(cells[1..]);
      JoinMore(quoted, ',', rest);
      QuotedReadsBack(cells[0], [','] + more);
      CellsReadBack(cells[1..], rest);
      FieldThenRecord(Join(quoted, ',') + rest, cells[0], more, cells[1..], rest);
      assert cells == [cells[0]] + cells[1..];
    }
  }

  lemma KeyReadsBack(key: string, rest: string)
    requires PlainText(key) && EndsField(rest)
    ensures ReadField(key + rest) == Some(Read(key, rest))
  {
    ReadPlainBack(key, rest);
  }

  /** A header of plain keys reads back as the keys. */
  lemma {:induction false} HeaderReadsBack(keys: seq<string>, rest: string)
    requires keys != [] && (rest == [] || rest[0] == '\n')
    requires forall i | 0 <= i < |keys| :: PlainText(keys[i])
    ensures ReadRecord(Join(keys, ',') + rest) == Some(Read(keys, rest))
  {
    if |keys| == 1 {
      KeyReadsBack(keys[0], rest);
      assert keys == [keys[0]];
    } else {
      var more := Join(keys[1..], ',') + rest;
      JoinMore(keys, ',', rest);
      KeyReadsBack(keys[0], [','] + more);
      HeaderReadsBack(keys[1..], rest);
      FieldThenRecord(Join(keys, ',') + rest, keys[0], more, keys[1..], rest);
      assert keys == [keys[0]] + keys[1..];
    }
  }

  lemma RecordThenFile(text: string, cells: seq<string>, more: string, table: seq<seq<string>>)
    requires ReadRecord(text) == Some(Read(cells, ['\n'] + more)) && more != [] && ReadFile(more) == Some(table)
    ensures ReadFile(text) == Some([cells] + table)
  {
    assert (['\n'] + more)[1..] == more;
  }

  lemma LineThenLines(lines: seq<string>, cells: seq<string>, table: seq<seq<string>>)
    requires |lines| > 1 && cells != [] && lines[0] == Join(QuotedAll(cells), ',')
    requires Join(lines[1..], '\n') != [] && ReadFile(Join(lines[1..], '\n')) == Some(table)
    ensures ReadFile(Join(lines, '\n')) == Some([cells] + table)
  {
    var more := Join(lines[1..], '\n');
    CellsReadBack(cells, ['\n'] + more);
    RecordThenFile(lines[0] + (['\n'] + more), cells, more, table);
    Regroup(lines[0], ['\n'], more);
  }

  lemma FirstAndRest(rows: seq<Record>, keys: seq<string>)
    requires rows != []
    ensures Lines(rows, keys)[1..] == Lines(rows[1..], keys)
    ensures Table(rows, keys) == [Cells(rows[0], keys)] + Table(rows[1..], keys)
  {
  }

  /** The lines of any records read back as their cells. */
  lemma {:induction false} LinesReadBack(rows: seq<Record>, keys: seq<string>)
    requires rows != [] && keys != []
    ensures ReadFile(Join(Lines(rows, keys), '\n')) == Some(Table(rows, keys))
  {
    var lines := Lines(rows, keys);
    var cells := Cells(rows[0], keys);
    assert lines[0] == Join(QuotedAll(cells), ',');
    if |rows| == 1 {
      CellsReadBack(cells, []);
      assert lines[0] + [] == lines[0];
      assert Table(rows, keys) == [cells];
    } else {
      FirstAndRest(rows, keys);
      LinesReadBack(rows[1..], keys);
      LineNotEmpty(Cells(rows[1], keys), lines[1..]);
      LineThenLines(lines, cells, Table(rows[1..], keys));
    }
  }

  lemma LineNotEmpty(cells: seq<string>, lines: seq<string>)
    requires cells != [] && lines != [] && lines[0] == Join(QuotedAll(cells), ',')
    ensures |Join(lines, '\n')| > 0
  {
    assert |QuotedAll(cells)[0]| > 0;
  }

  // ----- unquoted keys -----

  function LeadingQuotes(s: string): nat {
    if s == [] || s[0] != '"' then 0 else 1 + LeadingQuotes(s[1..])
  }

  lemma {:induction false} EscapedQuotes(s: string, rest: string)
    ensures LeadingQuotes(Escaped(s) + rest) >= 2 * LeadingQuotes(s)
  {
    if s == [] || s[0] != '"' {
    } else {
      EscapedQuotes(s[1..], rest);
      var more := Escaped(s[1..]) + rest;
      assert Escaped(s) + rest == "\"\"" + more;
      assert ("\"\"" + more)[1..] == "\"" + more && ("\"" + more)[1..] == more;
    }
  }

  lemma {:induction false} UnquotedTail(s: string, rest: string)
    requires rest == [] || rest[0] != '"'
    ensures LeadingQuotes(s + rest) == LeadingQuotes(s)
  {
    if s == [] {
      assert s + rest == rest;
    } else {
      UnquotedTail(s[1..], rest);
      assert (s + rest)[1..] == s[1..] + rest;
    }
  }

  /** A field written without quotes reads back as itself only if it is plain. */
  lemma ReadsBackOnlyIfPlain(key: string, rest: string)
    requires EndsField(rest) && ReadField(key + rest).Some? && ReadField(key + rest).value.value == key
    ensures PlainText(key) && ReadField(key + rest).value.rest == rest
  {
    var text := key + rest;
    if text != [] && text[0] == '"' {
      ReadQuotedInverts(text[1..]);
      var after := "\"" + ReadQuoted(text[1..]).value.rest;
      assert text == "\"" + (Escaped(key) + after);
      assert ("\"" + (Escaped(key) + after))[1..] == Escaped(key) + after;
      EscapedQuotes(key, after);
      UnquotedTail(key, rest);
      assert false;
    } else {
      ReadPlainInverts(text);
      var r := ReadPlain(text).value;
      assert text[|key|..] == rest && text[|key|..] == r.rest;
    }
  }

  lemma {:induction false} HeaderReadsBackOnlyIfPlain(keys: seq<string>, rest: string)
    requires keys != [] && rest != [] && rest[0] == '\n'
    requires ReadRecord(Join(keys, ',') + rest).Some? && ReadRecord(Join(keys, ',') + rest).value.value == keys
    ensures forall i | 0 <= i < |keys| :: PlainText(keys[i])
  {
    var text := Join(keys, ',') + rest;
    var tail := if |keys| == 1 then rest else "," + (Join(keys[1..], ',') + rest);
    assert text == keys[0] + tail;
    ReadsBackOnlyIfPlain(keys[0], tail);
    if |keys| <= 1 {
    } else {
      assert tail[1..] == Join(keys[1..], ',') + rest;
      assert ReadRecord(text).value.value[1..] == keys[1..];
      HeaderReadsBackOnlyIfPlain(keys[1..], rest);
      forall i | 0 <= i < |keys|
        ensures PlainText(keys[i])
      {
        assert i > 0 ==> keys[i] == keys[1..][i - 1];
      }
    }
  }

  /** The reader recovers exactly the header and every cell, whatever commas, quotes
      and line breaks the cells hold, if and only if there are keys and each of them
      is plain text: cells are quoted, keys are not. */
  lemma RoundTripExactlyWhen(rows: seq<Record>, keys: seq<string>)
    requires rows != []
    ensures ReadFile(RecordsToCsv(rows, keys)) == Some([keys] + Table(rows, keys))
            <==> keys != [] && forall i | 0 <= i < |keys| :: PlainText(keys[i])
  {
    var lines := Lines(rows, keys);
    var body := Join(lines, '\n');
    var text := RecordsToCsv(rows, keys);
    var table := [keys] + Table(rows, keys);
    assert ([Join(keys, ',')] + lines)[1..] == lines;
    assert text == Join(keys, ',') + ("\n" + body);
    assert ("\n" + body)[1..] == body;
    if keys != [] && forall i | 0 <= i < |keys| :: PlainText(keys[i]) {
      HeaderReadsBack(keys, "\n" + body);
      LinesReadBack(rows, keys);
      LineNotEmpty(Cells(rows[0], keys), lines);
    } else if ReadFile(text) == Some(table) {
      assert table[0] == keys;
      assert ReadRecord(text).Some? && ReadRecord(text).value.value == keys;
      HeaderReadsBackOnlyIfPlain(keys, "\n" + body);
    }
  }

  /** Under plain keys each value is read back in its record and column, an absent or null one as
      the empty text. */
  lemma ValueReadsBack(rows: seq<Record>, keys: seq<string>, i: nat, j: nat) returns (file: seq<seq<string>>)
    requires i < |rows| && j < |keys| && forall k | 0 <= k < |keys| :: PlainText(keys[k])
    ensures ReadFile(RecordsToCsv(rows, keys)) == Some(file)
    ensures |file| == |rows| + 1 && file[0] == keys && |file[i + 1]| == |keys|
    ensures file[i + 1][j]
         == if keys[j] in rows[i] && rows[i][keys[j]].Some? then rows[i][keys[j]].value else ""
  {
    RoundTripExactlyWhen(rows, keys);
    file := [keys] + Table(rows, keys);
    assert file[i + 1] == Cells(rows[i], keys);
  }
}
