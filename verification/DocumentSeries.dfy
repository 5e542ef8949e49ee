/** Document numbers: a prefix and a zero-padded sequence, found by parsing back the
    numbers already there. */
module DocumentSeries {
  import opened Base
  import opened Numerals

  // ----- parsing -----

  /** White space and line terminators of ECMAScript. */
  predicate IsSpace(c: char) {
    || c in "\t\n\r " || c in {'\U{000B}', '\U{000C}', '\U{00A0}', '\U{1680}', '\U{2028}', '\U{2029}', '\U{202F}',
        '\U{205F}', '\U{3000}', '\U{FEFF}'}
    || '\U{2000}' <= c <= '\U{200A}'
  }

  function SkipSpaces(s: string): string {
    if s != [] && IsSpace(s[0]) then SkipSpaces(s[1..]) else s
  }

  /** The value of the digits in front, continuing from `sofar`. */
  function LeadingValue(s: string, sofar: nat): nat {
    if s == [] || !IsDigit(s[0]) then sofar else LeadingValue(s[1..], sofar * 10 + DigitValue(s[0]))
  }

  /** parseInt in base ten: leading blanks, a sign, as many digits as there are;
      nothing when there is no digit. */
  function ParseInt(s: string): Option<int> {
    var t := SkipSpaces(s);
    var signed := t != [] && t[0] in "+-";
    var u := if signed then t[1..] else t;
    if u == [] || !IsDigit(u[0]) then None
    else
      var value: int := LeadingValue(u, 0);
      Some(if signed && t[0] == '-' then -value else value)
  }

  // ----- the series -----

  datatype Series = Series(prefix: string, includeYear: bool, padLength: int, yearlyReset: bool)

  function Upper(c: char): char {
    if 'a' <= c <= 'z' then (c as int - 32) as char else c
  }

  /** The configured prefix in capitals without any blanks. */
  function Cleaned(prefix: string): string {
    if prefix == [] then [] else (if IsSpace(prefix[0]) then [] else [Upper(prefix[0])]) + Cleaned(prefix[1..])
  }

  function NumberPrefix(series: Series, year: nat): string {
    var base := Cleaned(if series.prefix == "" then "DOC" else series.prefix);
    if series.includeYear || series.yearlyReset then base + "-" + Decimal(year) + "-" else base + "-"
  }

  function Pad(series: Series): (pad: nat)
    ensures 1 <= pad <= 10
  {
    var length := if series.padLength == 0 then 5 else series.padLength;
    if length < 1 then 1 else if length > 10 then 10 else length
  }

  const SCAN_LIMIT: nat := 5000

  function Matching(numbers: seq<string>, prefix: string): seq<string> {
    if numbers == [] then []
    else
      var last := numbers[|numbers| - 1];
      Matching(numbers[..|numbers| - 1], prefix) + (if prefix <= last then [last] else [])
  }

  /** The rows a scan reads. */
  function Scanned(numbers: seq<string>, prefix: string): seq<string> {
    var rows := Matching(numbers, prefix);
    if |rows| <= SCAN_LIMIT then rows else rows[..SCAN_LIMIT]
  }

  function SequenceIn(row: string, prefix: string): Option<int> {
    ParseInt(if |prefix| <= |row| then row[|prefix|..] else "")
  }

  function Highest(rows: seq<string>, prefix: string): nat {
    if rows == [] then 0
    else
      var rest := Highest(rows[..|rows| - 1], prefix);
      var n := SequenceIn(rows[|rows| - 1], prefix);
      if n.Some? && n.value > rest then n.value else rest
  }

  method MaxSeq(rows: seq<string>, prefix: string) returns (highest: nat)
    ensures highest == Highest(rows, prefix)
  {
    var i := 0;
    highest := 0;
    while i < |rows|
      invariant 0 <= i <= |rows|
      invariant highest == Highest(rows[..i], prefix)
    {
      assert rows[..i + 1][..i] == rows[..i];
      var n := SequenceIn(rows[i], prefix);
      if n.Some? && n.value > highest {
        highest := n.value;
      }
      i := i + 1;
    }
    assert rows[..|rows|] == rows;
  }

  function NextSequence(numbers: seq<string>, prefix: string): nat {
    Highest(Scanned(numbers, prefix), prefix) + 1
  }

  function NumberFor(prefix: string, sequence: nat, pad: nat): string {
    prefix + PadStart(Decimal(sequence), pad)
  }

  /** The number the service hands out, given all existing ones of the type. */
  function Next(numbers: seq<string>, series: Series, year: nat): string {
    var prefix := NumberPrefix(series, year);
    NumberFor(prefix, NextSequence(numbers, prefix), Pad(series))
  }

  // ----- print and parse -----

  lemma {:induction false} LeadingValueAppend(s: string, c: char, sofar: nat)
    requires AllDigits(s) && IsDigit(c)
    ensures LeadingValue(s + [c], sofar) == LeadingValue(s, sofar) * 10 + DigitValue(c)
  {
    if s == [] {
      assert ([c])[1..] == [];
    } else {
      assert (s + [c])[1..] == s[1..] + [c];
      LeadingValueAppend(s[1..], c, sofar * 10 + DigitValue(s[0]));
    }
  }

  lemma {:induction false} DecimalValue(n: nat)
    ensures LeadingValue(Decimal(n), 0) == n
  {
    if n < 10 {
      assert Decimal(n)[1..] == [];
    } else {
      DecimalDigits(n / 10);
      DecimalValue(n / 10);
      LeadingValueAppend(Decimal(n / 10), DigitOf(n % 10), 0);
    }
  }

  lemma {:induction false} PaddedValue(s: string, width: nat)
    requires AllDigits(s) && |s| > 0
    ensures AllDigits(PadStart(s, width)) && |PadStart(s, width)| > 0
    ensures LeadingValue(PadStart(s, width), 0) == LeadingValue(s, 0)
    decreases width
  {
    if |s| >= width {
    } else {
      PaddedValue(s, width - 1);
      assert ("0" + PadStart(s, width - 1))[1..] == PadStart(s, width - 1);
    }
  }

  lemma {:induction false} BlanksSkipped(blanks: string, rest: string)
    requires forall i | 0 <= i < |blanks| :: IsSpace(blanks[i])
    requires rest == "" || !IsSpace(rest[0])
    ensures SkipSpaces(blanks + rest) == rest
  {
    if blanks == "" {
      assert blanks + rest == rest;
    } else {
      assert (blanks + rest)[1..] == blanks[1..] + rest;
      BlanksSkipped(blanks[1..], rest);
    }
  }

  lemma {:induction false} DigitsThenRest(s: string, rest: string, sofar: nat)
    requires AllDigits(s) && (rest == "" || !IsDigit(rest[0]))
    ensures LeadingValue(s + rest, sofar) == LeadingValue(s, sofar)
  {
    if s == [] {
      assert s + rest == rest;
    } else {
      assert (s + rest)[1..] == s[1..] + rest;
      DigitsThenRest(s[1..], rest, sofar * 10 + DigitValue(s[0]));
    }
  }

  lemma DigitsParse(n: nat, rest: string)
    requires rest == "" || !IsDigit(rest[0])
    ensures var digits := Decimal(n) + rest;
            digits != "" && IsDigit(digits[0]) && LeadingValue(digits, 0) == n
  {
    DecimalDigits(n);
    DecimalValue(n);
    DigitsThenRest(Decimal(n), rest, 0);
  }

  lemma SignedParses(sign: string, digits: string, n: nat)
    requires sign == "" || sign == "+" || sign == "-"
    requires digits != "" && IsDigit(digits[0]) && LeadingValue(digits, 0) == n
    ensures !IsSpace((sign + digits)[0])
    ensures var value: int := n;
            ParseInt(sign + digits) == Some(if sign == "-" then -value else value)
  {
    assert sign != "" ==> (sign + digits)[1..] == digits;
    assert sign == "" ==> sign + digits == digits;
  }

  /** parseInt takes blanks, a sign and digits in front, and ignores the rest of the text. */
  lemma ParsesNumber(blanks: string, sign: string, n: nat, rest: string)
    requires forall i | 0 <= i < |blanks| :: IsSpace(blanks[i])
    requires sign == "" || sign == "+" || sign == "-"
    requires rest == "" || !IsDigit(rest[0])
    ensures var value: int := n;
            ParseInt(blanks + (sign + (Decimal(n) + rest))) == Some(if sign == "-" then -value else value)
  {
    var shown := sign + (Decimal(n) + rest);
    DigitsParse(n, rest);
    SignedParses(sign, Decimal(n) + rest, n);
    BlanksSkipped(blanks, shown);
    BlanksSkipped("", shown);
  }

  /** Parsing back a padded sequence returns it, for any sequence and padding. */
  lemma ParsesBack(sequence: nat, pad: nat)
    ensures ParseInt(PadStart(Decimal(sequence), pad)) == Some(sequence)
  {
    DecimalDigits(sequence);
    DecimalValue(sequence);
    PaddedValue(Decimal(sequence), pad);
  }

  /** So the sequence in a number is the one it was made with. */
  lemma NumberShowsSequence(prefix: string, sequence: nat, pad: nat)
    ensures prefix <= NumberFor(prefix, sequence, pad)
    ensures SequenceIn(NumberFor(prefix, sequence, pad), prefix) == Some(sequence)
  {
    ParsesBack(sequence, pad);
    assert NumberFor(prefix, sequence, pad)[|prefix|..] == PadStart(Decimal(sequence), pad);
  }

  // ----- how a number reads -----

  /** Padding puts zeros in front, as many as are missing. */
  lemma {:induction false} PaddedWithZeros(s: string, width: nat) returns (zeros: string)
    ensures PadStart(s, width) == zeros + s && |zeros| == (if |s| < width then width - |s| else 0)
    ensures forall i | 0 <= i < |zeros| :: zeros[i] == '0'
    decreases width
  {
    if |s| >= width {
      zeros := "";
    } else {
      var rest := PaddedWithZeros(s, width - 1);
      zeros := "0" + rest;
      assert "0" + (rest + s) == "0" + rest + s;
    }
  }

  /** Cleaning goes character by character: blanks go, small letters become capitals, and
      text without either stays. */
  lemma {:induction false} CleanedByCharacter(a: string, c: char)
    ensures Cleaned(a + [c]) == Cleaned(a)
              + (if IsSpace(c) then "" else if 'a' <= c <= 'z' then [c - 'a' + 'A'] else [c])
  {
    if a == "" {
      assert a + [c] == [c] && [c][1..] == "";
    } else {
      assert (a + [c])[1..] == a[1..] + [c];
      CleanedByCharacter(a[1..], c);
    }
  }

  /** The next number is the cleaned prefix, DOC if none is configured, the year where it is
      included or restarts the series, and the next sequence, padded with zeros to the
      configured width: five if none is, and between one and ten. */
  lemma NextReads(numbers: seq<string>, series: Series, year: nat) returns (zeros: string)
    ensures var base := Cleaned(if series.prefix == "" then "DOC" else series.prefix);
            var prefix := if series.includeYear || series.yearlyReset then base + "-" + Decimal(year) + "-"
                          else base + "-";
            var digits := Decimal(NextSequence(numbers, prefix));
            var width := if series.padLength == 0 then 5 else if series.padLength > 10 then 10
                         else if series.padLength < 1 then 1 else series.padLength;
            && Next(numbers, series, year) == prefix + (zeros + digits)
            && |zeros| == (if |digits| < width then width - |digits| else 0)
            && forall i | 0 <= i < |zeros| :: zeros[i] == '0'
  {
    zeros := PaddedWithZeros(Decimal(NextSequence(numbers, NumberPrefix(series, year))), Pad(series));
  }

  // ----- freshness -----

  lemma {:induction false} MatchingHolds(numbers: seq<string>, prefix: string, number: string)
    ensures number in Matching(numbers, prefix) <==> number in numbers && prefix <= number
  {
    if numbers == [] {
    } else {
      MatchingHolds(numbers[..|numbers| - 1], prefix, number);
      assert numbers == numbers[..|numbers| - 1] + [numbers[|numbers| - 1]];
    }
  }

  lemma {:induction false} HighestBounds(rows: seq<string>, prefix: string, row: string)
    requires row in rows
    ensures SequenceIn(row, prefix).Some? ==> SequenceIn(row, prefix).value <= Highest(rows, prefix)
  {
    var n := |rows| - 1;
    assert rows == rows[..n] + [rows[n]];
    if row == rows[n] {
    } else {
      HighestBounds(rows[..n], prefix, row);
    }
  }

  /** The next number differs from every existing one, whatever was entered by hand
      and however the series was configured before, while no more rows share its
      prefix than one scan reads. */
  lemma NextIsFresh(numbers: seq<string>, series: Series, year: nat)
    requires |Matching(numbers, NumberPrefix(series, year))| <= SCAN_LIMIT
    ensures Next(numbers, series, year) !in numbers
  {
    var prefix := NumberPrefix(series, year);
    var next := Next(numbers, series, year);
    NumberShowsSequence(prefix, NextSequence(numbers, prefix), Pad(series));
    if next in numbers {
      MatchingHolds(numbers, prefix, next);
      HighestBounds(Scanned(numbers, prefix), prefix, next);
    }
  }

  method NextNumber(numbers: seq<string>, series: Series, year: nat) returns (number: string)
    ensures number == Next(numbers, series, year)
    ensures |Matching(numbers, NumberPrefix(series, year))| <= SCAN_LIMIT ==> number !in numbers
  {
    var prefix := NumberPrefix(series, year);
    var highest := MaxSeq(Scanned(numbers, prefix), prefix);
    number := NumberFor(prefix, highest + 1, Pad(series));
    if |Matching(numbers, prefix)| <= SCAN_LIMIT {
      NextIsFresh(numbers, series, year);
    }
  }

  /** Each number handed out and stored raises the next sequence by exactly one. */
  lemma SequencesRise(numbers: seq<string>, series: Series, year: nat)
    requires |Matching(numbers, NumberPrefix(series, year))| < SCAN_LIMIT
    ensures var prefix := NumberPrefix(series, year);
            NextSequence(numbers + [Next(numbers, series, year)], prefix) == NextSequence(numbers, prefix) + 1
  {
    var prefix := NumberPrefix(series, year);
    var next := Next(numbers, series, year);
    NumberShowsSequence(prefix, NextSequence(numbers, prefix), Pad(series));
    var rows := Matching(numbers, prefix);
    assert (numbers + [next])[..|numbers|] == numbers;
    assert Matching(numbers + [next], prefix) == rows + [next];
    assert (rows + [next])[..|rows|] == rows;
  }

  lemma {:induction false} HighestIsReached(rows: seq<string>, prefix: string) returns (row: string)
    requires Highest(rows, prefix) > 0
    ensures row in rows && SequenceIn(row, prefix) == Some(Highest(rows, prefix))
  {
    var n := |rows| - 1;
    var last := SequenceIn(rows[n], prefix);
    if last.Some? && last.value > Highest(rows[..n], prefix) {
      row := rows[n];
    } else {
      row := HighestIsReached(rows[..n], prefix);
    }
  }

  /** The next sequence exceeds every sequence on the prefix that a scan of at most 5000 rows
      reads, and by one the highest, or is one. */
  lemma NextSequenceIsLeast(numbers: seq<string>, prefix: string, row: string)
    requires |Matching(numbers, prefix)| <= 5000
    ensures row in numbers && prefix <= row && ParseInt(row[|prefix|..]).Some?
            ==> ParseInt(row[|prefix|..]).value < NextSequence(numbers, prefix)
    ensures NextSequence(numbers, prefix) > 1 ==>
              exists r | r in numbers && prefix <= r ::
                ParseInt(r[|prefix|..]) == Some(NextSequence(numbers, prefix) - 1)
  {
    var rows := Scanned(numbers, prefix);
    MatchingHolds(numbers, prefix, row);
    if row in rows {
      HighestBounds(rows, prefix, row);
    }
    if Highest(rows, prefix) > 0 {
      var r := HighestIsReached(rows, prefix);
      MatchingHolds(numbers, prefix, r);
    }
  }

  /** However a table grows between two requests, by numbers handed out or entered by hand
      and under whatever configuration, the next sequence of a prefix never falls, and it
      exceeds that of every number on the prefix handed out before. */
  lemma SequencesNeverFall(numbers: seq<string>, later: seq<string>, prefix: string, sequence: nat, pad: nat)
    requires |Matching(numbers, prefix)| <= SCAN_LIMIT && |Matching(later, prefix)| <= SCAN_LIMIT
    ensures (forall number | number in numbers :: number in later)
            ==> NextSequence(numbers, prefix) <= NextSequence(later, prefix)
    ensures NumberFor(prefix, sequence, pad) in later ==> sequence < NextSequence(later, prefix)
  {
    var rows := Matching(numbers, prefix);
    if (forall number | number in numbers :: number in later) && Highest(rows, prefix) > 0 {
      var row := HighestIsReached(rows, prefix);
      MatchingHolds(numbers, prefix, row);
      MatchingHolds(later, prefix, row);
      HighestBounds(Matching(later, prefix), prefix, row);
    }
    var number := NumberFor(prefix, sequence, pad);
    if number in later {
      NumberShowsSequence(prefix, sequence, pad);
      MatchingHolds(later, prefix, number);
      HighestBounds(Matching(later, prefix), prefix, number);
    }
  }

  function Counted(prefix: string, pad: nat, n: nat): (rows: seq<string>)
    ensures |rows| == n
  {
    if n == 0 then [] else Counted(prefix, pad, n - 1) + [NumberFor(prefix, n, pad)]
  }

  lemma {:induction false} CountedMatches(prefix: string, pad: nat, n: nat)
    ensures Matching(Counted(prefix, pad, n), prefix) == Counted(prefix, pad, n)
    ensures Highest(Counted(prefix, pad, n), prefix) == n
  {
    if n == 0 {
    } else {
      CountedMatches(prefix, pad, n - 1);
      NumberShowsSequence(prefix, n, pad);
      assert Counted(prefix, pad, n)[..n - 1] == Counted(prefix, pad, n - 1);
    }
  }

  lemma {:induction false} CountedPrefix(prefix: string, pad: nat, m: nat, n: nat)
    requires n <= m
    ensures Counted(prefix, pad, m)[..n] == Counted(prefix, pad, n)
  {
    if n == m {
    } else {
      CountedPrefix(prefix, pad, m - 1, n);
    }
  }

  /** Freshness is guaranteed for tables with m rows sharing the prefix exactly when
      a scan reads that many: beyond the limit some table makes the series repeat
      one of its numbers. */
  lemma FreshExactlyWithinLimit(series: Series, year: nat, m: nat)
    ensures (forall numbers | |Matching(numbers, NumberPrefix(series, year))|
              == m :: Next(numbers, series, year) !in numbers)
            <==> m <= 5000
  {
    var prefix := NumberPrefix(series, year);
    if m <= SCAN_LIMIT {
      forall numbers | |Matching(numbers, prefix)| == m
        ensures Next(numbers, series, year) !in numbers
      {
        NextIsFresh(numbers, series, year);
      }
    } else {
      var n: nat := SCAN_LIMIT;
      var numbers := Counted(prefix, Pad(series), m);
      CountedMatches(prefix, Pad(series), m);
      CountedMatches(prefix, Pad(series), n);
      CountedPrefix(prefix, Pad(series), m, n);
      CountedPrefix(prefix, Pad(series), m, n + 1);
      assert numbers[n] == numbers[..n + 1][n] == Next(numbers, series, year);
    }
  }
}
