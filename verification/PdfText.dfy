/** Text as UTF-16 code units and its bytes in UTF-8, and the literal strings of PDF
    files: their escaping, and the reader of section 7.3.4.2 of ISO 32000-1. */
module PdfText {
  import opened Base
  import opened Sequences

  // ----- text and bytes -----

  /** Strings are sequences of UTF-16 code units, surrogates included. */
  type CodeUnit = u: nat | u < 0x1_0000

  type Text = seq<CodeUnit>

  /** A buffer; that encoding fills it with bytes is EncodesToBytes. */
  type Bytes = Text

  predicate AreBytes(t: Text) {
    forall i | 0 <= i < |t| :: t[i] < 0x100
  }

  const LF: nat := 10
  const CR: nat := 13
  const SPACE: nat := 32
  const LEFT: nat := 40
  const RIGHT: nat := 41
  const BACKSLASH: nat := 92

  /** Plain ASCII text as code units, which are also its bytes. */
  function Ascii(s: string): (t: Text)
    ensures |t| == |s| && Plain(t)
  {
    seq(|s|, i requires 0 <= i < |s| => s[i] as int % 0x80)
  }

  predicate Plain(t: Text) {
    forall i | 0 <= i < |t| :: t[i] < 0x80
  }

  predicate High(u: nat) {
    0xD800 <= u < 0xDC00
  }

  predicate Low(u: nat) {
    0xDC00 <= u < 0xE000
  }

  /** One code unit in UTF-8; a surrogate on its own becomes the replacement character. */
  function EncodeUnit(u: CodeUnit): (bytes: Bytes)
    ensures 1 <= |bytes| <= 3 && AreBytes(bytes)
    ensures if u < 0x80 then bytes == [u] else forall i | 0 <= i < |bytes| :: bytes[i] >= 0x80
  {
    if u < 0x80 then [u]
    else if u < 0x800 then [0xC0 + u / 0x40, 0x80 + u % 0x40]
    else if High(u) || Low(u) then [0xEF, 0xBF, 0xBD]
    else [0xE0 + u / 0x1000, 0x80 + u / 0x40 % 0x40, 0x80 + u % 0x40]
  }

  function EncodePair(high: CodeUnit, low: CodeUnit): (bytes: Bytes)
    requires High(high) && Low(low)
    ensures |bytes| == 4 && AreBytes(bytes) && forall i | 0 <= i < 4 :: bytes[i] >= 0x80
  {
    var scalar := 0x1_0000 + (high - 0xD800) * 0x400 + (low - 0xDC00);
    [0xF0 + scalar / 0x4_0000, 0x80 + scalar / 0x1000 % 0x40, 0x80 + scalar / 0x40 % 0x40, 0x80 + scalar % 0x40]
  }

  predicate StartsWithPair(t: Text) {
    |t| >= 2 && High(t[0]) && Low(t[1])
  }

  /** The first character, a pair of surrogates or a single unit. */
  function EncodeFirst(t: Text): (bytes: Bytes)
    requires t != []
  {
    if StartsWithPair(t) then EncodePair(t[0], t[1]) else EncodeUnit(t[0])
  }

  function Width(t: Text): (n: nat)
    requires t != []
    ensures 1 <= n <= |t|
  {
    if StartsWithPair(t) then 2 else 1
  }

  /** Buffer.from(t, 'utf8'). */
  function Encode(t: Text): Bytes {
    if t == [] then [] else EncodeFirst(t) + Encode(t[Width(t)..])
  }

  /** No surrogate pair straddles the seam between two texts. */
  predicate Seam(a: Text, b: Text) {
    a == [] || b == [] || !High(a[|a| - 1]) || !Low(b[0])
  }

  lemma FirstOfConcat(a: Text, b: Text)
    requires a != [] && Seam(a, b)
    ensures Width(a + b) == Width(a) && EncodeFirst(a + b) == EncodeFirst(a)
    ensures (a + b)[Width(a)..] == a[Width(a)..] + b && Seam(a[Width(a)..], b)
  {
    assert (a + b)[0] == a[0];
    assert |a| + |b| >= 2 ==> (a + b)[1] == if |a| >= 2 then a[1] else b[0];
  }

  lemma {:induction false} EncodeConcat(a: Text, b: Text)
    requires Seam(a, b)
    ensures Encode(a + b) == Encode(a) + Encode(b)
    decreases |a|
  {
    if a == [] {
      assert a + b == b;
    } else {
      FirstOfConcat(a, b);
      EncodeConcat(a[Width(a)..], b);
      Regroup(EncodeFirst(a), Encode(a[Width(a)..]), Encode(b));
    }
  }

  lemma {:induction false} EncodePlain(t: Text)
    requires Plain(t)
    ensures Encode(t) == t
  {
    if t == [] {
    } else {
      EncodePlain(t[1..]);
      assert Width(t) == 1 && EncodeFirst(t) == [t[0]];
    }
  }

  /** Plain text around a text stays as it is. */
  lemma EncodeBetween(before: Text, t: Text, after: Text)
    requires Plain(before) && Plain(after)
    ensures Encode(before + t + after) == before + Encode(t) + after
  {
    EncodeConcat(before, t);
    EncodePlain(before);
    EncodeConcat(before + t, after);
    EncodePlain(after);
  }

  lemma {:induction false} EncodesToBytes(t: Text)
    ensures AreBytes(Encode(t))
    decreases |t|
  {
    if t == [] {
    } else {
      EncodesToBytes(t[Width(t)..]);
    }
  }

  lemma {:induction false} EncodedSize(t: Text)
    ensures |Encode(t)| <= 3 * |t|
    decreases |t|
  {
    if t == [] {
    } else {
      EncodedSize(t[Width(t)..]);
    }
  }

  // ----- literal strings -----

  function ReplaceAll(s: Text, unit: CodeUnit, into: Text): Text {
    if s == [] then [] else (if s[0] == unit then into else [s[0]]) + ReplaceAll(s[1..], unit, into)
  }

  function EscapePdf(s: Text): Text {
    ReplaceAll(ReplaceAll(ReplaceAll(s, BACKSLASH, [BACKSLASH, BACKSLASH]), LEFT, [BACKSLASH, LEFT]), RIGHT,
        [BACKSLASH, RIGHT])
  }

  predicate Special(u: nat) {
    u == LEFT || u == RIGHT || u == BACKSLASH
  }

  function EscapedUnit(u: CodeUnit): Text {
    if Special(u) then [BACKSLASH, u] else [u]
  }

  /** A backslash in front of every special unit. */
  function Escaped(s: Text): (e: Text)
    ensures |e| <= 2 * |s|
  {
    if s == [] then [] else EscapedUnit(s[0]) + Escaped(s[1..])
  }

  lemma {:induction false} ReplaceConcat(a: Text, b: Text, unit: CodeUnit, into: Text)
    ensures ReplaceAll(a + b, unit, into) == ReplaceAll(a, unit, into) + ReplaceAll(b, unit, into)
  {
    if a == [] {
      assert a + b == b;
    } else {
      ReplaceConcat(a[1..], b, unit, into);
      Regroup(if a[0] == unit then into else [a[0]], ReplaceAll(a[1..], unit, into), ReplaceAll(b, unit, into));
      assert (a + b)[1..] == a[1..] + b;
    }
  }

  lemma ReplaceShort(s: Text, unit: CodeUnit, into: Text)
    requires |s| <= 2
    ensures |s| == 1 ==> ReplaceAll(s, unit, into) == if s[0] == unit then into else s
    ensures |s| == 2 ==>
              ReplaceAll(s, unit, into) ==
                (if s[0] == unit then into else [s[0]]) + (if s[1] == unit then into else [s[1]])
  {
    if |s| == 2 {
      assert s[1..] == [s[1]];
      assert ReplaceAll([s[1]], unit, into) == (if s[1] == unit then into else [s[1]]) + ReplaceAll([], unit, into);
    }
  }

  /** The three replacements in turn escape each unit once: the backslashes the later
      ones add are not escaped again. */
  lemma {:induction false} EscapesOnce(s: Text)
    ensures EscapePdf(s) == Escaped(s)
  {
    if s == [] {
    } else {
      var u := [s[0]];
      var slashed := ReplaceAll(u, BACKSLASH, [BACKSLASH, BACKSLASH]);
      var parted := ReplaceAll(slashed, LEFT, [BACKSLASH, LEFT]);
      ReplaceConcat(u, s[1..], BACKSLASH, [BACKSLASH, BACKSLASH]);
      ReplaceConcat(slashed, ReplaceAll(s[1..], BACKSLASH, [BACKSLASH, BACKSLASH]), LEFT, [BACKSLASH, LEFT]);
      ReplaceConcat(parted,
          ReplaceAll(ReplaceAll(s[1..], BACKSLASH, [BACKSLASH, BACKSLASH]), LEFT, [BACKSLASH, LEFT]), RIGHT,
              [BACKSLASH, RIGHT]);
      ReplaceShort(u, BACKSLASH, [BACKSLASH, BACKSLASH]);
      ReplaceShort(slashed, LEFT, [BACKSLASH, LEFT]);
      ReplaceShort(parted, RIGHT, [BACKSLASH, RIGHT]);
      assert s == u + s[1..];
      EscapesOnce(s[1..]);
    }
  }

  lemma {:induction false} EscapedConcat(a: Text, b: Text)
    ensures Escaped(a + b) == Escaped(a) + Escaped(b)
  {
    if a == [] {
      assert a + b == b;
    } else {
      EscapedConcat(a[1..], b);
      Regroup(EscapedUnit(a[0]), Escaped(a[1..]), Escaped(b));
      assert (a + b)[1..] == a[1..] + b;
    }
  }

  lemma {:induction false} NothingToEscape(s: Text)
    requires forall i | 0 <= i < |s| :: !Special(s[i])
    ensures Escaped(s) == s
  {
    if s == [] {
    } else {
      NothingToEscape(s[1..]);
      assert s == [s[0]] + s[1..];
    }
  }

  lemma EscapedFirst(s: Text)
    requires s != []
    ensures Escaped(s) == Escaped(s[..Width(s)]) + Escaped(s[Width(s)..])
    ensures Escaped(EncodeFirst(s)) == Encode(Escaped(s[..Width(s)]))
    ensures Seam(Escaped(s[..Width(s)]), Escaped(s[Width(s)..]))
  {
    var first := s[..Width(s)];
    assert s == first + s[Width(s)..];
    EscapedConcat(first, s[Width(s)..]);
    if StartsWithPair(s) || !Special(s[0]) {
      NothingToEscape(first);
      NothingToEscape(EncodeFirst(s));
      assert first[Width(s)..] == [];
      assert Encode(first) == EncodeFirst(first) + [];
      assert EncodeFirst(first) == EncodeFirst(s);
    } else {
      assert first == [s[0]] == EncodeFirst(s);
      EncodePlain(Escaped(first));
    }
  }

  /** Escaping a text and then encoding it is escaping its bytes. */
  lemma {:induction false} EncodeEscaped(s: Text)
    ensures Encode(Escaped(s)) == Escaped(Encode(s))
    decreases |s|
  {
    if s == [] {
    } else {
      var rest := s[Width(s)..];
      EscapedFirst(s);
      EncodeConcat(Escaped(s[..Width(s)]), Escaped(rest));
      EncodeEscaped(rest);
      EscapedConcat(EncodeFirst(s), Encode(rest));
    }
  }

  datatype Literal = Literal(text: Bytes, rest: Bytes)

  predicate IsOctal(b: nat) {
    48 <= b < 56
  }

  /** The low byte of an octal number; a missing digit is given as zero. */
  function Octal(a: nat, b: nat, c: nat): (value: CodeUnit) {
    (a % 8 * 64 + b % 8 * 8 + c % 8) % 0x100
  }

  /** What a backslash and the bytes after it stand for, and how many bytes that is:
      a letter escape, up to three octal digits, a line break that is dropped, or the
      next byte itself. */
  function ReadEscape(s: Bytes): (r: (Bytes, nat))
    requires s != []
    ensures 1 <= r.1 <= |s|
  {
    if s[0] == 110 then ([LF], 1)
    else if s[0] == 114 then ([CR], 1)
    else if s[0] == 116 then ([9], 1)
    else if s[0] == 98 then ([8], 1)
    else if s[0] == 102 then ([12], 1)
    else if s[0] == LF then ([], 1)
    else if s[0] == CR then ([], if |s| >= 2 && s[1] == LF then 2 else 1)
    else if !IsOctal(s[0]) then ([s[0]], 1)
    else if |s| < 2 || !IsOctal(s[1]) then ([Octal(0, 0, s[0])], 1)
    else if |s| < 3 || !IsOctal(s[2]) then ([Octal(0, s[0], s[1])], 2)
    else ([Octal(s[0], s[1], s[2])], 3)
  }

  function Prefixed(text: Bytes, l: Option<Literal>): (r: Option<Literal>)
    ensures r.Some? <==> l.Some?
    ensures r.Some? ==> r.value == Literal(text + l.value.text, l.value.rest)
  {
    if l.None? then None else Some(Literal(text + l.value.text, l.value.rest))
  }

  /** A literal string after its opening parenthesis, `depth` parentheses being open
      inside it; an unescaped end of line reads as one line feed. */
  function ReadLiteral(s: Bytes, depth: nat): (r: Option<Literal>)
    ensures r.Some? ==> |r.value.rest| < |s|
    decreases |s|
  {
    if s == [] then None
    else if s[0] == BACKSLASH then
      if |s| == 1 then None
      else
        var e := ReadEscape(s[1..]);
        Prefixed(e.0, ReadLiteral(s[1 + e.1..], depth))
    else if s[0] == RIGHT then
      if depth == 0 then Some(Literal([], s[1..])) else Prefixed([RIGHT], ReadLiteral(s[1..], depth - 1))
    else if s[0] == LEFT then Prefixed([LEFT], ReadLiteral(s[1..], depth + 1))
    else if s[0] == CR then Prefixed([LF], ReadLiteral(s[if |s| >= 2 && s[1] == LF then 2 else 1..], depth))
    else Prefixed([s[0]], ReadLiteral(s[1..], depth))
  }

  /** Every end of line as one line feed. */
  function LineFed(s: Bytes): Bytes
    decreases |s|
  {
    if s == [] then []
    else if s[0] == CR then [LF] + LineFed(s[if |s| >= 2 && s[1] == LF then 2 else 1..])
    else [s[0]] + LineFed(s[1..])
  }

  lemma EscapedStep(s: Bytes, rest: Bytes)
    requires s != []
    ensures Escaped(s) + [RIGHT] + rest == EscapedUnit(s[0]) + (Escaped(s[1..]) + [RIGHT] + rest)
  {
  }

  lemma ReadUnit(c: CodeUnit, more: Bytes)
    ensures Special(c) ==> ReadLiteral([BACKSLASH, c] + more, 0) == Prefixed([c], ReadLiteral(more, 0))
    ensures !Special(c) && c != CR ==> ReadLiteral([c] + more, 0) == Prefixed([c], ReadLiteral(more, 0))
  {
    assert ([BACKSLASH, c] + more)[1..] == [c] + more && ([BACKSLASH, c] + more)[2..] == more;
    assert ([c] + more)[1..] == more;
    assert Special(c) ==> ReadEscape([c] + more) == ([c], 1);
  }

  lemma ReadLineEnd(more: Bytes)
    ensures ReadLiteral([CR, LF] + more, 0) == Prefixed([LF], ReadLiteral(more, 0))
    ensures more != [] && more[0] != LF ==> ReadLiteral([CR] + more, 0) == Prefixed([LF], ReadLiteral(more, 0))
  {
    assert ([CR, LF] + more)[2..] == more;
    assert ([CR] + more)[1..] == more;
  }

  lemma NoLineFeedAfter(s: Bytes, rest: Bytes)
    requires s != [] && (|s| == 1 || s[1] != LF)
    ensures (Escaped(s[1..]) + [RIGHT] + rest)[0] != LF
  {
    if |s| >= 2 {
      EscapedStep(s[1..], rest);
    }
  }

  lemma LiteralStep(s: Bytes, rest: Bytes)
    requires s != [] && s[0] != CR
    ensures ReadLiteral(Escaped(s) + [RIGHT] + rest, 0)
            == Prefixed([s[0]], ReadLiteral(Escaped(s[1..]) + [RIGHT] + rest, 0))
  {
    EscapedStep(s, rest);
    ReadUnit(s[0], Escaped(s[1..]) + [RIGHT] + rest);
  }

  lemma LiteralPairEnd(s: Bytes, rest: Bytes)
    requires |s| >= 2 && s[0] == CR && s[1] == LF
    ensures ReadLiteral(Escaped(s) + [RIGHT] + rest, 0)
            == Prefixed([LF], ReadLiteral(Escaped(s[2..]) + [RIGHT] + rest, 0))
  {
    var end := Escaped(s[2..]) + [RIGHT] + rest;
    EscapedStep(s, rest);
    EscapedStep(s[1..], rest);
    assert s[1..][1..] == s[2..];
    assert Escaped(s) + [RIGHT] + rest == [CR] + ([LF] + end) == [CR, LF] + end;
    ReadLineEnd(end);
  }

  lemma LiteralSingleEnd(s: Bytes, rest: Bytes)
    requires s != [] && s[0] == CR && (|s| == 1 || s[1] != LF)
    ensures ReadLiteral(Escaped(s) + [RIGHT] + rest, 0)
            == Prefixed([LF], ReadLiteral(Escaped(s[1..]) + [RIGHT] + rest, 0))
  {
    var more := Escaped(s[1..]) + [RIGHT] + rest;
    EscapedStep(s, rest);
    NoLineFeedAfter(s, rest);
    assert Escaped(s) + [RIGHT] + rest == [CR] + more;
    ReadLineEnd(more);
  }

  /** An escaped literal reads back as its text, up to ends of line. */
  lemma {:induction false} LiteralReadsBack(s: Bytes, rest: Bytes)
    ensures ReadLiteral(Escaped(s) + [RIGHT] + rest, 0) == Some(Literal(LineFed(s), rest))
    decreases |s|
  {
    if s == [] {
      assert Escaped(s) + [RIGHT] + rest == [RIGHT] + rest && ([RIGHT] + rest)[1..] == rest;
    } else if |s| >= 2 && s[0] == CR && s[1] == LF {
      LiteralPairEnd(s, rest);
      LiteralReadsBack(s[2..], rest);
    } else if s[0] == CR {
      LiteralSingleEnd(s, rest);
      LiteralReadsBack(s[1..], rest);
    } else {
      LiteralStep(s, rest);
      LiteralReadsBack(s[1..], rest);
    }
  }

  /** Ends of line come back unchanged exactly when none of them has a carriage return. */
  lemma {:induction false} LineFedSame(s: Bytes)
    ensures LineFed(s) == s <==> CR !in s
    ensures |LineFed(s)| <= |s|
    decreases |s|
  {
    if s == [] {
    } else {
      var n := if s[0] == CR && |s| >= 2 && s[1] == LF then 2 else 1;
      LineFedSame(s[n..]);
      assert s == s[..n] + s[n..];
      assert s[0] == LineFed(s)[0] && n == 1 ==> LineFed(s)[1..] == LineFed(s[1..]);
    }
  }

  lemma {:induction false} CarriageReturns(t: Text)
    ensures CR in Encode(t) <==> CR in t
    decreases |t|
  {
    if t == [] {
    } else {
      CarriageReturns(t[Width(t)..]);
      assert t == t[..Width(t)] + t[Width(t)..];
      assert CR in EncodeFirst(t) <==> t[0] == CR;
    }
  }
}
