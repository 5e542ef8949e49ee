/** Reading UTF-8 back, as RFC 3629 lays it out. */
module Utf8 {
  import opened PdfText

  function UnitOf(n: int): CodeUnit {
    if 0 <= n < 0x1_0000 then n else 0xFFFD
  }

  /** The low six bits of a continuation byte. */
  function Six(b: nat): int {
    b - 0x80
  }

  function PairOf(scalar: int): Text {
    [UnitOf(0xD800 + (scalar - 0x1_0000) / 0x400), UnitOf(0xDC00 + (scalar - 0x1_0000) % 0x400)]
  }

  /** The first character's code units, and how many bytes it took. */
  function ReadFirst(b: Bytes): (r: (Text, nat))
    requires b != []
    ensures 1 <= r.1 <= |b|
  {
    if b[0] < 0x80 || |b| < 2 then ([b[0]], 1)
    else if b[0] < 0xE0 then ([UnitOf((b[0] - 0xC0) * 0x40 + Six(b[1]))], 2)
    else if |b| < 3 then ([b[0]], 1)
    else if b[0] < 0xF0 then ([UnitOf((b[0] - 0xE0) * 0x1000 + Six(b[1]) * 0x40 + Six(b[2]))], 3)
    else if |b| < 4 then ([b[0]], 1)
    else (PairOf((b[0] - 0xF0) * 0x4_0000 + Six(b[1]) * 0x1000 + Six(b[2]) * 0x40 + Six(b[3])), 4)
  }

  function Decode(b: Bytes): Text
    decreases |b|
  {
    if b == [] then []
    else
      var first := ReadFirst(b);
      first.0 + Decode(b[first.1..])
  }

  /** A text whose surrogates without a partner are replacement characters. */
  function Repaired(t: Text): Text {
    if t == [] then []
    else if StartsWithPair(t) then t[..2] + Repaired(t[2..])
    else [if High(t[0]) || Low(t[0]) then 0xFFFD else t[0]] + Repaired(t[1..])
  }

  lemma UnitReads(u: CodeUnit, rest: Bytes)
    ensures ReadFirst(EncodeUnit(u) + rest) == ([if High(u) || Low(u) then 0xFFFD else u], |EncodeUnit(u)|)
  {
    var b := EncodeUnit(u) + rest;
    if u < 0x80 {
    } else if u < 0x800 {
      assert b[0] == 0xC0 + u / 0x40 && b[1] == 0x80 + u % 0x40;
    } else if High(u) || Low(u) {
      assert b[0] == 0xEF && b[1] == 0xBF && b[2] == 0xBD;
    } else {
      assert b[0] == 0xE0 + u / 0x1000 && b[1] == 0x80 + u / 0x40 % 0x40 && b[2] == 0x80 + u % 0x40;
      var x, y, z := Digits64(u);
    }
  }

  lemma Digits64(n: nat) returns (a: nat, b: nat, c: nat)
    ensures n == a * 0x40 + n % 0x40 && a == b * 0x40 + a % 0x40 && b == c * 0x40 + b % 0x40
    ensures a == n / 0x40 && b == n / 0x1000 && c == n / 0x4_0000
  {
    a, b, c := n / 0x40, n / 0x40 / 0x40, n / 0x40 / 0x40 / 0x40;
    Quotient1000(n, b, a % 0x40 * 0x40 + n % 0x40);
    Quotient40000(n, c, b % 0x40 * 0x1000 + a % 0x40 * 0x40 + n % 0x40);
  }

  lemma Quotient1000(n: nat, q: nat, r: nat)
    requires n == q * 0x1000 + r && r < 0x1000
    ensures n / 0x1000 == q
  {
  }

  lemma Quotient40000(n: nat, q: nat, r: nat)
    requires n == q * 0x4_0000 + r && r < 0x4_0000
    ensures n / 0x4_0000 == q
  {
  }

  lemma PairReads(high: CodeUnit, low: CodeUnit, rest: Bytes)
    requires High(high) && Low(low)
    ensures ReadFirst(EncodePair(high, low) + rest) == ([high, low], 4)
  {
    var b := EncodePair(high, low) + rest;
    var scalar := 0x1_0000 + (high - 0xD800) * 0x400 + (low - 0xDC00);
    var x, y, z := Digits64(scalar);
    assert b[0] == 0xF0 + scalar / 0x4_0000 && b[1] == 0x80 + scalar / 0x1000 % 0x40;
    assert b[2] == 0x80 + scalar / 0x40 % 0x40 && b[3] == 0x80 + scalar % 0x40;
    assert PairOf(scalar) == [high, low];
  }

  /** Decoding an encoded text gives it back, but for surrogates without a partner. */
  lemma {:induction false} EncodedReadsBack(t: Text)
    ensures Decode(Encode(t)) == Repaired(t)
    decreases |t|
  {
    if t == [] {
    } else {
      var rest := Encode(t[Width(t)..]);
      EncodedReadsBack(t[Width(t)..]);
      if StartsWithPair(t) {
        PairReads(t[0], t[1], rest);
        assert t[..2] == [t[0], t[1]];
      } else {
        UnitReads(t[0], rest);
      }
      assert (EncodeFirst(t) + rest)[|EncodeFirst(t)|..] == rest;
    }
  }
}
