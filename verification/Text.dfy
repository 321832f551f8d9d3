/** Text as the source sees it: UTF-16 code units, walked by code point, counted in UTF-8 bytes
    (section 3 of RFC 3629), and written as a JSON string. */
module Text {
  import opened Bytes

  type Unit = u: int | 0 <= u < 0x1_0000
  type Point = p: int | 0 <= p < 0x11_0000

  predicate IsHigh(u: int) { 0xD800 <= u < 0xDC00 }

  predicate IsLow(u: int) { 0xDC00 <= u < 0xE000 }

  predicate IsSurrogate(u: int) { 0xD800 <= u < 0xE000 }

  /** Does a surrogate pair start the text? */
  predicate StartsWithPair(text: seq<Unit>) {
    |text| >= 2 && IsHigh(text[0]) && IsLow(text[1])
  }

  function Combine(high: Unit, low: Unit): Point
    requires IsHigh(high) && IsLow(low)
  {
    0x1_0000 + (high - 0xD800) * 0x400 + (low - 0xDC00)
  }

  /** The code points a string iterator visits: pairs together, everything else alone. */
  function Points(text: seq<Unit>): seq<Point>
    decreases |text|
  {
    if text == [] then []
    else if StartsWithPair(text) then [Combine(text[0], text[1])] + Points(text[2..])
    else [text[0]] + Points(text[1..])
  }

  /** One code point in one to four bytes, as the table of RFC 3629 writes it. */
  function Encode(p: Point): seq<Byte> {
    if p < 0x80 then [p]
    else if p < 0x800 then [0xC0 + p / 0x40, 0x80 + p % 0x40]
    else if p < 0x1_0000 then [0xE0 + p / 0x1000, 0x80 + p / 0x40 % 0x40, 0x80 + p % 0x40]
    else [0xF0 + p / 0x4_0000, 0x80 + p / 0x1000 % 0x40, 0x80 + p / 0x40 % 0x40, 0x80 + p % 0x40]
  }

  function EncodeAll(points: seq<Point>): seq<Byte> {
    if points == [] then [] else Encode(points[0]) + EncodeAll(points[1..])
  }

  function Utf8(text: seq<Unit>): seq<Byte> { EncodeAll(Points(text)) }

  // ---- the encoding is one: it reads back -----------------------------------------------------------

  predicate IsTail(b: Byte) { b / 0x40 == 2 }

  function Low6(b: Byte): int { b % 0x40 }

  /** The code point at the front of `bytes` and the number of bytes it took, 0 for malformed input. */
  function DecodeFirst(bytes: seq<Byte>): (Point, nat)
    requires bytes != []
  {
    var a: int := bytes[0];
    if a < 0x80 then (a, 1)
    else if 0xC0 <= a < 0xE0 && |bytes| >= 2 && IsTail(bytes[1]) then
      ((a - 0xC0) * 0x40 + Low6(bytes[1]), 2)
    else if 0xE0 <= a < 0xF0 && |bytes| >= 3 && IsTail(bytes[1]) && IsTail(bytes[2]) then
      (((a - 0xE0) * 0x40 + Low6(bytes[1])) * 0x40 + Low6(bytes[2]), 3)
    else if 0xF0 <= a < 0xF4 && |bytes| >= 4 && IsTail(bytes[1]) && IsTail(bytes[2]) && IsTail(bytes[3]) then
      ((((a - 0xF0) * 0x40 + Low6(bytes[1])) * 0x40 + Low6(bytes[2])) * 0x40 + Low6(bytes[3]), 4)
    else if a == 0xF4 && |bytes| >= 4 && 0x80 <= bytes[1] < 0x90 && IsTail(bytes[2]) && IsTail(bytes[3]) then
      (0x10_0000 + ((Low6(bytes[1])) * 0x40 + Low6(bytes[2])) * 0x40 + Low6(bytes[3]), 4)
    else (0, 0)
  }

  function DecodeAll(bytes: seq<Byte>): seq<Point>
    decreases |bytes|
  {
    if bytes == [] then []
    else
      var (p, used) := DecodeFirst(bytes);
      if used == 0 || used > |bytes| then [] else [p] + DecodeAll(bytes[used..])
  }

  lemma EncodeReadsBack(p: Point, rest: seq<Byte>)
    ensures DecodeFirst(Encode(p) + rest) == (p, |Encode(p)|)
  {
    if p >= 0x1_0000 { FourReadBack(p, rest); }
    else if p >= 0x800 { ThreeReadBack(p, rest); }
    else { FewReadBack(p, rest); }
  }

  lemma FewReadBack(p: Point, rest: seq<Byte>)
    requires p < 0x800
    ensures DecodeFirst(Encode(p) + rest) == (p, |Encode(p)|)
  {}

  lemma ThreeReadBack(p: Point, rest: seq<Byte>)
    requires 0x800 <= p < 0x1_0000
    ensures DecodeFirst(Encode(p) + rest) == (p, |Encode(p)|)
  {
    assert p == (p / 0x1000 * 0x40 + p / 0x40 % 0x40) * 0x40 + p % 0x40;
  }

  lemma FourReadBack(p: Point, rest: seq<Byte>)
    requires p >= 0x1_0000
    ensures DecodeFirst(Encode(p) + rest) == (p, |Encode(p)|)
  {
    assert p == ((p / 0x4_0000 * 0x40 + p / 0x1000 % 0x40) * 0x40 + p / 0x40 % 0x40) * 0x40 + p % 0x40;
  }

  lemma {:induction false} EncodeAllReadsBack(points: seq<Point>)
    ensures DecodeAll(EncodeAll(points)) == points
  {
    if points != [] {
      var first, rest := Encode(points[0]), EncodeAll(points[1..]);
      EncodeReadsBack(points[0], rest);
      assert (first + rest)[|first|..] == rest;
      EncodeAllReadsBack(points[1..]);
    }
  }

  // ---- counting the bytes instead of writing them ---------------------------------------------------

  method ByteLength(text: seq<Unit>) returns (bytes: nat)
    ensures bytes == |Utf8(text)|
  {
    bytes := 0;
    var i := 0;
    while i < |text|
      invariant 0 <= i <= |text|
      invariant bytes + |Utf8(text[i..])| == |Utf8(text)|
    {
      ghost var left := text[i..];
      var code: Point;
      if i + 1 < |text| && IsHigh(text[i]) && IsLow(text[i + 1]) {
        code := Combine(text[i], text[i + 1]);
        assert left[2..] == text[i + 2..];
        i := i + 2;
      } else {
        code := text[i];
        assert left[1..] == text[i + 1..];
        i := i + 1;
      }
      assert Points(left) == [code] + Points(text[i..]);
      bytes := bytes + if code < 0x80 then 1 else if code < 0x800 then 2 else if code < 0x1_0000 then 3 else 4;
    }
    assert text[|text|..] == [];
  }

  /** A cut between the two halves of a surrogate pair. */
  predicate SplitsPair(a: seq<Unit>, b: seq<Unit>) {
    a != [] && b != [] && IsHigh(a[|a| - 1]) && IsLow(b[0])
  }

  /** The count is additive exactly at the cuts that split no pair; a split costs two bytes. */
  lemma {:induction false} LengthOfConcat(a: seq<Unit>, b: seq<Unit>)
    ensures |Utf8(a)| + |Utf8(b)| == |Utf8(a + b)| + if SplitsPair(a, b) then 2 else 0
    decreases |a|
  {
    hide Utf8, Encode;
    if a == [] {
      assert a + b == b;
      EmptyCost();
    } else if |a| == 1 && SplitsPair(a, b) {
      assert (a + b)[2..] == b[1..] && a[1..] == [];
      CountFirst(a + b, 2);
      CountFirst(a, 1);
      CountFirst(b, 1);
      EmptyCost();
      PairCost(a[0], b[0]);
    } else {
      var n := if StartsWithPair(a) then 2 else 1;
      assert (a + b)[n..] == a[n..] + b;
      CountFirst(a, n);
      CountFirst(a + b, n);
      LengthOfConcat(a[n..], b);
    }
  }

  lemma EmptyCost()
    ensures |Utf8([])| == 0
  {}

  lemma PairCost(high: Unit, low: Unit)
    requires IsHigh(high) && IsLow(low)
    ensures |Encode(high)| == |Encode(low)| == 3 && |Encode(Combine(high, low))| == 4
  {}

  lemma CountFirst(text: seq<Unit>, n: nat)
    requires text != [] && n == if StartsWithPair(text) then 2 else 1
    ensures |Utf8(text)| == |Encode(if n == 2 then Combine(text[0], text[1]) else text[0])| + |Utf8(text[n..])|
  {
    assert Points(text)[1..] == Points(text[n..]);
  }

  lemma {:induction false} EncodedLengthAdds(p: seq<Point>, q: seq<Point>)
    ensures |EncodeAll(p + q)| == |EncodeAll(p)| + |EncodeAll(q)|
  {
    if p == [] {
      assert p + q == q;
    } else {
      assert (p + q)[1..] == p[1..] + q;
      EncodedLengthAdds(p[1..], q);
    }
  }

  // ---- JSON strings ---------------------------------------------------------------------------------

  function HexDigit(d: int): Point
    requires 0 <= d < 16
  {
    if d < 10 then '0' as int + d else 'a' as int + d - 10
  }

  function UnicodeEscape(u: Unit): seq<Point> {
    ['\\' as int, 'u' as int, HexDigit(u / 0x1000), HexDigit(u / 0x100 % 16), HexDigit(u / 16 % 16), HexDigit(u % 16)]
  }

  /** One code point inside a JSON string. A lone surrogate is escaped, a pair is not. */
  function Escape(p: Point): seq<Point> {
    if p == '\"' as int || p == '\\' as int then ['\\' as int, p]
    else if p == 8 then ['\\' as int, 'b' as int]
    else if p == 9 then ['\\' as int, 't' as int]
    else if p == 10 then ['\\' as int, 'n' as int]
    else if p == 12 then ['\\' as int, 'f' as int]
    else if p == 13 then ['\\' as int, 'r' as int]
    else if p < 0x20 || IsSurrogate(p) then UnicodeEscape(p)
    else [p]
  }

  function EscapeAll(points: seq<Point>): seq<Point> {
    if points == [] then [] else Escape(points[0]) + EscapeAll(points[1..])
  }

  /** `JSON.stringify` of a string, as the code points of its result. */
  function Quote(text: seq<Unit>): seq<Point> {
    ['\"' as int] + EscapeAll(Points(text)) + ['\"' as int]
  }

  /** Bytes of a text given by its code points. */
  function Size(points: seq<Point>): nat { |EncodeAll(points)| }

  /** The worst a JSON string can cost: six bytes for every code unit and two for the quotes. */
  lemma QuoteCost(text: seq<Unit>)
    ensures Size(Quote(text)) <= 6 * |text| + 2
  {
    EscapeCost(text);
    var body := EscapeAll(Points(text));
    EncodedLengthAdds(['\"' as int] + body, ['\"' as int]);
    EncodedLengthAdds(['\"' as int], body);
  }

  lemma {:induction false} EscapeCost(text: seq<Unit>)
    ensures Size(EscapeAll(Points(text))) <= 6 * |text|
    decreases |text|
  {
    if text != [] {
      var n := if StartsWithPair(text) then 2 else 1;
      var p := Points(text)[0];
      EscapeCost(text[n..]);
      assert Points(text)[1..] == Points(text[n..]);
      EncodedLengthAdds(Escape(p), EscapeAll(Points(text[n..])));
      EscapedPointCost(p);
    }
  }

  lemma EscapedPointCost(p: Point)
    ensures Size(Escape(p)) <= 6
  {
    var e := Escape(p);
    if |e| == 1 {
      assert e[1..] == [] && EncodeAll(e) == Encode(p) + [];
    } else {
      AsciiCost(e);
    }
  }

  /** A text of ASCII characters costs one byte each. */
  lemma {:induction false} AsciiCost(points: seq<Point>)
    requires forall p <- points :: p < 0x80
    ensures Size(points) == |points|
  {
    if points != [] {
      assert points[0] in points && Encode(points[0]) == [points[0]];
      assert forall p <- points[1..] :: p in points;
      AsciiCost(points[1..]);
    }
  }

  // ---- code points written back as code units -------------------------------------------------------

  function Units(points: seq<Point>): seq<Unit> {
    if points == [] then []
    else if points[0] < 0x1_0000 then [points[0]] + Units(points[1..])
    else [0xD800 + (points[0] - 0x1_0000) / 0x400, 0xDC00 + (points[0] - 0x1_0000) % 0x400] + Units(points[1..])
  }

  /** The text is the word, unit by unit. */
  ghost predicate Spells(text: seq<Unit>, word: string) {
    |text| == |word| && forall i :: 0 <= i < |word| ==> text[i] == word[i] as int
  }

  lemma {:induction false} UnitsOfPlain(points: seq<Point>)
    requires forall p <- points :: p < 0x1_0000
    ensures Units(points) == points
  {
    if points != [] {
      assert points[0] in points && forall p <- points[1..] :: p in points;
      UnitsOfPlain(points[1..]);
    }
  }

  /** A text without surrogate code points is walked back into the same code points, so counting the
      bytes of the string `JSON.stringify` returns is counting the bytes of `Quote`. */
  lemma {:induction false} UnitsReadBack(points: seq<Point>)
    requires forall p <- points :: !IsSurrogate(p)
    ensures Points(Units(points)) == points
  {
    if points != [] {
      assert points[0] in points;
      assert forall p <- points[1..] :: p in points;
      UnitsReadBack(points[1..]);
      var rest := Units(points[1..]);
      if points[0] < 0x1_0000 {
        assert Units(points)[1..] == rest;
      } else {
        assert Units(points)[2..] == rest;
      }
    }
  }
}
