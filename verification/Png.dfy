/** The PNG writer of `bigPng`: big-endian words, chunk framing, header, scanlines.

    `ParseFile` is an independent reader written from section 3.2 of RFC 2083. The writer's output is
    proved to read back, and everything the reader accepts is proved to be the writer's output. The
    compressed image data is an arbitrary byte string. */
module Png {
  import opened Bytes
  import opened Crc
  import opened Options

  datatype Chunk = Chunk(kind: seq<Byte>, data: seq<Byte>)

  const WORD_LIMIT := 0x1_0000_0000
  const SIGNATURE: seq<Byte> := [137, 80, 78, 71, 13, 10, 26, 10]
  const IHDR: seq<Byte> := [73, 72, 68, 82]
  const IDAT: seq<Byte> := [73, 68, 65, 84]
  const IEND: seq<Byte> := [73, 69, 78, 68]

  // ---- big-endian words -----------------------------------------------------------------------------

  function BigEndian(n: nat): (b: seq<Byte>)
    requires n < WORD_LIMIT
    ensures |b| == 4
  {
    [n / 0x100_0000, n / 0x1_0000 % 256, n / 0x100 % 256, n % 256]
  }

  function FromBigEndian(b: seq<Byte>): nat
    requires |b| == 4
  {
    ((b[0] as int * 256 + b[1]) * 256 + b[2]) * 256 + b[3]
  }

  lemma BigEndianReadsBack(n: nat)
    requires n < WORD_LIMIT
    ensures FromBigEndian(BigEndian(n)) == n
  {
    var a, b, c := n / 0x100_0000, n / 0x1_0000, n / 0x100;
    assert c == b * 256 + c % 256 && n == c * 256 + n % 256;
    assert b == a * 256 + b % 256;
  }

  lemma BigEndianWritesBack(b: seq<Byte>)
    requires |b| == 4
    ensures FromBigEndian(b) < WORD_LIMIT && BigEndian(FromBigEndian(b)) == b
  {
    var n := FromBigEndian(b);
    var c := (b[0] as int * 256 + b[1]) * 256 + b[2];
    var d := b[0] as int * 256 + b[1];
    assert n / 0x100 == c && n % 256 == b[3];
    assert c / 0x100 == d && c % 256 == b[2];
    assert n / 0x1_0000 == d && d / 256 == b[0] && d % 256 == b[1];
    assert n / 0x100_0000 == b[0];
  }

  // ---- chunk framing --------------------------------------------------------------------------------

  ghost predicate Writable(c: Chunk) { |c.kind| == 4 && |c.data| < WORD_LIMIT }

  function ChecksumValue(bytes: seq<Byte>): nat {
    Value(Checksum(bytes))
  }

  lemma ChecksumFits(bytes: seq<Byte>)
    ensures ChecksumValue(bytes) < WORD_LIMIT
  {
    DigitsOfValue(Checksum(bytes));
    PowersOfTwo();
  }

  function Framed(c: Chunk): seq<Byte>
    requires Writable(c)
  {
    ChecksumFits(c.kind + c.data);
    BigEndian(|c.data|) + (c.kind + c.data) + BigEndian(ChecksumValue(c.kind + c.data))
  }

  ghost function FramedAll(chunks: seq<Chunk>): seq<Byte>
    requires forall c <- chunks :: Writable(c)
  {
    if chunks == [] then [] else Framed(chunks[0]) + FramedAll(chunks[1..])
  }

  /** Reads chunks to the end of the input; `None` for a short chunk or a wrong checksum. */
  function ParseChunks(bytes: seq<Byte>): Option<seq<Chunk>>
    decreases |bytes|
  {
    if bytes == [] then Some([])
    else if |bytes| < 12 then None
    else
      var length := FromBigEndian(bytes[..4]);
      if |bytes| < 12 + length then None
      else
        var kind, data := bytes[4..8], bytes[8..8 + length];
        if FromBigEndian(bytes[8 + length..12 + length]) != ChecksumValue(kind + data) then None
        else match ParseChunks(bytes[12 + length..])
          case None => None
          case Some(rest) => Some([Chunk(kind, data)] + rest)
  }

  function ParseFile(bytes: seq<Byte>): Option<seq<Chunk>> {
    if |bytes| >= 8 && bytes[..8] == SIGNATURE then ParseChunks(bytes[8..]) else None
  }

  lemma {:induction false} FramedReadsBack(chunks: seq<Chunk>)
    requires forall c <- chunks :: Writable(c)
    ensures ParseChunks(FramedAll(chunks)) == Some(chunks)
  {
    hide Framed, ParseChunks;
    if chunks == [] {
      NothingReadsBack();
    } else {
      FramedReadsBack(chunks[1..]);
      OneChunkReadsBack(chunks[0], FramedAll(chunks[1..]));
      assert chunks == [chunks[0]] + chunks[1..];
    }
  }

  lemma NothingReadsBack()
    ensures ParseChunks([]) == Some([])
  {}

  lemma OneChunkReadsBack(c: Chunk, rest: seq<Byte>)
    requires Writable(c) && ParseChunks(rest).Some?
    ensures ParseChunks(Framed(c) + rest) == Some([c] + ParseChunks(rest).value)
  {
    hide ChecksumValue, BigEndian, FromBigEndian, Framed;
    var bytes := Framed(c) + rest;
    ChecksumFits(c.kind + c.data);
    BigEndianReadsBack(|c.data|);
    BigEndianReadsBack(ChecksumValue(c.kind + c.data));
    FieldsOf(c, rest);
  }

  lemma FieldsOf(c: Chunk, rest: seq<Byte>)
    requires Writable(c) && ChecksumValue(c.kind + c.data) < WORD_LIMIT
    ensures var bytes := Framed(c) + rest;
      var n := |c.data|;
      && |bytes| == 12 + n + |rest| && bytes[..4] == BigEndian(n)
      && bytes[4..8] == c.kind && bytes[8..8 + n] == c.data
      && bytes[8 + n..12 + n] == BigEndian(ChecksumValue(c.kind + c.data)) && bytes[12 + n..] == rest
  {
    hide ChecksumValue, BigEndian;
    var bytes := Framed(c) + rest;
    var n := |c.data|;
    assert bytes[..4] == BigEndian(n);
    assert bytes[4..8] == c.kind && bytes[8..8 + n] == c.data;
    assert bytes[8 + n..12 + n] == BigEndian(ChecksumValue(c.kind + c.data));
    assert bytes[12 + n..] == rest;
  }

  /** The reader accepts nothing but framed chunks: no second encoding, no trailing bytes. */
  lemma {:induction false} ParsedIsFramed(bytes: seq<Byte>)
    requires ParseChunks(bytes).Some?
    ensures forall c <- ParseChunks(bytes).value :: Writable(c)
    ensures FramedAll(ParseChunks(bytes).value) == bytes
    decreases |bytes|
  {
    if bytes != [] {
      hide ChecksumValue, Framed;
      var n := FromBigEndian(bytes[..4]);
      var c := Chunk(bytes[4..8], bytes[8..8 + n]);
      HeadIsFramed(bytes);
      ParsedIsFramed(bytes[12 + n..]);
      var rest := ParseChunks(bytes[12 + n..]).value;
      assert ParseChunks(bytes).value == [c] + rest;
      assert FramedAll([c] + rest) == Framed(c) + FramedAll(rest) by { assert ([c] + rest)[1..] == rest; }
      assert bytes == bytes[..12 + n] + bytes[12 + n..];
    }
  }

  lemma HeadIsFramed(bytes: seq<Byte>)
    requires |bytes| >= 12
    requires var n := FromBigEndian(bytes[..4]);
      |bytes| >= 12 + n && FromBigEndian(bytes[8 + n..12 + n]) == ChecksumValue(bytes[4..8] + bytes[8..8 + n])
    ensures var n := FromBigEndian(bytes[..4]);
      Writable(Chunk(bytes[4..8], bytes[8..8 + n])) && Framed(Chunk(bytes[4..8], bytes[8..8 + n])) == bytes[..12 + n]
  {
    hide ChecksumValue;
    BigEndianWritesBack(bytes[..4]);
    var n := FromBigEndian(bytes[..4]);
    BigEndianWritesBack(bytes[8 + n..12 + n]);
    assert bytes[..12 + n] == bytes[..4] + (bytes[4..8] + bytes[8..8 + n]) + bytes[8 + n..12 + n];
  }

  // ---- the image ------------------------------------------------------------------------------------

  const RED: Byte := 200
  const BLUE: Byte := 60

  function Green(x: nat, y: nat): Byte { 40 + (x + y) % 40 }

  /** The first `n` RGB triples of scanline `y`. */
  ghost function Pixels(y: nat, n: nat): (p: seq<Byte>)
    ensures |p| == 3 * n
  {
    if n == 0 then [] else Pixels(y, n - 1) + [RED, Green(n - 1, y), BLUE]
  }

  /** Where scanline `y` starts. */
  function RowStart(size: nat, y: nat): nat { if y == 0 then 0 else RowStart(size, y - 1) + (1 + size * 3) }

  /** The same place, as the program computes it. */
  function RowAt(size: nat, y: nat): nat { y * (1 + size * 3) }

  lemma {:induction false} RowStartIs(size: nat, y: nat)
    ensures RowStart(size, y) == RowAt(size, y)
  {
    if y > 0 {
      RowStartIs(size, y - 1);
      Distribute(y, 1 + size * 3);
    }
  }

  lemma Distribute(y: nat, n: nat)
    requires y > 0
    ensures y * n == (y - 1) * n + n
  {}

  lemma {:induction false} RowsFollow(size: nat, y: nat, rows: nat)
    requires y < rows
    ensures RowStart(size, y) + (1 + size * 3) <= RowStart(size, rows)
    decreases rows
  {
    if y < rows - 1 { RowsFollow(size, y, rows - 1); }
  }

  /** The first `rows` scanlines: a zero filter byte, then the triples. */
  ghost function Image(size: nat, rows: nat): (image: seq<Byte>)
    ensures |image| == RowStart(size, rows)
  {
    if rows == 0 then [] else Image(size, rows - 1) + ([0] + Pixels(rows - 1, size))
  }

  method FillImage(size: nat) returns (raw: array<Byte>, ghost written: seq<nat>)
    ensures fresh(raw) && raw[..] == Image(size, size)
    // every index is written once, in increasing order
    ensures |written| == raw.Length && forall i :: 0 <= i < raw.Length ==> written[i] == i
  {
    hide RowStart, RowAt, Pixels, Image;
    raw := new Byte[RowAt(size, size)](i => 0);
    RowStartIs(size, size);
    NoRows(size);
    written := [];
    for y := 0 to size
      invariant |written| == RowStart(size, y) <= raw.Length == RowStart(size, size)
      invariant forall i :: 0 <= i < |written| ==> written[i] == i
      invariant raw[..|written|] == Image(size, y)
    {
      var row := RowAt(size, y);
      RowStartIs(size, y);
      OneMoreRow(size, y);
      RowsFollow(size, y, size);
      written := FillScanline(raw, row, y, size, written);
    }
    assert raw[..] == raw[..|written|];
  }

  lemma NoRows(size: nat)
    ensures RowStart(size, 0) == 0 && Image(size, 0) == []
  {}

  lemma OneMoreRow(size: nat, y: nat)
    ensures RowStart(size, y + 1) == RowStart(size, y) + (1 + size * 3)
    ensures Image(size, y + 1) == Image(size, y) + ([0] + Pixels(y, size))
  {}

  /** The body of the outer loop: one filter byte, then the inner loop over the pixels of the line. */
  method FillScanline(raw: array<Byte>, row: nat, y: nat, size: nat, ghost before: seq<nat>)
    returns (ghost written: seq<nat>)
    requires row + 1 + size * 3 <= raw.Length
    requires |before| == row && forall i :: 0 <= i < row ==> before[i] == i
    modifies raw
    ensures raw[..row + 1 + size * 3] == old(raw[..row]) + ([0] + Pixels(y, size))
    ensures |written| == row + 1 + size * 3 && forall i :: 0 <= i < |written| ==> written[i] == i
  {
    hide Pixels;
    ghost var above := raw[..row];
    assert Pixels(y, 0) == [];
    raw[row] := 0;
    written := before + [row];
    assert raw[..row + 1] == above + [0] + Pixels(y, 0);
    for x := 0 to size
      invariant |written| == row + 1 + x * 3
      invariant forall i :: 0 <= i < |written| ==> written[i] == i
      invariant raw[..row + 1 + x * 3] == above + [0] + Pixels(y, x)
    {
      var at := row + 1 + x * 3;
      WritePixel(raw, at, x, y);
      written := written + [at, at + 1, at + 2];
      OneMorePixel(above + [0], y, x);
    }
  }

  method WritePixel(raw: array<Byte>, at: nat, x: nat, y: nat)
    requires at + 3 <= raw.Length
    modifies raw
    ensures raw[..at + 3] == old(raw[..at]) + [RED, Green(x, y), BLUE]
  {
    raw[at] := RED;
    raw[at + 1] := 40 + (x + y) % 40;
    raw[at + 2] := BLUE;
  }

  lemma OneMorePixel(before: seq<Byte>, y: nat, x: nat)
    ensures before + Pixels(y, x) + [RED, Green(x, y), BLUE] == before + Pixels(y, x + 1)
  {}

  /** Where each byte of the image sits: the filter byte first on its line, then red, green, blue. */
  lemma ImageAt(size: nat, rows: nat, x: nat, y: nat)
    requires x < size && y < rows
    ensures RowStart(size, y) == RowAt(size, y) && RowStart(size, y) + 3 * x + 3 < |Image(size, rows)|
    ensures Image(size, rows)[RowStart(size, y)] == 0
    ensures var at := RowStart(size, y) + 1 + 3 * x;
      Image(size, rows)[at..at + 3] == [RED, Green(x, y), BLUE]
  {
    hide Image, Pixels, RowStart, RowAt, Green;
    RowStartIs(size, y);
    LineAt(size, rows, y);
    TripleOfLine(y, size, x);
    SliceOfSlice(Image(size, rows), RowStart(size, y), 1 + size * 3, 1 + 3 * x, 3);
  }

  lemma TripleOfLine(y: nat, size: nat, x: nat)
    requires x < size
    ensures var line := [0] + Pixels(y, size);
      line[0] == 0 && line[1 + 3 * x..1 + 3 * x + 3] == [RED, Green(x, y), BLUE]
  {
    hide Pixels, Green;
    PixelAt(y, size, x);
    assert ([0] + Pixels(y, size))[1 + 3 * x..1 + 3 * x + 3] == Pixels(y, size)[3 * x..3 * x + 3];
  }

  lemma SliceOfSlice(s: seq<Byte>, a: nat, n: nat, c: nat, m: nat)
    requires a + n <= |s| && c + m <= n
    ensures s[a..a + n][c..c + m] == s[a + c..a + c + m]
  {
    var whole, part := s[a..a + n], s[a + c..a + c + m];
    assert forall i :: 0 <= i < m ==> whole[c..c + m][i] == part[i];
  }

  /** The scanline `y` as it stands in the image. */
  lemma {:induction false} LineAt(size: nat, rows: nat, y: nat)
    requires y < rows
    ensures RowStart(size, y) + (1 + size * 3) <= |Image(size, rows)|
    ensures Image(size, rows)[RowStart(size, y)..RowStart(size, y) + (1 + size * 3)] == [0] + Pixels(y, size)
    decreases rows
  {
    hide Pixels;
    RowsFollow(size, y, rows);
    var front, last := Image(size, rows - 1), [0] + Pixels(rows - 1, size);
    if y < rows - 1 {
      LineAt(size, rows - 1, y);
      LineOfFront(front, last, RowStart(size, y), 1 + size * 3);
    } else {
      LastLine(front, last);
    }
  }

  lemma LineOfFront(front: seq<Byte>, last: seq<Byte>, a: nat, n: nat)
    requires a + n <= |front|
    ensures (front + last)[a..a + n] == front[a..a + n]
  {}

  lemma LastLine(front: seq<Byte>, last: seq<Byte>)
    ensures (front + last)[|front|..|front| + |last|] == last
  {}

  lemma {:induction false} PixelAt(y: nat, n: nat, x: nat)
    requires x < n
    ensures Pixels(y, n)[3 * x..3 * x + 3] == [RED, Green(x, y), BLUE]
    decreases n
  {
    if x < n - 1 { PixelAt(y, n - 1, x); }
  }

  // ---- the file -------------------------------------------------------------------------------------

  method WriteUInt32BE(buffer: array<Byte>, value: nat, offset: nat)
    requires value < WORD_LIMIT && offset + 4 <= buffer.Length
    modifies buffer
    ensures buffer[..] == old(buffer[..offset]) + BigEndian(value) + old(buffer[offset + 4..])
  {
    buffer[offset] := value / 0x100_0000;
    buffer[offset + 1] := value / 0x1_0000 % 256;
    buffer[offset + 2] := value / 0x100 % 256;
    buffer[offset + 3] := value % 256;
  }

  method WriteChunk(table: array<Word>, kind: seq<Byte>, data: seq<Byte>) returns (bytes: seq<Byte>)
    requires IsTable(table[..]) && Writable(Chunk(kind, data))
    ensures bytes == Framed(Chunk(kind, data))
  {
    var length := new Byte[4](i => 0);
    WriteUInt32BE(length, |data|, 0);
    var typed := kind + data;
    var checksum := new Byte[4](i => 0);
    var crc := TableChecksum(table, typed);
    ChecksumFits(typed);
    WriteUInt32BE(checksum, Value(crc), 0);
    bytes := length[..] + typed + checksum[..];
  }

  function Header(size: nat): (h: seq<Byte>)
    requires size < WORD_LIMIT
    ensures |h| == 13
  {
    BigEndian(size) + BigEndian(size) + [8, 2, 0, 0, 0]
  }

  /** The signature and the names of the chunks, in characters. */
  lemma NamesSpell()
    ensures SIGNATURE == [137, 'P' as int, 'N' as int, 'G' as int, 13, 10, 26, 10]
    ensures IHDR == ['I' as int, 'H' as int, 'D' as int, 'R' as int]
    ensures IDAT == ['I' as int, 'D' as int, 'A' as int, 'T' as int]
    ensures IEND == ['I' as int, 'E' as int, 'N' as int, 'D' as int]
  {}

  /** The header says what the picture is: its width and height, eight bits a channel, true colour, and the
      only compression, filter and interlace methods used. */
  lemma HeaderSays(size: nat)
    requires size < WORD_LIMIT
    ensures var h := Header(size);
      && |h| == 13 && FromBigEndian(h[..4]) == size && FromBigEndian(h[4..8]) == size
      && h[8] == 8 && h[9] == 2 && h[10] == 0 && h[11] == 0 && h[12] == 0
  {
    hide BigEndian, FromBigEndian;
    var h := Header(size);
    assert h[..4] == BigEndian(size) && h[4..8] == BigEndian(size);
    BigEndianReadsBack(size);
  }

  method WriteHeader(size: nat) returns (header: array<Byte>)
    requires size < WORD_LIMIT
    ensures fresh(header) && header[..] == Header(size)
  {
    hide BigEndian;
    header := new Byte[13](i => 0);
    WriteUInt32BE(header, size, 0);
    assert header[..4] == BigEndian(size) && header[8..] == [0, 0, 0, 0, 0];
    WriteUInt32BE(header, size, 4);
    ghost var sizes := BigEndian(size) + BigEndian(size);
    assert header[..8] == sizes && header[8..] == [0, 0, 0, 0, 0];
    header[8] := 8;
    header[9] := 2;
    assert header[..8] == sizes && header[8..] == [8, 2, 0, 0, 0];
    assert header[..] == header[..8] + header[8..];
  }

  /** `bigPng` for a picture of any size; `compressed` is whatever the compressor returned. */
  method WriteFile(size: nat, compressed: seq<Byte>) returns (file: seq<Byte>)
    requires size < WORD_LIMIT && |compressed| < WORD_LIMIT
    ensures ParseFile(file) == Some([Chunk(IHDR, Header(size)), Chunk(IDAT, compressed), Chunk(IEND, [])])
  {
    hide Framed, ParseChunks, BigEndian, FromBigEndian, ChecksumValue, Checksum, Header;
    var table := BuildTable();
    var header := WriteHeader(size);
    var first := WriteChunk(table, IHDR, header[..]);
    var second := WriteChunk(table, IDAT, compressed);
    var third := WriteChunk(table, IEND, []);
    file := SIGNATURE + first + second + third;
    ThreeChunksReadBack(Chunk(IHDR, Header(size)), Chunk(IDAT, compressed), Chunk(IEND, []));
    assert file[..8] == SIGNATURE && file[8..] == first + second + third;
  }

  lemma ThreeChunksReadBack(a: Chunk, b: Chunk, c: Chunk)
    requires Writable(a) && Writable(b) && Writable(c)
    ensures ParseChunks(Framed(a) + Framed(b) + Framed(c)) == Some([a, b, c])
  {
    hide Framed, ParseChunks;
    FramedReadsBack([a, b, c]);
    assert [c][1..] == [] && FramedAll([c]) == Framed(c) + [];
    assert [b, c][1..] == [c] && FramedAll([b, c]) == Framed(b) + FramedAll([c]);
    assert [a, b, c][1..] == [b, c] && FramedAll([a, b, c]) == Framed(a) + FramedAll([b, c]);
    assert Framed(a) + (Framed(b) + (Framed(c) + [])) == Framed(a) + Framed(b) + Framed(c);
  }
}
