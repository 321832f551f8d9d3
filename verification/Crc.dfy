/** The PNG checksum of `bigPng` (CRC-32 of RFC 2083, section 3.4).

    Three descriptions of one number are related here:
      - `Feed`, a shift register that takes the message one bit at a time, each byte least
        significant bit first;
      - the byte loop over a 256-entry table, as the source runs it;
      - the two loops that build that table.
    The last part proves what a checksum is for: a burst of at most 32 wrong bits is always seen.

    A 32-bit register is a sequence of 32 bits, least significant first, so `c & 1` is `c[0]`,
    `c >>> 8` is `Shift(c, 8)` and `x & 0xff` is `x[..8]`. */
module Crc {
  import opened Bytes

  type Word = w: seq<bool> | |w| == 32 witness Repeat(false, 32)

  function Repeat(bit: bool, n: nat): (bits: seq<bool>)
    ensures |bits| == n && forall i :: 0 <= i < n ==> bits[i] == bit
    decreases n
  {
    if n == 0 then [] else [bit] + Repeat(bit, n - 1)
  }

  const ZERO: Word := Repeat(false, 32)
  const ALL_ONES: Word := Repeat(true, 32)

  /** The `n` low binary digits of `v`, least significant first. */
  function Digits(v: nat, n: nat): (bits: seq<bool>)
    ensures |bits| == n
    decreases n
  {
    if n == 0 then [] else [v % 2 == 1] + Digits(v / 2, n - 1)
  }

  /** The number a string of digits denotes. */
  function Value(bits: seq<bool>): nat {
    if bits == [] then 0 else (if bits[0] then 1 else 0) + 2 * Value(bits[1..])
  }

  function WordOf(v: nat): Word { Digits(v, 32) }

  /** The reflected generator. */
  function Polynomial(): Word { WordOf(0xEDB8_8320) }

  /** The order in which section 3.4 takes the bits of a byte: least significant first. */
  function ByteBits(b: Byte): seq<bool> { Digits(b, 8) }

  function Xor(a: Word, b: Word): Word {
    seq(32, i requires 0 <= i < 32 => a[i] != b[i])
  }

  function Shift(a: Word, n: nat): Word
    requires n <= 32
  {
    a[n..] + Repeat(false, n)
  }

  /** A short string of bits as a register, zero above. */
  function Pad(bits: seq<bool>): Word
    requires |bits| <= 32
  {
    bits + Repeat(false, 32 - |bits|)
  }

  /** One step of the reflected shift register. */
  function Step(c: Word): Word {
    if c[0] then Xor(Polynomial(), Shift(c, 1)) else Shift(c, 1)
  }

  function Steps(c: Word, n: nat): Word
    decreases n
  {
    if n == 0 then c else Steps(Step(c), n - 1)
  }

  /** The register after taking in `bits`, one at a time. */
  function Feed(c: Word, bits: seq<bool>): Word
    decreases bits
  {
    if bits == [] then c else Feed(Step(Xor(c, Pad([bits[0]]))), bits[1..])
  }

  function MessageBits(bytes: seq<Byte>): (bits: seq<bool>)
    ensures |bits| == 8 * |bytes|
  {
    if bytes == [] then [] else ByteBits(bytes[0]) + MessageBits(bytes[1..])
  }

  /** The checksum: all ones in, the message bit by bit, all bits inverted out. */
  function Checksum(bytes: seq<Byte>): Word {
    Xor(Feed(ALL_ONES, MessageBits(bytes)), ALL_ONES)
  }

  // ---- numbers and their digits -------------------------------------------------------------------

  lemma {:induction false} ValueOfDigits(v: nat, n: nat)
    requires v < Power2(n)
    ensures Value(Digits(v, n)) == v
    decreases n
  {
    if n > 0 { ValueOfDigits(v / 2, n - 1); }
  }

  lemma {:induction false} DigitsOfValue(bits: seq<bool>)
    ensures Value(bits) < Power2(|bits|) && Digits(Value(bits), |bits|) == bits
  {
    if bits != [] { DigitsOfValue(bits[1..]); }
  }

  function Power2(n: nat): nat { if n == 0 then 1 else 2 * Power2(n - 1) }

  lemma TwoToTheEight()
    ensures Power2(8) == 256
  {}

  // ---- the register is linear and reversible ------------------------------------------------------

  lemma XorGroup(a: Word, b: Word)
    ensures Xor(a, a) == ZERO && Xor(a, ZERO) == a == Xor(ZERO, a) && Xor(Xor(a, b), b) == a
  {}

  lemma XorSwaps(a: Word, b: Word, c: Word, d: Word)
    ensures Xor(Xor(a, b), Xor(c, d)) == Xor(Xor(a, c), Xor(b, d))
  {}

  lemma StepIsLinear(x: Word, y: Word)
    ensures Step(Xor(x, y)) == Xor(Step(x), Step(y))
  {
    hide Polynomial;
    assert Shift(Xor(x, y), 1) == Xor(Shift(x, 1), Shift(y, 1));
  }

  lemma {:induction false} StepsAreLinear(x: Word, y: Word, n: nat)
    ensures Steps(Xor(x, y), n) == Xor(Steps(x, n), Steps(y, n))
    decreases n
  {
    hide Polynomial;
    if n > 0 {
      StepIsLinear(x, y);
      StepsAreLinear(Step(x), Step(y), n - 1);
    }
  }

  lemma PolynomialHasTopBit()
    ensures Polynomial()[31]
  {
    PowersOfTwo();
    TopDigit(0xEDB8_8320, 32);
  }

  lemma {:induction false} TopDigit(v: nat, n: nat)
    requires n > 0 && Power2(n - 1) <= v < Power2(n)
    ensures Digits(v, n)[n - 1]
    decreases n
  {
    if n > 1 { TopDigit(v / 2, n - 1); }
  }

  lemma PowersOfTwo()
    ensures Power2(31) == 0x8000_0000 && Power2(32) == 0x1_0000_0000
  {
    assert Power2(8) == 0x100;
    assert Power2(16) == 0x1_0000;
    assert Power2(24) == 0x100_0000;
  }

  /** The top bit after a step tells whether the polynomial was mixed in. */
  lemma TopOfStep(x: Word)
    ensures Step(x)[31] == x[0]
  {
    hide Polynomial;
    PolynomialHasTopBit();
  }

  lemma StepIsInjective(x: Word, y: Word)
    requires Step(x) == Step(y)
    ensures x == y
  {
    hide Polynomial;
    TopOfStep(x);
    TopOfStep(y);
    if x[0] {
      XorGroup(Shift(x, 1), Polynomial());
      assert forall i :: 0 <= i < 32 ==> Step(x)[i] == (Polynomial()[i] != Shift(x, 1)[i]);
      assert forall i :: 0 <= i < 32 ==> Step(y)[i] == (Polynomial()[i] != Shift(y, 1)[i]);
    }
    assert forall i :: 0 <= i < 32 ==> Shift(x, 1)[i] == Shift(y, 1)[i];
    assert forall i :: 1 <= i < 32 ==> x[i] == Shift(x, 1)[i - 1] && y[i] == Shift(y, 1)[i - 1];
  }

  lemma {:induction false} FeedConcat(c: Word, p: seq<bool>, q: seq<bool>)
    ensures Feed(c, p + q) == Feed(Feed(c, p), q)
    decreases p
  {
    hide Polynomial;
    if p == [] {
      assert p + q == q;
    } else {
      assert (p + q)[1..] == p[1..] + q;
      FeedConcat(Step(Xor(c, Pad([p[0]]))), p[1..], q);
    }
  }

  /** No suffix brings two different registers together. */
  lemma {:induction false} SuffixIsInjective(c: Word, d: Word, bits: seq<bool>)
    requires Feed(c, bits) == Feed(d, bits)
    ensures c == d
    decreases bits
  {
    hide Polynomial;
    if bits != [] {
      var w := Pad([bits[0]]);
      SuffixIsInjective(Step(Xor(c, w)), Step(Xor(d, w)), bits[1..]);
      StepIsInjective(Xor(c, w), Xor(d, w));
      XorGroup(c, w);
      XorGroup(d, w);
    }
  }

  // ---- the table-driven loop computes the same number ---------------------------------------------

  /** Taking in at most 32 bits one at a time is mixing them in at once and running the register. */
  lemma {:induction false} FeedAtOnce(c: Word, bits: seq<bool>)
    requires |bits| <= 32
    ensures Feed(c, bits) == Steps(Xor(c, Pad(bits)), |bits|)
    decreases bits
  {
    hide Polynomial, Step;
    if bits == [] {
      assert Pad(bits) == ZERO;
      XorGroup(c, ZERO);
    } else {
      var first, rest := Pad([bits[0]]), bits[1..];
      FeedAtOnce(Step(Xor(c, first)), rest);
      FirstThenRest(c, bits);
    }
  }

  /** Mixing in the first bit, stepping and mixing in the others is mixing all in and stepping. */
  lemma FirstThenRest(c: Word, bits: seq<bool>)
    requires 0 < |bits| <= 32
    ensures Xor(Step(Xor(c, Pad([bits[0]]))), Pad(bits[1..])) == Step(Xor(c, Pad(bits)))
  {
    hide Polynomial;
    var first := Pad([bits[0]]);
    var later := Xor(Pad(bits), first);
    assert !later[0] && Shift(later, 1) == Pad(bits[1..]);
    StepIsLinear(Xor(c, first), later);
    assert Step(later) == Shift(later, 1);
    hide Step;
    assert Xor(Xor(c, first), later) == Xor(c, Pad(bits));
  }

  /** While only zeros leave the register, stepping is shifting. */
  lemma {:induction false} ZerosOnlyShift(h: Word, n: nat)
    requires n <= 32 && forall i :: 0 <= i < n ==> !h[i]
    ensures Steps(h, n) == Shift(h, n)
    decreases n
  {
    hide Polynomial;
    if n == 0 {
      assert Shift(h, 0) == h;
    } else {
      ZerosOnlyShift(Shift(h, 1), n - 1);
      assert Shift(Shift(h, 1), n - 1) == Shift(h, n);
    }
  }

  /** Eight register steps are one step of the table-driven loop. */
  lemma TableStep(c: Word, b: Byte)
    ensures Feed(c, ByteBits(b)) == Xor(Steps(Pad(Xor(c, Pad(ByteBits(b)))[..8]), 8), Shift(c, 8))
  {
    hide Polynomial, Steps, Feed, Xor, Shift, Pad, Digits;
    var x := Xor(c, Pad(ByteBits(b)));
    var low := Pad(x[..8]);
    var high := Xor(x, low);
    FeedAtOnce(c, ByteBits(b));
    HighPart(c, ByteBits(b));
    StepsAreLinear(low, high, 8);
    ZerosOnlyShift(high, 8);
  }

  /** A register with a byte mixed in, split into its low eight bits and the rest. */
  lemma HighPart(c: Word, byte: seq<bool>)
    requires |byte| == 8
    ensures var x := Xor(c, Pad(byte));
      var low := Pad(x[..8]);
      var high := Xor(x, low);
      && Xor(low, high) == x && Shift(high, 8) == Shift(c, 8) && forall i :: 0 <= i < 8 ==> !high[i]
  {
    var x := Xor(c, Pad(byte));
    var low := Pad(x[..8]);
    var high := Xor(x, low);
    assert Xor(low, high) == x;
    assert Shift(high, 8) == Shift(c, 8);
  }

  function Entry(n: Byte): Word { Steps(WordOf(n), 8) }

  ghost predicate IsTable(table: seq<Word>) {
    |table| == 256 && forall n: Byte :: table[n] == Entry(n)
  }

  method BuildEntry(n: Byte) returns (c: Word)
    ensures c == Entry(n)
  {
    hide Polynomial, Digits;
    c := WordOf(n);
    for k := 0 to 8
      invariant Steps(c, 8 - k) == Entry(n)
    {
      c := if c[0] then Xor(Polynomial(), Shift(c, 1)) else Shift(c, 1);
    }
  }

  method BuildTable() returns (table: array<Word>)
    ensures fresh(table) && IsTable(table[..])
  {
    hide Entry;
    table := new Word[256];
    for n := 0 to 256
      invariant forall m: Byte :: m < n ==> table[m] == Entry(m)
    {
      var c := BuildEntry(n);
      table[n] := c;
    }
  }

  lemma IndexOfLowByte(low: seq<bool>)
    requires |low| == 8
    ensures Value(low) < 256 && WordOf(Value(low)) == Pad(low)
  {
    DigitsOfValue(low);
    TwoToTheEight();
    var v := Value(low);
    SmallNumbersHaveZeros(v, 8, 24);
  }

  lemma {:induction false} SmallNumbersHaveZeros(v: nat, m: nat, n: nat)
    requires v < Power2(m)
    ensures Digits(v, m + n) == Digits(v, m) + Repeat(false, n)
    decreases m
  {
    if m == 0 {
      ZeroHasZeros(n);
    } else {
      SmallNumbersHaveZeros(v / 2, m - 1, n);
    }
  }

  lemma {:induction false} ZeroHasZeros(n: nat)
    ensures Digits(0, n) == Repeat(false, n)
  {
    if n > 0 { ZeroHasZeros(n - 1); }
  }

  function LowIndex(c: Word, b: Byte): Byte {
    IndexOfLowByte(Xor(c, Pad(ByteBits(b)))[..8]);
    Value(Xor(c, Pad(ByteBits(b)))[..8])
  }

  /** One turn of the byte loop keeps the register that the rest of the message leads to. */
  lemma TurnOfTheLoop(c: Word, table: seq<Word>, bytes: seq<Byte>)
    requires IsTable(table) && bytes != []
    ensures Feed(c, MessageBits(bytes)) == Feed(Xor(table[LowIndex(c, bytes[0])], Shift(c, 8)), MessageBits(bytes[1..]))
  {
    hide Feed, Steps, Xor, ByteBits;
    TableStep(c, bytes[0]);
    FeedConcat(c, ByteBits(bytes[0]), MessageBits(bytes[1..]));
    IndexOfLowByte(Xor(c, Pad(ByteBits(bytes[0])))[..8]);
  }

  method TableChecksum(table: array<Word>, bytes: seq<Byte>) returns (crc: Word)
    requires IsTable(table[..])
    ensures crc == Checksum(bytes)
  {
    hide Feed, Xor, LowIndex;
    var c := ALL_ONES;
    for i := 0 to |bytes|
      invariant Feed(c, MessageBits(bytes[i..])) == Feed(ALL_ONES, MessageBits(bytes))
    {
      TurnOfTheLoop(c, table[..], bytes[i..]);
      assert bytes[i..][1..] == bytes[i + 1..];
      c := Xor(table[LowIndex(c, bytes[i])], Shift(c, 8));
    }
    FeedNothing(c);
    assert bytes[|bytes|..] == [];
    crc := Xor(c, ALL_ONES);
  }

  lemma FeedNothing(c: Word)
    ensures Feed(c, MessageBits([])) == c
  {}

  // ---- a burst of at most 32 wrong bits is always seen --------------------------------------------

  /** A register that `bits` drives to zero held nothing above its |bits| low bits. */
  lemma {:induction false} DrivenToZero(c: Word, bits: seq<bool>)
    requires |bits| <= 32 && Feed(c, bits) == ZERO
    ensures forall i :: |bits| <= i < 32 ==> !c[i]
    decreases bits
  {
    hide Polynomial;
    if bits != [] {
      var x := Xor(c, Pad([bits[0]]));
      DrivenToZero(Step(x), bits[1..]);
      TopOfStep(x);
      assert Step(x) == Shift(x, 1);
      assert forall i :: 1 <= i < 32 ==> c[i] == Shift(x, 1)[i - 1];
    }
  }

  /** The bit-by-bit difference of two equally long messages. */
  function Difference(p: seq<bool>, q: seq<bool>): seq<bool>
    requires |p| == |q|
  {
    seq(|p|, i requires 0 <= i < |p| => p[i] != q[i])
  }

  lemma {:induction false} FeedDifference(c: Word, d: Word, p: seq<bool>, q: seq<bool>)
    requires |p| == |q|
    ensures Xor(Feed(c, p), Feed(d, q)) == Feed(Xor(c, d), Difference(p, q))
    decreases p
  {
    hide Polynomial;
    if p != [] {
      var a, b := Pad([p[0]]), Pad([q[0]]);
      assert Xor(a, b) == Pad([p[0] != q[0]]);
      XorSwaps(c, a, d, b);
      StepIsLinear(Xor(c, a), Xor(d, b));
      FeedDifference(Step(Xor(c, a)), Step(Xor(d, b)), p[1..], q[1..]);
      assert Difference(p, q)[1..] == Difference(p[1..], q[1..]);
    }
  }

  /** A set bit entering an empty register is still there 31 steps later. */
  lemma OneBitSurvives(d: seq<bool>)
    requires 1 <= |d| <= 32 && d[0]
    ensures Feed(ZERO, d) != ZERO
  {
    hide Polynomial, Step;
    PolynomialHasTopBit();
    StepOfOne();
    assert Feed(ZERO, d) == Feed(Polynomial(), d[1..]);
    hide Feed;
    if Feed(Polynomial(), d[1..]) == ZERO { DrivenToZero(Polynomial(), d[1..]); }
  }

  lemma StepOfOne()
    ensures Step(Xor(ZERO, Pad([true]))) == Polynomial()
  {
    hide Polynomial;
    var one := Pad([true]);
    XorGroup(one, ZERO);
    XorGroup(Polynomial(), ZERO);
    assert one[0] && Shift(one, 1) == ZERO;
  }

  /** From one register, two different strings of at most 32 bits lead to two different registers. */
  lemma {:induction false} ShortBurst(c: Word, p: seq<bool>, q: seq<bool>)
    requires |p| == |q| <= 32 && p != q
    ensures Feed(c, p) != Feed(c, q)
    decreases p
  {
    hide Polynomial;
    if p[0] == q[0] {
      ShortBurst(Step(Xor(c, Pad([p[0]]))), p[1..], q[1..]);
    } else if Feed(c, p) == Feed(c, q) {
      FeedDifference(c, c, p, q);
      XorGroup(c, c);
      XorGroup(Feed(c, p), c);
      OneBitSurvives(Difference(p, q));
    }
  }

  lemma {:induction false} MessageBitsConcat(x: seq<Byte>, y: seq<Byte>)
    ensures MessageBits(x + y) == MessageBits(x) + MessageBits(y)
  {
    if x == [] {
      assert x + y == y;
    } else {
      assert (x + y)[1..] == x[1..] + y;
      MessageBitsConcat(x[1..], y);
    }
  }

  lemma {:induction false} MessageBitsDecide(x: seq<Byte>, y: seq<Byte>)
    requires |x| == |y| && x != y
    ensures MessageBits(x) != MessageBits(y)
  {
    if MessageBits(x) == MessageBits(y) {
      assert MessageBits(x)[..8] == ByteBits(x[0]) && MessageBits(y)[..8] == ByteBits(y[0]);
      assert MessageBits(x)[8..] == MessageBits(x[1..]) && MessageBits(y)[8..] == MessageBits(y[1..]);
      TwoToTheEight();
      ValueOfDigits(x[0], 8);
      ValueOfDigits(y[0], 8);
      assert x == [x[0]] + x[1..] && y == [y[0]] + y[1..];
      MessageBitsDecide(x[1..], y[1..]);
    }
  }

  /** Two messages that agree outside one window of at most 32 bits, aligned to bytes or not, never
      share a register, whatever comes before and after the window. */
  lemma BurstIsSeen(c: Word, before: seq<bool>, p: seq<bool>, q: seq<bool>, after: seq<bool>)
    requires |p| == |q| <= 32 && p != q
    ensures Feed(c, before + p + after) != Feed(c, before + q + after)
  {
    FeedConcat(c, before + p, after);
    FeedConcat(c, before, p);
    FeedConcat(c, before + q, after);
    FeedConcat(c, before, q);
    ShortBurst(Feed(c, before), p, q);
    if Feed(c, before + p + after) == Feed(c, before + q + after) {
      SuffixIsInjective(Feed(Feed(c, before), p), Feed(Feed(c, before), q), after);
    }
  }

  /** The same, in bytes: at most four wrong consecutive bytes always change the checksum. */
  lemma FourByteWindowIsSeen(before: seq<Byte>, p: seq<Byte>, q: seq<Byte>, after: seq<Byte>)
    requires |p| == |q| <= 4 && p != q
    ensures Checksum(before + p + after) != Checksum(before + q + after)
  {
    MessageBitsConcat(before + p, after);
    MessageBitsConcat(before, p);
    MessageBitsConcat(before + q, after);
    MessageBitsConcat(before, q);
    MessageBitsDecide(p, q);
    BurstIsSeen(ALL_ONES, MessageBits(before), MessageBits(p), MessageBits(q), MessageBits(after));
    XorGroup(Feed(ALL_ONES, MessageBits(before + p + after)), ALL_ONES);
    XorGroup(Feed(ALL_ONES, MessageBits(before + q + after)), ALL_ONES);
  }
}
