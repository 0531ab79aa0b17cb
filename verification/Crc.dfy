/** CRC-32 as section 8 of RFC 1952 defines it: bit by bit, by table, and what it detects. */
module Crc {
  import opened Iteration

  type Bytes = seq<bv8>

  const POLYNOMIAL: bv32 := 0xEDB88320

  /** One bit of the division by the reflected polynomial. */
  function BitStep(c: bv32): bv32 {
    if c & 1 == 1 then POLYNOMIAL ^ (c >> 1) else c >> 1
  }

  function Bits(c: bv32, k: nat): bv32 {
    Iter(BitStep, c, k)
  }

  function Xor(a: bv32, b: bv32): bv32 {
    a ^ b
  }

  /** One byte into the register. */
  function ByteStep(c: bv32, b: bv8): bv32 {
    Bits(Xor(c, b as bv32), 8)
  }

  function Feed(c: bv32, data: Bytes): bv32 {
    Fold(ByteStep, c, data)
  }

  function Flip(c: bv32): bv32 {
    c ^ 0xFFFFFFFF
  }

  /** The CRC of `data` after data whose CRC is `previous`; the CRC of no data is 0. */
  function Crc32(data: Bytes, previous: bv32 := 0): bv32 {
    Flip(Feed(Flip(previous), data))
  }

  /** What a bit step adds to the shifted register. */
  function Mask(c: bv32): bv32 {
    if c & 1 == 1 then POLYNOMIAL else 0
  }

  function Half(x: bv32): bv32 {
    x >> 1
  }

  lemma XorLaws(a: bv32, b: bv32)
    ensures Xor(a, b) == Xor(b, a) && Xor(a, 0) == a
  {
  }

  lemma BitStepParts(x: bv32)
    ensures BitStep(x) == Xor(Half(x), Mask(x))
  {
    XorLaws(Half(x), POLYNOMIAL);
  }

  lemma HalfXor(x: bv32, y: bv32)
    ensures Half(Xor(x, y)) == Xor(Half(x), Half(y))
  {
  }

  lemma MaskXor(x: bv32, y: bv32)
    ensures Mask(Xor(x, y)) == Xor(Mask(x), Mask(y))
  {
  }

  lemma XorShuffle(a: bv32, b: bv32, c: bv32, d: bv32)
    ensures Xor(Xor(a, b), Xor(c, d)) == Xor(Xor(a, c), Xor(b, d))
  {
    XorAssociative(a, b, Xor(c, d));
    XorAssociative(b, c, d);
    XorLaws(b, c);
    XorAssociative(c, b, d);
    XorAssociative(a, c, Xor(b, d));
  }

  /** A bit step is linear. */
  lemma BitStepXor(x: bv32, y: bv32)
    ensures BitStep(Xor(x, y)) == Xor(BitStep(x), BitStep(y))
  {
    BitStepParts(Xor(x, y));
    BitStepParts(x);
    BitStepParts(y);
    HalfXor(x, y);
    MaskXor(x, y);
    XorShuffle(Half(x), Half(y), Mask(x), Mask(y));
  }

  lemma BitsXor(x: bv32, y: bv32, k: nat)
    ensures Bits(Xor(x, y), k) == Xor(Bits(x, k), Bits(y, k))
  {
    forall a, b
      ensures BitStep(Xor(a, b)) == Xor(BitStep(a), BitStep(b))
    {
      BitStepXor(a, b);
    }
    IterHomomorphic(BitStep, Xor, x, y, k);
  }

  /** The top bit of the polynomial tells which way a bit step went. */
  lemma BitStepInjective(x: bv32, y: bv32)
    requires BitStep(x) == BitStep(y)
    ensures x == y
  {
  }

  lemma BitsInjective(x: bv32, y: bv32, k: nat)
    ensures Bits(x, k) == Bits(y, k) <==> x == y
  {
    forall a, b | BitStep(a) == BitStep(b)
      ensures a == b
    {
      BitStepInjective(a, b);
    }
    IterInjective(BitStep, x, y, k);
  }

  lemma XorInjective(a: bv32, b: bv32, w: bv32)
    ensures Xor(a, w) == Xor(b, w) <==> a == b
    ensures Xor(w, a) == Xor(w, b) <==> a == b
  {
  }

  lemma ByteStepInjective(c: bv32, d: bv32, b: bv8)
    ensures ByteStep(c, b) == ByteStep(d, b) <==> c == d
  {
    BitsInjective(Xor(c, b as bv32), Xor(d, b as bv32), 8);
    XorInjective(c, d, b as bv32);
  }

  /** The same bytes never bring two different registers together. */
  lemma FeedInjective(c: bv32, d: bv32, data: Bytes)
    ensures Feed(c, data) == Feed(d, data) <==> c == d
  {
    forall x, y, b | ByteStep(x, b) == ByteStep(y, b)
      ensures x == y
    {
      ByteStepInjective(x, y, b);
    }
    FoldInjective(ByteStep, c, d, data);
  }

  /** Feeding the data piece by piece gives the CRC of the whole. */
  lemma CrcPiecewise(a: Bytes, b: Bytes, previous: bv32)
    ensures Crc32(a + b, previous) == Crc32(b, Crc32(a, previous))
  {
    FoldAppend(ByteStep, Flip(previous), a, b);
    FlipTwice(Feed(Flip(previous), a));
  }

  lemma FlipTwice(c: bv32)
    ensures Flip(Flip(c)) == c
  {
  }

  // ---- eight steps on a register whose low byte is clear ----

  /** The low k bits are zero. */
  predicate Clear(x: bv32, k: nat) {
    k == 0 || (x & 1 == 0 && Clear(Half(x), k - 1))
  }

  lemma ClearStep(x: bv32, k: nat)
    requires k > 0 && Clear(x, k)
    ensures BitStep(x) == Half(x) && Clear(Half(x), k - 1)
  {
  }

  /** k steps that never meet a set low bit are a shift. */
  lemma {:induction false} ClearSteps(x: bv32, k: nat)
    requires Clear(x, k)
    ensures Bits(x, k) == Iter(Half, x, k)
    decreases k
  {
    if k > 0 {
      ClearStep(x, k);
      ClearSteps(Half(x), k - 1);
    }
  }

  lemma ShiftByEight(x: bv32)
    ensures Half(Half(Half(Half(Half(Half(Half(Half(x)))))))) == x >> 8
  {
  }

  lemma EightHalves(x: bv32)
    ensures Iter(Half, x, 8) == x >> 8
  {
    ShiftByEight(x);
    EightSteps(Half, x, Half(x), Half(Half(x)), Half(Half(Half(x))), Half(Half(Half(Half(x)))),
               Half(Half(Half(Half(Half(x))))), Half(Half(Half(Half(Half(Half(x)))))),
               Half(Half(Half(Half(Half(Half(Half(x))))))), x >> 8);
  }

  lemma LowByteBits(x: bv32)
    requires x & 0xFF == 0
    ensures x & 1 == 0 && Half(x) & 1 == 0 && Half(Half(x)) & 1 == 0 && Half(Half(Half(x))) & 1 == 0
    ensures Half(Half(Half(Half(x)))) & 0xF == 0
  {
  }

  lemma LowNibbleClear(x: bv32)
    requires x & 0xF == 0
    ensures Clear(x, 4)
  {
    assert Half(Half(Half(x))) & 1 == 0 && Half(Half(x)) & 1 == 0 && Half(x) & 1 == 0 && x & 1 == 0;
    assert Clear(Half(Half(Half(x))), 1);
    assert Clear(Half(Half(x)), 2);
    assert Clear(Half(x), 3);
  }

  lemma LowByteClear(x: bv32)
    requires x & 0xFF == 0
    ensures Clear(x, 8)
  {
    LowByteBits(x);
    LowNibbleClear(Half(Half(Half(Half(x)))));
    assert Clear(Half(Half(Half(x))), 5);
    assert Clear(Half(Half(x)), 6);
    assert Clear(Half(x), 7);
  }

  lemma ByteShift(x: bv32)
    requires x & 0xFF == 0
    ensures Bits(x, 8) == x >> 8
  {
    LowByteClear(x);
    ClearSteps(x, 8);
    EightHalves(x);
  }

  // ---- the byte table ----

  function Low(x: bv32): bv32 {
    x & 0xFF
  }

  function High(x: bv32): bv32 {
    x & 0xFFFFFF00
  }

  function Shift(x: bv32): bv32 {
    x >> 8
  }

  lemma LowHighParts(x: bv32)
    ensures Xor(Low(x), High(x)) == x && Low(High(x)) == 0 && Shift(High(x)) == Shift(x)
  {
  }

  lemma ShiftDropsByte(c: bv32, b: bv8)
    ensures Shift(Xor(c, b as bv32)) == Shift(c)
  {
  }

  lemma HighShift(x: bv32)
    requires Low(x) == 0
    ensures Bits(x, 8) == Shift(x)
  {
    ByteShift(x);
  }

  /** The table form of one byte: the low byte is looked up, the rest shifted. */
  lemma ByteByTable(c: bv32, b: bv8)
    ensures ByteStep(c, b) == Xor(Bits(Low(Xor(c, b as bv32)), 8), Shift(c))
  {
    var x := Xor(c, b as bv32);
    LowHighParts(x);
    ShiftDropsByte(c, b);
    SplitBits(x, Low(x), High(x), 8);
    HighShift(High(x));
  }

  lemma SplitBits(x: bv32, lo: bv32, hi: bv32, k: nat)
    requires Xor(lo, hi) == x
    ensures Bits(x, k) == Xor(Bits(lo, k), Bits(hi, k))
  {
    BitsXor(lo, hi, k);
  }

  function Entry(n: nat): bv32
    requires n < 256
  {
    Bits(n as bv32, 8)
  }

  ghost predicate IsTable(table: seq<bv32>) {
    |table| == 256 && forall n | 0 <= n < 256 :: table[n] == Entry(n)
  }

  method MakeTable() returns (table: array<bv32>)
    ensures fresh(table) && IsTable(table[..])
  {
    table := new bv32[256];
    var n := 0;
    while n < 256
      invariant 0 <= n <= 256
      invariant forall m | 0 <= m < n :: table[m] == Entry(m)
    {
      var c := n as bv32;
      var k := 8;
      while k > 0
        invariant 0 <= k <= 8
        invariant Bits(c, k) == Entry(n)
      {
        c := if c & 1 == 1 then POLYNOMIAL ^ (c >> 1) else c >> 1;
        k := k - 1;
      }
      table[n] := c;
      n := n + 1;
    }
  }

  /** The low byte of a register, as an index. */
  lemma LowIndex(x: bv32)
    ensures 0 <= Low(x) as int < 256 && (Low(x) as int) as bv32 == Low(x)
  {
    assert Low(x) < 256;
  }

  function Index(x: bv32): (i: nat)
    ensures i < 256
  {
    LowIndex(x);
    Low(x) as int
  }

  lemma IndexEntry(x: bv32)
    ensures Entry(Index(x)) == Bits(Low(x), 8)
  {
    LowIndex(x);
  }

  function TableStep(table: seq<bv32>, c: bv32, b: bv8): bv32
    requires |table| == 256
  {
    Xor(table[Index(Xor(c, b as bv32))], Shift(c))
  }

  lemma LookUp(table: seq<bv32>, c: bv32, b: bv8)
    requires IsTable(table)
    ensures TableStep(table, c, b) == ByteStep(c, b)
  {
    ByteByTable(c, b);
    IndexEntry(Xor(c, b as bv32));
  }

  /** The byte-at-a-time loop refines the bit-by-bit definition on all inputs. */
  method UpdateCrc(table: array<bv32>, crc: bv32, data: Bytes) returns (result: bv32)
    requires IsTable(table[..])
    ensures result == Crc32(data, crc)
  {
    var c := Flip(crc);
    var i := 0;
    while i < |data|
      invariant 0 <= i <= |data|
      invariant Feed(c, data[i..]) == Feed(Flip(crc), data)
    {
      LookUp(table[..], c, data[i]);
      FoldStep(ByteStep, c, data[i..]);
      assert data[i..][1..] == data[i + 1..];
      c := TableStep(table[..], c, data[i]);
      i := i + 1;
    }
    result := Flip(c);
  }

  // ---- detection of short changes ----

  /** A byte that a shifted word turns into after k steps can be folded in at the start. */
  lemma Absorb(x: bv32, b: bv8, w: bv32, k: nat)
    requires Bits(w, k) == b as bv32
    ensures ByteStep(Bits(x, k), b) == Bits(Xor(x, w), k + 8)
  {
    BitsXor(x, w, k);
    IterAdd(BitStep, Xor(x, w), k, 8);
  }

  lemma Places(b: bv8)
    ensures var w := b as bv32;
            && (w << 8) & 0xFF == 0 && (w << 8) >> 8 == w
            && (w << 16) & 0xFF == 0 && (w << 16) >> 8 == w << 8
            && (w << 24) & 0xFF == 0 && (w << 24) >> 8 == w << 16
  {
  }

  lemma PlacedBits(b: bv8)
    ensures var w := b as bv32;
            Bits(w, 0) == w && Bits(w << 8, 8) == w && Bits(w << 16, 16) == w && Bits(w << 24, 24) == w
  {
    var w := b as bv32;
    Places(b);
    ByteShift(w << 8);
    ByteShift(w << 16);
    ByteShift(w << 24);
    IterAdd(BitStep, w << 16, 8, 8);
    IterAdd(BitStep, w << 24, 8, 16);
  }

  /** Four bytes as the 32-bit word that has the first byte lowest. */
  function Word(b0: bv8, b1: bv8, b2: bv8, b3: bv8): bv32 {
    Xor(Xor(Xor(b0 as bv32, (b1 as bv32) << 8), (b2 as bv32) << 16), (b3 as bv32) << 24)
  }

  lemma WordInjective(a0: bv8, a1: bv8, a2: bv8, a3: bv8, b0: bv8, b1: bv8, b2: bv8, b3: bv8)
    requires Word(a0, a1, a2, a3) == Word(b0, b1, b2, b3)
    ensures a0 == b0 && a1 == b1 && a2 == b2 && a3 == b3
  {
  }

  lemma XorAssociative(a: bv32, b: bv32, c: bv32)
    ensures Xor(Xor(a, b), c) == Xor(a, Xor(b, c))
  {
  }

  /** Four bytes together are 32 steps on the register with their word folded in. */
  lemma FourBytes(c: bv32, b0: bv8, b1: bv8, b2: bv8, b3: bv8)
    ensures Feed(c, [b0, b1, b2, b3]) == Bits(Xor(c, Word(b0, b1, b2, b3)), 32)
  {
    var w0, w1, w2, w3 := b0 as bv32, (b1 as bv32) << 8, (b2 as bv32) << 16, (b3 as bv32) << 24;
    PlacedBits(b0);
    PlacedBits(b1);
    PlacedBits(b2);
    PlacedBits(b3);
    Absorb(c, b0, w0, 0);
    Absorb(Xor(c, w0), b1, w1, 8);
    Absorb(Xor(Xor(c, w0), w1), b2, w2, 16);
    Absorb(Xor(Xor(Xor(c, w0), w1), w2), b3, w3, 24);
    FoldFour(ByteStep, c, b0, b1, b2, b3);
    XorAssociative(c, w0, w1);
    XorAssociative(c, Xor(w0, w1), w2);
    XorAssociative(c, Xor(Xor(w0, w1), w2), w3);
  }

  function Zeros(k: nat): Bytes {
    seq(k, _ => 0)
  }

  /** From the same register, two different windows of at most four bytes end apart. */
  lemma WindowInjective(c: bv32, a: Bytes, b: Bytes)
    requires |a| == |b| <= 4 && Feed(c, a) == Feed(c, b)
    ensures a == b
  {
    var z := Zeros(4 - |a|);
    FoldAppend(ByteStep, c, a, z);
    FoldAppend(ByteStep, c, b, z);
    var x, y := a + z, b + z;
    assert x == [x[0], x[1], x[2], x[3]] && y == [y[0], y[1], y[2], y[3]];
    FourBytes(c, x[0], x[1], x[2], x[3]);
    FourBytes(c, y[0], y[1], y[2], y[3]);
    BitsInjective(Xor(c, Word(x[0], x[1], x[2], x[3])), Xor(c, Word(y[0], y[1], y[2], y[3])), 32);
    XorInjective(Word(x[0], x[1], x[2], x[3]), Word(y[0], y[1], y[2], y[3]), c);
    WordInjective(x[0], x[1], x[2], x[3], y[0], y[1], y[2], y[3]);
    assert x == y && a == x[..|a|] && b == y[..|a|];
  }

  /** Data that differ only inside a window of at most four bytes have different CRCs. */
  lemma ShortChangeDetected(head: Bytes, a: Bytes, b: Bytes, tail: Bytes, previous: bv32)
    requires |a| == |b| <= 4
    ensures Crc32(head + a + tail, previous) == Crc32(head + b + tail, previous) <==> a == b
  {
    var c := Flip(previous);
    FoldAppend(ByteStep, c, head + a, tail);
    FoldAppend(ByteStep, c, head + b, tail);
    FoldAppend(ByteStep, c, head, a);
    FoldAppend(ByteStep, c, head, b);
    var h := Feed(c, head);
    FeedInjective(Feed(h, a), Feed(h, b), tail);
    FlipInjective(Feed(Feed(h, a), tail), Feed(Feed(h, b), tail));
    if Feed(h, a) == Feed(h, b) {
      WindowInjective(h, a, b);
    }
  }

  lemma FlipInjective(x: bv32, y: bv32)
    ensures Flip(x) == Flip(y) <==> x == y
  {
  }

  // ---- which CRC this is ----

  /** The four bytes of a word, low byte first. */
  function LowFirst(w: bv32): Bytes {
    [(w & 0xFF) as bv8, ((w >> 8) & 0xFF) as bv8, ((w >> 16) & 0xFF) as bv8, ((w >> 24) & 0xFF) as bv8]
  }

  lemma WordOfLowFirst(w: bv32)
    ensures var b := LowFirst(w); Word(b[0], b[1], b[2], b[3]) == w
  {
  }

  lemma FullRegister()
    ensures Bits(0xFFFFFFFF, 32) == 0xDEBB20E3
  {
    EightSteps(BitStep, 0xFFFFFFFF, 0x92477CDF, 0xA49B3D4F, 0xBFF51D87,
               0xB2420DE3, 0xB49985D1, 0xB7F441C8, 0x5BFA20E4, 0x2DFD1072);
    EightSteps(BitStep, 0x2DFD1072, 0x16FE8839, 0xE6C7C73C, 0x7363E39E,
               0x39B1F1CF, 0xF1607BC7, 0x9508BEC3, 0xA73CDC41, 0xBE26ED00);
    EightSteps(BitStep, 0xBE26ED00, 0x5F137680, 0x2F89BB40, 0x17C4DDA0,
               0x0BE26ED0, 0x05F13768, 0x02F89BB4, 0x017C4DDA, 0x00BE26ED);
    EightSteps(BitStep, 0x00BE26ED, 0xEDE79056, 0x76F3C82B, 0xD6C16735,
               0x86D830BA, 0x436C185D, 0xCC0E8F0E, 0x66074787, 0xDEBB20E3);
    IterAdd(BitStep, 0xFFFFFFFF, 8, 8);
    IterAdd(BitStep, 0xFFFFFFFF, 16, 8);
    IterAdd(BitStep, 0xFFFFFFFF, 24, 8);
  }

  lemma XorOfFlip(c: bv32)
    ensures Xor(c, Flip(c)) == 0xFFFFFFFF
  {
  }

  /** Data followed by their own CRC, low byte first, have the residue of this CRC, whatever the data. */
  lemma Residue(data: Bytes)
    ensures Crc32(data + LowFirst(Crc32(data))) == 0x2144DF1C
  {
    var h := Feed(Flip(0), data);
    var b := LowFirst(Flip(h));
    FoldAppend(ByteStep, Flip(0), data, b);
    FourBytes(h, b[0], b[1], b[2], b[3]);
    WordOfLowFirst(Flip(h));
    XorOfFlip(h);
    FullRegister();
  }

  lemma ByteIs(c: bv32, b: bv8, x1: bv32, x2: bv32, x3: bv32, x4: bv32, x5: bv32, x6: bv32, x7: bv32, x8: bv32)
    requires BitStep(Xor(c, b as bv32)) == x1 && BitStep(x1) == x2 && BitStep(x2) == x3 && BitStep(x3) == x4
    requires BitStep(x4) == x5 && BitStep(x5) == x6 && BitStep(x6) == x7 && BitStep(x7) == x8
    ensures ByteStep(c, b) == x8
  {
    EightSteps(BitStep, Xor(c, b as bv32), x1, x2, x3, x4, x5, x6, x7, x8);
  }

  lemma FirstDigits()
    ensures Feed(0xFFFFFFFF, [0x31, 0x32, 0x33]) == 0x77B79C2D
  {
    ByteIs(0xFFFFFFFF, 0x31, 0x7FFFFFE7, 0xD2477CD3, 0x849B3D49, 0xAFF51D84,
           0x57FA8EC2, 0x2BFD4761, 0xF8462090, 0x7C231048);
    ByteIs(0x7C231048, 0x32, 0x3E11883D, 0xF2B0473E, 0x7958239F, 0xD11492EF,
           0x8532CA57, 0xAF21E60B, 0xBA287025, 0xB0ACBB32);
    ByteIs(0xB0ACBB32, 0x33, 0xB5EEDEA0, 0x5AF76F50, 0x2D7BB7A8, 0x16BDDBD4,
           0x0B5EEDEA, 0x05AF76F5, 0xEF6F385A, 0x77B79C2D);
    FoldThree(ByteStep, 0xFFFFFFFF, 0x31, 0x32, 0x33);
  }

  lemma MiddleDigits()
    ensures Feed(0x77B79C2D, [0x34, 0x35, 0x36]) == 0xF68D2C9E
  {
    ByteIs(0x77B79C2D, 0x34, 0xD6634D2C, 0x6B31A696, 0x3598D34B, 0xF774EA85,
           0x9602F662, 0x4B017B31, 0xC8383EB8, 0x641C1F5C);
    ByteIs(0x641C1F5C, 0x35, 0xDFB68C94, 0x6FDB464A, 0x37EDA325, 0xF64E52B2,
           0x7B272959, 0xD02B178C, 0x68158BC6, 0x340AC5E3);
    ByteIs(0x340AC5E3, 0x36, 0xF7BDE1CA, 0x7BDEF0E5, 0xD057FB52, 0x682BFDA9,
           0xD9AD7DF4, 0x6CD6BEFA, 0x366B5F7D, 0xF68D2C9E);
    FoldThree(ByteStep, 0x77B79C2D, 0x34, 0x35, 0x36);
  }

  lemma LastDigits()
    ensures Feed(0xF68D2C9E, [0x37, 0x38, 0x39]) == 0x340BC6D9
  {
    ByteIs(0xF68D2C9E, 0x37, 0x96FE1574, 0x4B7F0ABA, 0x25BF855D, 0xFF67418E,
           0x7FB3A0C7, 0xD2615343, 0x84882A81, 0xAFFC9660);
    ByteIs(0xAFFC9660, 0x38, 0x57FE4B2C, 0x2BFF2596, 0x15FF92CB, 0xE7474A45,
           0x9E1B2602, 0x4F0D9301, 0xCA3E4AA0, 0x651F2550);
    ByteIs(0x651F2550, 0x39, 0xDF371194, 0x6F9B88CA, 0x37CDC465, 0xF65E6112,
           0x7B2F3089, 0xD02F1B64, 0x68178DB2, 0x340BC6D9);
    FoldThree(ByteStep, 0xF68D2C9E, 0x37, 0x38, 0x39);
  }

  /** The check value: the CRC of the nine digits "123456789". */
  lemma CheckValue()
    ensures Crc32([0x31, 0x32, 0x33, 0x34, 0x35, 0x36, 0x37, 0x38, 0x39]) == 0xCBF43926
  {
    var first, middle, last: Bytes := [0x31, 0x32, 0x33], [0x34, 0x35, 0x36], [0x37, 0x38, 0x39];
    FirstDigits();
    MiddleDigits();
    LastDigits();
    FoldAppend(ByteStep, 0xFFFFFFFF, first, middle);
    FoldAppend(ByteStep, 0xFFFFFFFF, first + middle, last);
    assert first + middle + last == [0x31, 0x32, 0x33, 0x34, 0x35, 0x36, 0x37, 0x38, 0x39];
  }
}
