/** util/crc32c.cc and crc32c.h: the slice-by-4 loop computes the byte-at-a-time CRC-32C
    (section 12.1 of RFC 3720). */
module Crc32c {
  import opened Bytes
  import opened Crc32cTables

  /** The byte as an unsigned word, bit by bit. */
  function Widen(b: byte): (r: bv32)
    ensures r <= 0xff
  {
    var n0 := b as nat;
    var n1 := n0 / 2;
    var n2 := n1 / 2;
    var n3 := n2 / 2;
    var n4 := n3 / 2;
    var n5 := n4 / 2;
    var n6 := n5 / 2;
    var n7 := n6 / 2;
    OrBits(n0 % 2 == 1, n1 % 2 == 1, n2 % 2 == 1, n3 % 2 == 1, n4 % 2 == 1, n5 % 2 == 1, n6 % 2 == 1, n7 % 2 == 1)
  }

  function OrBits(p0: bool, p1: bool, p2: bool, p3: bool, p4: bool, p5: bool, p6: bool, p7: bool): (r: bv32)
    ensures r <= 0xff
  {
    (if p0 then 1 else 0) | (if p1 then 2 else 0) | (if p2 then 4 else 0) | (if p3 then 8 else 0) |
    (if p4 then 0x10 else 0) | (if p5 then 0x20 else 0) | (if p6 then 0x40 else 0) | (if p7 then 0x80 else 0)
  }

  /** One byte into the register, bit by bit. */
  function ByteStep(l: bv32, b: byte): bv32 {
    Steps(Xor(l, Widen(b)), 8)
  }

  function Fold(l: bv32, data: Bytes): bv32
    decreases |data|
  {
    if data == [] then l else Fold(ByteStep(l, data[0]), data[1..])
  }

  /** The checksum of A + data, given the checksum of A. */
  function Crc(crc: bv32, data: Bytes): bv32 {
    Xor(Fold(Xor(crc, 0xffff_ffff), data), 0xffff_ffff)
  }

  lemma {:induction false} FoldConcat(l: bv32, a: Bytes, b: Bytes)
    ensures Fold(l, a + b) == Fold(Fold(l, a), b)
    decreases |a|
  {
    hide ByteStep;
    if a == [] {
      assert a + b == b;
    } else {
      assert (a + b)[0] == a[0] && (a + b)[1..] == a[1..] + b;
      FoldConcat(ByteStep(l, a[0]), a[1..], b);
    }
  }

  lemma XorTwice(a: bv32, m: bv32)
    ensures Xor(Xor(a, m), m) == a
  {
  }

  /** Checksums extend: what the log writer's precomputed type checksums rely on. */
  lemma CrcConcat(crc: bv32, a: Bytes, b: Bytes)
    ensures Crc(Crc(crc, a), b) == Crc(crc, a + b)
  {
    hide Xor, Fold;
    FoldConcat(Xor(crc, 0xffff_ffff), a, b);
    XorTwice(Fold(Xor(crc, 0xffff_ffff), a), 0xffff_ffff);
  }

  /** STEP1 of the portable loop. */
  function Step1(l: bv32, b: bv32): bv32 {
    Xor(Table0((l & 0xff) ^ b), l >> 8)
  }

  function Or(a: bv32, b: bv32): bv32 {
    a | b
  }

  /** The word LE_LOAD32 reads. */
  function Word(b0: bv32, b1: bv32, b2: bv32, b3: bv32): bv32 {
    Or(Or(Or(b0, b1 << 8), b2 << 16), b3 << 24)
  }

  /** STEP4 of the portable loop. */
  function Step4(l: bv32, w: bv32): bv32 {
    var c := Xor(l, w);
    Xor(Xor(Xor(Table3(c & 0xff), Table2((c >> 8) & 0xff)), Table1((c >> 16) & 0xff)), Table0(c >> 24))
  }

  lemma XorIs(a: bv32, b: bv32, x: bv32)
    requires x == a ^ b
    ensures Xor(a, b) == x
  {
  }

  lemma SplitLow(l: bv32, b: bv32, y: bv32, z: bv32)
    requires b <= 0xff && y == (l & 0xff) ^ b && z == l & 0xffff_ff00
    ensures y ^ z == l ^ b && y <= 0xff && z & 0xff == 0 && z >> 8 == l >> 8
  {
  }

  lemma Step1IsByteStep(l: bv32, b: bv32)
    requires b <= 0xff
    ensures Step1(l, b) == Steps(Xor(l, b), 8)
  {
    hide Xor, Steps, Table0;
    var y, z := (l & 0xff) ^ b, l & 0xffff_ff00;
    SplitLow(l, b, y, z);
    XorIs(y, z, l ^ b);
    XorIs(l, b, l ^ b);
    LowByteStep(l, y, z);
  }

  lemma LowByteStep(l: bv32, y: bv32, z: bv32)
    requires y <= 0xff && z & 0xff == 0 && z >> 8 == l >> 8
    ensures Xor(Table0(y), l >> 8) == Steps(Xor(y, z), 8)
  {
    hide Xor, Steps, Table0;
    Table0IsSteps(y);
    ZeroByteShifts(z);
    StepsLinear(y, z, 8);
  }

  /** A zero low byte leaves the register unchanged but for the shift. */
  lemma ShiftsOut(x: bv32, y: bv32, n: nat)
    requires n >= 8 && x & 0xff == 0 && y == x >> 8
    ensures Steps(x, n) == Steps(y, n - 8)
  {
    hide Steps;
    StepsCompose(x, 8, n - 8);
    ZeroByteShifts(x);
  }

  lemma ShiftedBytes(b: bv32)
    requires b <= 0xff
    ensures (b << 8) & 0xff == 0 && (b << 8) >> 8 == b
    ensures (b << 16) & 0xff == 0 && (b << 16) >> 8 == b << 8
    ensures (b << 24) & 0xff == 0 && (b << 24) >> 8 == b << 16
  {
  }

  lemma ByteInSecondPlace(b: bv32, n: nat)
    requires b <= 0xff && n >= 8
    ensures Steps(b << 8, n) == Steps(b, n - 8)
  {
    hide Steps;
    ShiftedBytes(b);
    ShiftsOut(b << 8, b, n);
  }

  lemma ByteInThirdPlace(b: bv32, n: nat)
    requires b <= 0xff && n >= 16
    ensures Steps(b << 16, n) == Steps(b, n - 16)
  {
    hide Steps;
    ShiftedBytes(b);
    ShiftsOut(b << 16, b << 8, n);
    ByteInSecondPlace(b, n - 8);
  }

  lemma ByteInFourthPlace(b: bv32, n: nat)
    requires b <= 0xff && n >= 24
    ensures Steps(b << 24, n) == Steps(b, n - 24)
  {
    hide Steps;
    ShiftedBytes(b);
    ShiftsOut(b << 24, b << 16, n);
    ByteInThirdPlace(b, n - 8);
  }

  /** A byte may enter the register early, shifted up, instead of late. */
  lemma EnterEarly(x: bv32, b: bv32, up: bv32, n: nat)
    requires Steps(up, n) == b
    ensures Steps(Xor(x, up), n + 8) == Steps(Xor(Steps(x, n), b), 8)
  {
    hide Steps, Xor;
    StepsCompose(Xor(x, up), n, 8);
    StepsLinear(x, up, n);
  }

  lemma DisjointBits(a: bv32, b: bv32)
    requires a & b == 0
    ensures a | b == a ^ b
  {
  }

  lemma DisjointOr(a: bv32, b: bv32)
    requires a & b == 0
    ensures Or(a, b) == Xor(a, b)
  {
    DisjointBits(a, b);
  }

  lemma OrEnters(l: bv32, a: bv32, b: bv32)
    requires a & b == 0
    ensures Xor(l, Or(a, b)) == Xor(Xor(l, a), b)
  {
    hide Xor, Or;
    DisjointOr(a, b);
    XorAssoc(l, a, b);
  }

  lemma PlacesAreDisjoint(b0: bv32, b1: bv32, b2: bv32, b3: bv32, w1: bv32, w2: bv32)
    requires b0 <= 0xff && b1 <= 0xff && b2 <= 0xff && b3 <= 0xff
    requires w1 == Or(b0, b1 << 8) && w2 == Or(w1, b2 << 16)
    ensures b0 & (b1 << 8) == 0 && w1 & (b2 << 16) == 0 && w2 & (b3 << 24) == 0
  {
  }

  /** Entering a word is entering its bytes, each in its place. */
  lemma WordEnters(l: bv32, b0: bv32, b1: bv32, b2: bv32, b3: bv32)
    requires b0 <= 0xff && b1 <= 0xff && b2 <= 0xff && b3 <= 0xff
    ensures Xor(Xor(Xor(Xor(l, b0), b1 << 8), b2 << 16), b3 << 24) == Xor(l, Word(b0, b1, b2, b3))
  {
    hide Xor, Or;
    var w1 := Or(b0, b1 << 8);
    var w2 := Or(w1, b2 << 16);
    PlacesAreDisjoint(b0, b1, b2, b3, w1, w2);
    OrEnters(l, b0, b1 << 8);
    OrEnters(l, w1, b2 << 16);
    OrEnters(l, w2, b3 << 24);
  }

  lemma BytesInPlace(b: bv32)
    requires b <= 0xff
    ensures Steps(b << 8, 8) == b && Steps(b << 16, 16) == b && Steps(b << 24, 24) == b
  {
    hide Steps;
    NoSteps(b);
    ByteInSecondPlace(b, 8);
    ByteInThirdPlace(b, 16);
    ByteInFourthPlace(b, 24);
  }

  /** Four bytes one at a time are 32 steps over the word they form. */
  lemma FourBytes(l: bv32, b0: bv32, b1: bv32, b2: bv32, b3: bv32)
    requires b0 <= 0xff && b1 <= 0xff && b2 <= 0xff && b3 <= 0xff
    ensures Steps(Xor(Steps(Xor(Steps(Xor(Steps(Xor(l, b0), 8), b1), 8), b2), 8), b3), 8)
            == Steps(Xor(l, Word(b0, b1, b2, b3)), 32)
  {
    hide Xor, Steps, Word;
    WordEnters(l, b0, b1, b2, b3);
    BytesInPlace(b1);
    BytesInPlace(b2);
    BytesInPlace(b3);
    FourBytesEarly(Xor(l, b0), b1, b2, b3, b1 << 8, b2 << 16, b3 << 24);
  }

  lemma FourBytesEarly(x: bv32, b1: bv32, b2: bv32, b3: bv32, s1: bv32, s2: bv32, s3: bv32)
    requires Steps(s1, 8) == b1 && Steps(s2, 16) == b2 && Steps(s3, 24) == b3
    ensures Steps(Xor(Steps(Xor(Steps(Xor(Steps(x, 8), b1), 8), b2), 8), b3), 8) ==
            Steps(Xor(Xor(Xor(x, s1), s2), s3), 32)
  {
    hide Steps, Xor;
    EnterEarly(x, b1, s1, 8);
    EnterEarly(Xor(x, s1), b2, s2, 16);
    EnterEarly(Xor(Xor(x, s1), s2), b3, s3, 24);
  }

  lemma SplitWord(c: bv32, c0: bv32, c1: bv32, c2: bv32, c3: bv32)
    requires c0 == c & 0xff && c1 == (c >> 8) & 0xff && c2 == (c >> 16) & 0xff && c3 == c >> 24
    ensures c0 <= 0xff && c1 <= 0xff && c2 <= 0xff && c3 <= 0xff
    ensures c == Word(c0, c1, c2, c3)
  {
  }

  lemma ZeroIsNeutral(w: bv32)
    ensures Xor(0, w) == w
  {
  }

  lemma Step4IsSteps(l: bv32, w: bv32)
    ensures Step4(l, w) == Steps(Xor(l, w), 32)
  {
    hide Xor, Steps, Table0, Table1, Table2, Table3, Word;
    var c := Xor(l, w);
    var c0, c1, c2, c3 := c & 0xff, (c >> 8) & 0xff, (c >> 16) & 0xff, c >> 24;
    SplitWord(c, c0, c1, c2, c3);
    TablesAddUp(c0, c1, c2, c3);
  }

  lemma TablesAddUp(c0: bv32, c1: bv32, c2: bv32, c3: bv32)
    requires c0 <= 0xff && c1 <= 0xff && c2 <= 0xff && c3 <= 0xff
    ensures Xor(Xor(Xor(Table3(c0), Table2(c1)), Table1(c2)), Table0(c3)) == Steps(Word(c0, c1, c2, c3), 32)
  {
    hide Steps, Xor, Table0, Table1, Table2, Table3, Word;
    Table3IsSteps(c0);
    Table2IsSteps(c1);
    Table1IsSteps(c2);
    Table0IsSteps(c3);
    ByteInSecondPlace(c1, 32);
    ByteInThirdPlace(c2, 32);
    ByteInFourthPlace(c3, 32);
    WordEnters(0, c0, c1, c2, c3);
    ZeroIsNeutral(c0);
    ZeroIsNeutral(Word(c0, c1, c2, c3));
    StepsOfThree(c0, c1 << 8, c2 << 16, c3 << 24, 32);
  }

  lemma StepsOfThree(a: bv32, b: bv32, c: bv32, d: bv32, n: nat)
    ensures Steps(Xor(Xor(Xor(a, b), c), d), n) == Xor(Xor(Xor(Steps(a, n), Steps(b, n)), Steps(c, n)), Steps(d, n))
  {
    hide Steps, Xor;
    StepsLinear(a, b, n);
    StepsLinear(Xor(a, b), c, n);
    StepsLinear(Xor(Xor(a, b), c), d, n);
  }

  lemma FoldNothing(l: bv32)
    ensures Fold(l, []) == l
  {
  }

  lemma FoldStep(l: bv32, data: Bytes)
    requires data != []
    ensures Fold(l, data) == Fold(ByteStep(l, data[0]), data[1..])
  {
  }

  lemma FoldOne(l: bv32, b: byte)
    ensures Fold(l, [b]) == Step1(l, Widen(b))
  {
    hide Step1, Widen, Steps;
    Step1IsByteStep(l, Widen(b));
    assert [b][1..] == [];
  }

  lemma FoldFour(l: bv32, data: Bytes)
    requires |data| == 4
    ensures Fold(l, data) == Step4(l, Word(Widen(data[0]), Widen(data[1]), Widen(data[2]), Widen(data[3])))
  {
    hide Step4, Word, Steps, Xor, Fold;
    var a := data[1..];
    var b := a[1..];
    var c := b[1..];
    assert c[1..] == [];
    var w0, w1, w2, w3 := Widen(data[0]), Widen(data[1]), Widen(data[2]), Widen(data[3]);
    FourBytes(l, w0, w1, w2, w3);
    Step4IsSteps(l, Word(w0, w1, w2, w3));
    var l1 := ByteStep(l, data[0]);
    var l2 := ByteStep(l1, a[0]);
    var l3 := ByteStep(l2, b[0]);
    var l4 := ByteStep(l3, c[0]);
    FoldStep(l, data);
    FoldStep(l1, a);
    FoldStep(l2, b);
    FoldStep(l3, c);
    FoldNothing(l4);
  }

  /** crc32c::Extend, with `address` the position of the buffer in memory: whatever the alignment,
      it returns the byte-at-a-time checksum. */
  method Extend(crc: bv32, buf: Bytes, address: nat) returns (r: bv32)
    ensures r == Crc(crc, buf)
  {
    hide Step1, Step4, Word, Xor, Fold, Widen;
    var l := Xor(crc, 0xffff_ffff);
    ghost var l0 := l;
    var p := 0;
    FoldNothing(l0);
    assert buf[..0] == [];
    // First 4-byte aligned position; possibly past the end
    var x := (address + 3) / 4 * 4 - address;
    if x <= |buf| {
      while p != x
        invariant 0 <= p <= x && l == Fold(l0, buf[..p])
        decreases x - p
      {
        l, p := OneByte(l, l0, buf, p);
      }
    }
    while |buf| - p >= 16
      invariant 0 <= p <= |buf| && l == Fold(l0, buf[..p])
    {
      l, p := FourBytesAtOnce(l, l0, buf, p);
      l, p := FourBytesAtOnce(l, l0, buf, p);
      l, p := FourBytesAtOnce(l, l0, buf, p);
      l, p := FourBytesAtOnce(l, l0, buf, p);
    }
    while |buf| - p >= 4
      invariant 0 <= p <= |buf| && l == Fold(l0, buf[..p])
    {
      l, p := FourBytesAtOnce(l, l0, buf, p);
    }
    while p != |buf|
      invariant 0 <= p <= |buf| && l == Fold(l0, buf[..p])
      decreases |buf| - p
    {
      l, p := OneByte(l, l0, buf, p);
    }
    assert buf[..p] == buf;
    r := Xor(l, 0xffff_ffff);
  }

  method OneByte(l: bv32, ghost l0: bv32, buf: Bytes, p: nat) returns (l1: bv32, p1: nat)
    requires p < |buf| && l == Fold(l0, buf[..p])
    ensures p1 == p + 1 && l1 == Fold(l0, buf[..p1])
  {
    hide Step1, Xor, Fold, Widen;
    l1, p1 := Step1(l, Widen(buf[p])), p + 1;
    FoldOne(l, buf[p]);
    FoldConcat(l0, buf[..p], [buf[p]]);
    assert buf[..p1] == buf[..p] + [buf[p]];
  }

  method FourBytesAtOnce(l: bv32, ghost l0: bv32, buf: Bytes, p: nat) returns (l1: bv32, p1: nat)
    requires p + 4 <= |buf| && l == Fold(l0, buf[..p])
    ensures p1 == p + 4 && l1 == Fold(l0, buf[..p1])
  {
    hide Step4, Word, Xor, Fold, Widen;
    l1, p1 := Step4(l, Word(Widen(buf[p]), Widen(buf[p + 1]), Widen(buf[p + 2]), Widen(buf[p + 3]))), p + 4;
    ghost var four := buf[p..p + 4];
    FoldFour(l, four);
    FoldConcat(l0, buf[..p], four);
    assert buf[..p1] == buf[..p] + four;
  }

  const MASK_DELTA: bv32 := 0xa282ead8

  /** Right by 15 bits. */
  function Rotated(crc: bv32): bv32 {
    (crc >> 15) | (crc << 17)
  }

  function RotatedBack(rot: bv32): bv32 {
    (rot >> 17) | (rot << 15)
  }

  function Mask(crc: bv32): bv32 {
    Rotated(crc) + MASK_DELTA
  }

  function Unmask(masked: bv32): bv32 {
    RotatedBack(masked - MASK_DELTA)
  }

  lemma RotationUndone(crc: bv32)
    ensures RotatedBack(Rotated(crc)) == crc
  {
  }

  lemma OffsetUndone(rot: bv32)
    ensures rot + MASK_DELTA - MASK_DELTA == rot
  {
  }

  lemma UnmaskMask(crc: bv32)
    ensures Unmask(Mask(crc)) == crc
  {
    hide Rotated, RotatedBack;
    RotationUndone(crc);
    OffsetUndone(Rotated(crc));
  }

  function Push(p: bool, n: nat): nat {
    (if p then 1 else 0) + 2 * n
  }

  /** The byte with the bits of `v`. */
  function Narrow(v: bv32): byte
    requires v <= 0xff
  {
    var n7 := Push(v & 0x80 != 0, 0);
    var n6 := Push(v & 0x40 != 0, n7);
    var n5 := Push(v & 0x20 != 0, n6);
    var n4 := Push(v & 0x10 != 0, n5);
    var n3 := Push(v & 8 != 0, n4);
    var n2 := Push(v & 4 != 0, n3);
    var n1 := Push(v & 2 != 0, n2);
    Push(v & 1 != 0, n1) as byte
  }

  lemma OrOfBits(v: bv32)
    requires v <= 0xff
    ensures OrBits(v & 1 != 0, v & 2 != 0, v & 4 != 0, v & 8 != 0, v & 0x10 != 0, v & 0x20 != 0, v & 0x40 != 0,
                   v & 0x80 != 0) == v
  {
  }

  lemma PushPops(p: bool, n: nat)
    ensures (Push(p, n) % 2 == 1 <==> p) && Push(p, n) / 2 == n
  {
  }

  lemma WidenPushed(b: byte, p0: bool, p1: bool, p2: bool, p3: bool, p4: bool, p5: bool, p6: bool, p7: bool)
    requires b as nat == Push(p0, Push(p1, Push(p2, Push(p3, Push(p4, Push(p5, Push(p6, Push(p7, 0))))))))
    ensures Widen(b) == OrBits(p0, p1, p2, p3, p4, p5, p6, p7)
  {
    hide Push, OrBits;
    var n7 := Push(p7, 0);
    var n6 := Push(p6, n7);
    var n5 := Push(p5, n6);
    var n4 := Push(p4, n5);
    var n3 := Push(p3, n4);
    var n2 := Push(p2, n3);
    var n1 := Push(p1, n2);
    PushPops(p7, 0);
    PushPops(p6, n7);
    PushPops(p5, n6);
    PushPops(p4, n5);
    PushPops(p3, n4);
    PushPops(p2, n3);
    PushPops(p1, n2);
    PushPops(p0, n1);
  }

  lemma WidenNarrow(v: bv32)
    requires v <= 0xff
    ensures Widen(Narrow(v)) == v
  {
    hide Push, OrBits, Widen;
    OrOfBits(v);
    WidenPushed(Narrow(v), v & 1 != 0, v & 2 != 0, v & 4 != 0, v & 8 != 0,
                v & 0x10 != 0, v & 0x20 != 0, v & 0x40 != 0, v & 0x80 != 0);
  }

  /** EncodeFixed32 and DecodeFixed32: little-endian. */
  function Fixed32(v: bv32): (r: Bytes)
    ensures |r| == 4
  {
    [Narrow(v & 0xff), Narrow((v >> 8) & 0xff), Narrow((v >> 16) & 0xff), Narrow(v >> 24)]
  }

  function UnFixed32(data: Bytes): bv32
    requires |data| >= 4
  {
    Word(Widen(data[0]), Widen(data[1]), Widen(data[2]), Widen(data[3]))
  }

  lemma Fixed32RoundTrip(v: bv32, rest: Bytes)
    ensures UnFixed32(Fixed32(v) + rest) == v
  {
    hide Narrow, Widen, Word, UnFixed32;
    var v0, v1, v2, v3 := v & 0xff, (v >> 8) & 0xff, (v >> 16) & 0xff, v >> 24;
    SplitWord(v, v0, v1, v2, v3);
    FromNarrowed(Fixed32(v) + rest, v0, v1, v2, v3);
  }

  lemma FromNarrowed(data: Bytes, v0: bv32, v1: bv32, v2: bv32, v3: bv32)
    requires |data| >= 4 && v0 <= 0xff && v1 <= 0xff && v2 <= 0xff && v3 <= 0xff
    requires data[0] == Narrow(v0) && data[1] == Narrow(v1) && data[2] == Narrow(v2) && data[3] == Narrow(v3)
    ensures UnFixed32(data) == Word(v0, v1, v2, v3)
  {
    hide Narrow, Widen, Word;
    WidenNarrow(v0);
    WidenNarrow(v1);
    WidenNarrow(v2);
    WidenNarrow(v3);
  }
}
