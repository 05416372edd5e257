/** The four lookup tables of util/crc32c.cc, with the rule that generates them. */
module Crc32cTables {

  /** Exclusive or, named so that proofs can treat it as a symbol. */
  function Xor(a: bv32, b: bv32): bv32 {
    a ^ b
  }

  /** The reflected CRC-32C polynomial (section 12.1 of RFC 3720), fed back when a one leaves the register. */
  function Feedback(l: bv32): bv32 {
    if l & 1 == 1 then 0x82f63b78 else 0
  }

  function BitStep(l: bv32): bv32 {
    Xor(l >> 1, Feedback(l))
  }

  /** The register after `n` more zero bits. */
  function Steps(l: bv32, n: nat): bv32
    decreases n
  {
    if n == 0 then l else Steps(BitStep(l), n - 1)
  }

  lemma FeedbackLinear(a: bv32, b: bv32)
    ensures Feedback(Xor(a, b)) == Xor(Feedback(a), Feedback(b))
  {
    assert (a ^ b) & 1 == (a & 1) ^ (b & 1);
    assert a & 1 == 0 || a & 1 == 1;
    assert b & 1 == 0 || b & 1 == 1;
  }

  lemma XorComm(a: bv32, b: bv32)
    ensures Xor(a, b) == Xor(b, a)
  {
  }

  lemma XorAssoc(a: bv32, b: bv32, c: bv32)
    ensures Xor(Xor(a, b), c) == Xor(a, Xor(b, c))
  {
  }

  lemma XorSwap(a: bv32, b: bv32, c: bv32, d: bv32)
    ensures Xor(Xor(a, b), Xor(c, d)) == Xor(Xor(a, c), Xor(b, d))
  {
    hide Xor;
    XorAssoc(a, b, Xor(c, d));
    XorAssoc(b, c, d);
    XorComm(b, c);
    XorAssoc(c, b, d);
    XorAssoc(a, c, Xor(b, d));
  }

  lemma ShiftOf(a: bv32, b: bv32, x: bv32, y: bv32)
    requires x == a ^ b && y == (a >> 1) ^ (b >> 1)
    ensures x >> 1 == y
  {
  }

  lemma ShiftLinear(a: bv32, b: bv32)
    ensures Xor(a, b) >> 1 == Xor(a >> 1, b >> 1)
  {
    ShiftOf(a, b, Xor(a, b), Xor(a >> 1, b >> 1));
  }

  lemma BitStepLinear(a: bv32, b: bv32)
    ensures BitStep(Xor(a, b)) == Xor(BitStep(a), BitStep(b))
  {
    hide Feedback, Xor;
    FeedbackLinear(a, b);
    ShiftLinear(a, b);
    XorSwap(a >> 1, b >> 1, Feedback(a), Feedback(b));
  }

  lemma {:induction false} StepsLinear(a: bv32, b: bv32, n: nat)
    ensures Steps(Xor(a, b), n) == Xor(Steps(a, n), Steps(b, n))
    decreases n
  {
    hide BitStep, Xor;
    if n > 0 {
      BitStepLinear(a, b);
      StepsLinear(BitStep(a), BitStep(b), n - 1);
    }
  }

  lemma {:induction false} StepsCompose(l: bv32, m: nat, n: nat)
    ensures Steps(Steps(l, m), n) == Steps(l, m + n)
    decreases m
  {
    hide BitStep;
    if m > 0 {
      StepsCompose(BitStep(l), m - 1, n);
    }
  }

  lemma EvenStep(x: bv32)
    requires x & 1 == 0
    ensures BitStep(x) == x >> 1
  {
  }

  lemma EvenSteps(x: bv32)
    requires x & 3 == 0
    ensures BitStep(BitStep(x)) == x >> 2
  {
    assert x & 1 == 0;
    EvenStep(x);
    assert (x >> 1) & 1 == 0;
    EvenStep(x >> 1);
  }

  lemma TwoSteps(x: bv32, y: bv32, n: nat)
    requires n >= 2 && x & 3 == 0 && y == x >> 2
    ensures Steps(x, n) == Steps(y, n - 2)
  {
    hide BitStep;
    EvenSteps(x);
  }

  lemma FourSteps(x: bv32, y: bv32, n: nat)
    requires n >= 4 && x & 0xf == 0 && y == x >> 4
    ensures Steps(x, n) == Steps(y, n - 4)
  {
    hide BitStep, Steps;
    TwoSteps(x, x >> 2, n);
    TwoSteps(x >> 2, y, n - 2);
  }

  lemma NoSteps(x: bv32)
    ensures Steps(x, 0) == x
  {
  }

  /** Eight zero bits leave the register by plain shifting. */
  lemma ZeroByteShifts(x: bv32)
    requires x & 0xff == 0
    ensures Steps(x, 8) == x >> 8
  {
    hide BitStep, Steps;
    FourSteps(x, x >> 4, 8);
    FourSteps(x >> 4, x >> 8, 4);
    NoSteps(x >> 8);
  }

  /** Steps over a whole byte, unrolled. */
  function Steps8(l: bv32): bv32 {
    BitStep(BitStep(BitStep(BitStep(BitStep(BitStep(BitStep(BitStep(l))))))))
  }

  lemma StepsByByte(l: bv32, n: nat)
    requires n >= 8
    ensures Steps(l, n) == Steps(Steps8(l), n - 8)
  {
    hide BitStep;
    var l2 := BitStep(BitStep(l));
    var l4 := BitStep(BitStep(l2));
    var l6 := BitStep(BitStep(l4));
    StepTwice(l, n);
    StepTwice(l2, n - 2);
    StepTwice(l4, n - 4);
    StepTwice(l6, n - 6);
  }

  lemma StepTwice(l: bv32, n: nat)
    requires n >= 2
    ensures Steps(l, n) == Steps(BitStep(BitStep(l)), n - 2)
  {
    hide BitStep;
  }

  /** One of sixteen entries of a table row. */
  function Pick(lo: bv32, a0: bv32, a1: bv32, a2: bv32, a3: bv32, a4: bv32, a5: bv32, a6: bv32, a7: bv32, a8: bv32,
                a9: bv32, a10: bv32, a11: bv32, a12: bv32, a13: bv32, a14: bv32, a15: bv32): bv32 {
    if lo < 8 then
      if lo < 4 then (if lo < 2 then (if lo < 1 then a0 else a1) else if lo < 3 then a2 else a3)
      else (if lo < 6 then (if lo < 5 then a4 else a5) else if lo < 7 then a6 else a7)
    else
      if lo < 12 then (if lo < 10 then (if lo < 9 then a8 else a9) else if lo < 11 then a10 else a11)
      else (if lo < 14 then (if lo < 13 then a12 else a13) else if lo < 15 then a14 else a15)
  }

  lemma PickXor(lo: bv32, h: bv32, a0: bv32, a1: bv32, a2: bv32, a3: bv32, a4: bv32, a5: bv32, a6: bv32, a7: bv32,
                a8: bv32, a9: bv32, a10: bv32, a11: bv32, a12: bv32, a13: bv32, a14: bv32, a15: bv32)
    ensures Pick(lo, Xor(h, a0), Xor(h, a1), Xor(h, a2), Xor(h, a3), Xor(h, a4), Xor(h, a5), Xor(h, a6), Xor(h, a7),
                 Xor(h, a8), Xor(h, a9), Xor(h, a10), Xor(h, a11), Xor(h, a12), Xor(h, a13), Xor(h, a14), Xor(h, a15))
            == Xor(h, Pick(lo, a0, a1, a2, a3, a4, a5, a6, a7, a8, a9, a10, a11, a12, a13, a14, a15))
  {
    hide Xor;
  }

  lemma PickXorRight(hi: bv32, x: bv32, a0: bv32, a1: bv32, a2: bv32, a3: bv32, a4: bv32, a5: bv32, a6: bv32, a7: bv32,
                     a8: bv32, a9: bv32, a10: bv32, a11: bv32, a12: bv32, a13: bv32, a14: bv32, a15: bv32)
    ensures Pick(hi, Xor(a0, x), Xor(a1, x), Xor(a2, x), Xor(a3, x), Xor(a4, x), Xor(a5, x), Xor(a6, x), Xor(a7, x),
                 Xor(a8, x), Xor(a9, x), Xor(a10, x), Xor(a11, x), Xor(a12, x), Xor(a13, x), Xor(a14, x), Xor(a15, x))
            == Xor(Pick(hi, a0, a1, a2, a3, a4, a5, a6, a7, a8, a9, a10, a11, a12, a13, a14, a15), x)
  {
    hide Xor;
  }

  function Bit(on: bool, a: bv32): bv32 {
    if on then a else 0
  }

  /** The linear combination of four basis values that the low four bits of `i` select. */
  function Span(i: bv32, a: bv32, b: bv32, c: bv32, d: bv32): bv32 {
    Xor(Xor(Bit(i & 1 != 0, a), Bit(i & 2 != 0, b)), Xor(Bit(i & 4 != 0, c), Bit(i & 8 != 0, d)))
  }

  lemma XorZero(a: bv32)
    ensures Xor(0, a) == a && Xor(a, 0) == a
  {
  }

  lemma PickBits(i: bv32, a0: bv32, a1: bv32, a2: bv32, a3: bv32, a4: bv32, a5: bv32, a6: bv32, a7: bv32, a8: bv32,
                 a9: bv32, a10: bv32, a11: bv32, a12: bv32, a13: bv32, a14: bv32, a15: bv32)
    requires i <= 0xf
    ensures Pick(i, a0, a1, a2, a3, a4, a5, a6, a7, a8, a9, a10, a11, a12, a13, a14, a15) ==
      if i & 8 == 0 then
        if i & 4 == 0 then (if i & 2 == 0 then (if i & 1 == 0 then a0 else a1) else if i & 1 == 0 then a2 else a3)
        else (if i & 2 == 0 then (if i & 1 == 0 then a4 else a5) else if i & 1 == 0 then a6 else a7)
      else
        if i & 4 == 0 then (if i & 2 == 0 then (if i & 1 == 0 then a8 else a9) else if i & 1 == 0 then a10 else a11)
        else (if i & 2 == 0 then (if i & 1 == 0 then a12 else a13) else if i & 1 == 0 then a14 else a15)
  {
  }

  lemma SpanCases(p0: bool, p1: bool, p2: bool, p3: bool, a: bv32, b: bv32, c: bv32, d: bv32)
    ensures Xor(Xor(Bit(p0, a), Bit(p1, b)), Xor(Bit(p2, c), Bit(p3, d))) ==
      if !p3 then
        if !p2 then (if !p1 then (if !p0 then 0 else a) else if !p0 then b else Xor(a, b))
        else (if !p1 then (if !p0 then c else Xor(a, c)) else if !p0 then Xor(b, c) else Xor(Xor(a, b), c))
      else
        if !p2 then (if !p1 then (if !p0 then d else Xor(a, d)) else if !p0 then Xor(b, d) else Xor(Xor(a, b), d))
        else (if !p1 then (if !p0 then Xor(c, d) else Xor(a, Xor(c, d)))
              else if !p0 then Xor(b, Xor(c, d)) else Xor(Xor(a, b), Xor(c, d)))
  {
    hide Xor;
    XorZero(0); XorZero(a); XorZero(b); XorZero(c); XorZero(d); XorZero(Xor(a, b)); XorZero(Xor(c, d));
  }

  /** A row whose entries are the combinations of four of them. */
  lemma RowIsSpan(i: bv32, a: bv32, b: bv32, c: bv32, d: bv32)
    requires i <= 0xf
    ensures Pick(i, 0, a, b, Xor(a, b), c, Xor(a, c), Xor(b, c), Xor(Xor(a, b), c), d, Xor(a, d), Xor(b, d),
                 Xor(Xor(a, b), d), Xor(c, d), Xor(a, Xor(c, d)), Xor(b, Xor(c, d)), Xor(Xor(a, b), Xor(c, d)))
            == Span(i, a, b, c, d)
  {
    hide Xor, Pick, Bit;
    PickBits(i, 0, a, b, Xor(a, b), c, Xor(a, c), Xor(b, c), Xor(Xor(a, b), c), d, Xor(a, d), Xor(b, d),
             Xor(Xor(a, b), d), Xor(c, d), Xor(a, Xor(c, d)), Xor(b, Xor(c, d)), Xor(Xor(a, b), Xor(c, d)));
    SpanCases(i & 1 != 0, i & 2 != 0, i & 4 != 0, i & 8 != 0, a, b, c, d);
  }

  lemma Steps8Linear(a: bv32, b: bv32)
    ensures Steps8(Xor(a, b)) == Xor(Steps8(a), Steps8(b))
  {
    hide Xor, BitStep;
    StepsLinear(a, b, 8);
    StepsByByte(a, 8); StepsByByte(b, 8); StepsByByte(Xor(a, b), 8);
    NoSteps(Steps8(a)); NoSteps(Steps8(b)); NoSteps(Steps8(Xor(a, b)));
  }

  lemma SpanSteps(i: bv32, a: bv32, b: bv32, c: bv32, d: bv32)
    ensures Steps8(Span(i, a, b, c, d)) == Span(i, Steps8(a), Steps8(b), Steps8(c), Steps8(d))
  {
    assert Steps8(0) == 0;
    SpanStepsFrom(i, a, b, c, d);
  }

  lemma SpanStepsFrom(i: bv32, a: bv32, b: bv32, c: bv32, d: bv32)
    requires Steps8(0) == 0
    ensures Steps8(Span(i, a, b, c, d)) == Span(i, Steps8(a), Steps8(b), Steps8(c), Steps8(d))
  {
    hide Xor, Steps8;
    Steps8Linear(Bit(i & 1 != 0, a), Bit(i & 2 != 0, b));
    Steps8Linear(Bit(i & 4 != 0, c), Bit(i & 8 != 0, d));
    Steps8Linear(Xor(Bit(i & 1 != 0, a), Bit(i & 2 != 0, b)), Xor(Bit(i & 4 != 0, c), Bit(i & 8 != 0, d)));
  }

  lemma SpanIdentity(i: bv32)
    requires i <= 0xf
    ensures i == Span(i, 1, 2, 4, 8) && i << 4 == Span(i, 0x10, 0x20, 0x40, 0x80)
  {
  }

  lemma Nibbles(c: bv32)
    requires c <= 0xff
    ensures c >> 4 <= 0xf && c & 0xf <= 0xf && c == Xor((c >> 4) << 4, c & 0xf)
  {
  }

  /** table0_ */
  function Table0(c: bv32): bv32 {
    var hi, lo := c >> 4, c & 0xf;
    Pick(hi,
      Pick(lo, 0x00000000, 0xf26b8303, 0xe13b70f7, 0x1350f3f4, 0xc79a971f, 0x35f1141c, 0x26a1e7e8, 0xd4ca64eb,
               0x8ad958cf, 0x78b2dbcc, 0x6be22838, 0x9989ab3b, 0x4d43cfd0, 0xbf284cd3, 0xac78bf27, 0x5e133c24),
      Pick(lo, 0x105ec76f, 0xe235446c, 0xf165b798, 0x030e349b, 0xd7c45070, 0x25afd373, 0x36ff2087, 0xc494a384,
               0x9a879fa0, 0x68ec1ca3, 0x7bbcef57, 0x89d76c54, 0x5d1d08bf, 0xaf768bbc, 0xbc267848, 0x4e4dfb4b),
      Pick(lo, 0x20bd8ede, 0xd2d60ddd, 0xc186fe29, 0x33ed7d2a, 0xe72719c1, 0x154c9ac2, 0x061c6936, 0xf477ea35,
               0xaa64d611, 0x580f5512, 0x4b5fa6e6, 0xb93425e5, 0x6dfe410e, 0x9f95c20d, 0x8cc531f9, 0x7eaeb2fa),
      Pick(lo, 0x30e349b1, 0xc288cab2, 0xd1d83946, 0x23b3ba45, 0xf779deae, 0x05125dad, 0x1642ae59, 0xe4292d5a,
               0xba3a117e, 0x4851927d, 0x5b016189, 0xa96ae28a, 0x7da08661, 0x8fcb0562, 0x9c9bf696, 0x6ef07595),
      Pick(lo, 0x417b1dbc, 0xb3109ebf, 0xa0406d4b, 0x522bee48, 0x86e18aa3, 0x748a09a0, 0x67dafa54, 0x95b17957,
               0xcba24573, 0x39c9c670, 0x2a993584, 0xd8f2b687, 0x0c38d26c, 0xfe53516f, 0xed03a29b, 0x1f682198),
      Pick(lo, 0x5125dad3, 0xa34e59d0, 0xb01eaa24, 0x42752927, 0x96bf4dcc, 0x64d4cecf, 0x77843d3b, 0x85efbe38,
               0xdbfc821c, 0x2997011f, 0x3ac7f2eb, 0xc8ac71e8, 0x1c661503, 0xee0d9600, 0xfd5d65f4, 0x0f36e6f7),
      Pick(lo, 0x61c69362, 0x93ad1061, 0x80fde395, 0x72966096, 0xa65c047d, 0x5437877e, 0x4767748a, 0xb50cf789,
               0xeb1fcbad, 0x197448ae, 0x0a24bb5a, 0xf84f3859, 0x2c855cb2, 0xdeeedfb1, 0xcdbe2c45, 0x3fd5af46),
      Pick(lo, 0x7198540d, 0x83f3d70e, 0x90a324fa, 0x62c8a7f9, 0xb602c312, 0x44694011, 0x5739b3e5, 0xa55230e6,
               0xfb410cc2, 0x092a8fc1, 0x1a7a7c35, 0xe811ff36, 0x3cdb9bdd, 0xceb018de, 0xdde0eb2a, 0x2f8b6829),
      Pick(lo, 0x82f63b78, 0x709db87b, 0x63cd4b8f, 0x91a6c88c, 0x456cac67, 0xb7072f64, 0xa457dc90, 0x563c5f93,
               0x082f63b7, 0xfa44e0b4, 0xe9141340, 0x1b7f9043, 0xcfb5f4a8, 0x3dde77ab, 0x2e8e845f, 0xdce5075c),
      Pick(lo, 0x92a8fc17, 0x60c37f14, 0x73938ce0, 0x81f80fe3, 0x55326b08, 0xa759e80b, 0xb4091bff, 0x466298fc,
               0x1871a4d8, 0xea1a27db, 0xf94ad42f, 0x0b21572c, 0xdfeb33c7, 0x2d80b0c4, 0x3ed04330, 0xccbbc033),
      Pick(lo, 0xa24bb5a6, 0x502036a5, 0x4370c551, 0xb11b4652, 0x65d122b9, 0x97baa1ba, 0x84ea524e, 0x7681d14d,
               0x2892ed69, 0xdaf96e6a, 0xc9a99d9e, 0x3bc21e9d, 0xef087a76, 0x1d63f975, 0x0e330a81, 0xfc588982),
      Pick(lo, 0xb21572c9, 0x407ef1ca, 0x532e023e, 0xa145813d, 0x758fe5d6, 0x87e466d5, 0x94b49521, 0x66df1622,
               0x38cc2a06, 0xcaa7a905, 0xd9f75af1, 0x2b9cd9f2, 0xff56bd19, 0x0d3d3e1a, 0x1e6dcdee, 0xec064eed),
      Pick(lo, 0xc38d26c4, 0x31e6a5c7, 0x22b65633, 0xd0ddd530, 0x0417b1db, 0xf67c32d8, 0xe52cc12c, 0x1747422f,
               0x49547e0b, 0xbb3ffd08, 0xa86f0efc, 0x5a048dff, 0x8ecee914, 0x7ca56a17, 0x6ff599e3, 0x9d9e1ae0),
      Pick(lo, 0xd3d3e1ab, 0x21b862a8, 0x32e8915c, 0xc083125f, 0x144976b4, 0xe622f5b7, 0xf5720643, 0x07198540,
               0x590ab964, 0xab613a67, 0xb831c993, 0x4a5a4a90, 0x9e902e7b, 0x6cfbad78, 0x7fab5e8c, 0x8dc0dd8f),
      Pick(lo, 0xe330a81a, 0x115b2b19, 0x020bd8ed, 0xf0605bee, 0x24aa3f05, 0xd6c1bc06, 0xc5914ff2, 0x37faccf1,
               0x69e9f0d5, 0x9b8273d6, 0x88d28022, 0x7ab90321, 0xae7367ca, 0x5c18e4c9, 0x4f48173d, 0xbd23943e),
      Pick(lo, 0xf36e6f75, 0x0105ec76, 0x12551f82, 0xe03e9c81, 0x34f4f86a, 0xc69f7b69, 0xd5cf889d, 0x27a40b9e,
               0x79b737ba, 0x8bdcb4b9, 0x988c474d, 0x6ae7c44e, 0xbe2da0a5, 0x4c4623a6, 0x5f16d052, 0xad7d5351))
  }

  function Row0(lo: bv32): bv32 {
    Pick(lo, 0x00000000, 0xf26b8303, 0xe13b70f7, 0x1350f3f4, 0xc79a971f, 0x35f1141c, 0x26a1e7e8, 0xd4ca64eb,
             0x8ad958cf, 0x78b2dbcc, 0x6be22838, 0x9989ab3b, 0x4d43cfd0, 0xbf284cd3, 0xac78bf27, 0x5e133c24)
  }

  function Column0(hi: bv32): bv32 {
    Pick(hi, 0x00000000, 0x105ec76f, 0x20bd8ede, 0x30e349b1, 0x417b1dbc, 0x5125dad3, 0x61c69362, 0x7198540d,
             0x82f63b78, 0x92a8fc17, 0xa24bb5a6, 0xb21572c9, 0xc38d26c4, 0xd3d3e1ab, 0xe330a81a, 0xf36e6f75)
  }

  lemma RowFrom0(lo: bv32, h: bv32)
    ensures Pick(lo, Xor(h, 0x00000000), Xor(h, 0xf26b8303), Xor(h, 0xe13b70f7), Xor(h, 0x1350f3f4),
                 Xor(h, 0xc79a971f), Xor(h, 0x35f1141c), Xor(h, 0x26a1e7e8), Xor(h, 0xd4ca64eb), Xor(h, 0x8ad958cf),
                 Xor(h, 0x78b2dbcc), Xor(h, 0x6be22838), Xor(h, 0x9989ab3b), Xor(h, 0x4d43cfd0), Xor(h, 0xbf284cd3),
                 Xor(h, 0xac78bf27), Xor(h, 0x5e133c24))
            == Xor(h, Row0(lo))
  {
    hide Xor, Pick;
    PickXor(lo, h, 0x00000000, 0xf26b8303, 0xe13b70f7, 0x1350f3f4, 0xc79a971f, 0x35f1141c, 0x26a1e7e8, 0xd4ca64eb,
            0x8ad958cf, 0x78b2dbcc, 0x6be22838, 0x9989ab3b, 0x4d43cfd0, 0xbf284cd3, 0xac78bf27, 0x5e133c24);
  }

  lemma Grid0(c: bv32)
    ensures Table0(c) == Xor(Column0(c >> 4), Row0(c & 0xf))
  {
    hide Pick;
    var hi, lo := c >> 4, c & 0xf;
    RowFrom0(lo, 0x00000000); RowFrom0(lo, 0x105ec76f); RowFrom0(lo, 0x20bd8ede); RowFrom0(lo, 0x30e349b1);
    RowFrom0(lo, 0x417b1dbc); RowFrom0(lo, 0x5125dad3); RowFrom0(lo, 0x61c69362); RowFrom0(lo, 0x7198540d);
    RowFrom0(lo, 0x82f63b78); RowFrom0(lo, 0x92a8fc17); RowFrom0(lo, 0xa24bb5a6); RowFrom0(lo, 0xb21572c9);
    RowFrom0(lo, 0xc38d26c4); RowFrom0(lo, 0xd3d3e1ab); RowFrom0(lo, 0xe330a81a); RowFrom0(lo, 0xf36e6f75);
    PickXorRight(hi, Row0(lo), 0x00000000, 0x105ec76f, 0x20bd8ede, 0x30e349b1, 0x417b1dbc, 0x5125dad3, 0x61c69362,
                 0x7198540d, 0x82f63b78, 0x92a8fc17, 0xa24bb5a6, 0xb21572c9, 0xc38d26c4, 0xd3d3e1ab, 0xe330a81a,
                 0xf36e6f75);
  }

  lemma RowEdges0(i: bv32)
    requires i <= 0xf
    ensures Row0(i) == Steps8(i)
  {
    hide Pick, Span;
    SpanIdentity(i);
    SpanSteps(i, 0x1, 0x2, 0x4, 0x8);
    RowIsSpan(i, 0xf26b8303, 0xe13b70f7, 0xc79a971f, 0x8ad958cf);
  }

  lemma ColumnEdges0(i: bv32)
    requires i <= 0xf
    ensures Column0(i) == Steps8(i << 4)
  {
    hide Pick, Span;
    SpanIdentity(i);
    SpanSteps(i, 0x10, 0x20, 0x40, 0x80);
    RowIsSpan(i, 0x105ec76f, 0x20bd8ede, 0x417b1dbc, 0x82f63b78);
  }

  lemma EdgeSteps0(hi: bv32, lo: bv32)
    requires hi <= 0xf && lo <= 0xf
    ensures Row0(lo) == Steps(lo, 8) && Column0(hi) == Steps(hi << 4, 8)
  {
    hide Steps, Steps8, Pick;
    ColumnEdges0(hi); RowEdges0(lo);
    StepsByByte(lo, 8); StepsByByte(hi << 4, 8);
    NoSteps(Row0(lo)); NoSteps(Column0(hi));
  }

  lemma Table0IsSteps(c: bv32)
    requires c <= 0xff
    ensures Table0(c) == Steps(c, 8)
  {
    hide Xor, Pick, Steps, Steps8, Row0, Column0;
    var hi, lo := c >> 4, c & 0xf;
    Grid0(c);
    EdgeSteps0(hi, lo);
    StepsLinear(hi << 4, lo, 8);
    Nibbles(c);
  }

  /** table1_ */
  function Table1(c: bv32): bv32 {
    var hi, lo := c >> 4, c & 0xf;
    Pick(hi,
      Pick(lo, 0x00000000, 0x13a29877, 0x274530ee, 0x34e7a899, 0x4e8a61dc, 0x5d28f9ab, 0x69cf5132, 0x7a6dc945,
               0x9d14c3b8, 0x8eb65bcf, 0xba51f356, 0xa9f36b21, 0xd39ea264, 0xc03c3a13, 0xf4db928a, 0xe7790afd),
      Pick(lo, 0x3fc5f181, 0x2c6769f6, 0x1880c16f, 0x0b225918, 0x714f905d, 0x62ed082a, 0x560aa0b3, 0x45a838c4,
               0xa2d13239, 0xb173aa4e, 0x859402d7, 0x96369aa0, 0xec5b53e5, 0xfff9cb92, 0xcb1e630b, 0xd8bcfb7c),
      Pick(lo, 0x7f8be302, 0x6c297b75, 0x58ced3ec, 0x4b6c4b9b, 0x310182de, 0x22a31aa9, 0x1644b230, 0x05e62a47,
               0xe29f20ba, 0xf13db8cd, 0xc5da1054, 0xd6788823, 0xac154166, 0xbfb7d911, 0x8b507188, 0x98f2e9ff),
      Pick(lo, 0x404e1283, 0x53ec8af4, 0x670b226d, 0x74a9ba1a, 0x0ec4735f, 0x1d66eb28, 0x298143b1, 0x3a23dbc6,
               0xdd5ad13b, 0xcef8494c, 0xfa1fe1d5, 0xe9bd79a2, 0x93d0b0e7, 0x80722890, 0xb4958009, 0xa737187e),
      Pick(lo, 0xff17c604, 0xecb55e73, 0xd852f6ea, 0xcbf06e9d, 0xb19da7d8, 0xa23f3faf, 0x96d89736, 0x857a0f41,
               0x620305bc, 0x71a19dcb, 0x45463552, 0x56e4ad25, 0x2c896460, 0x3f2bfc17, 0x0bcc548e, 0x186eccf9),
      Pick(lo, 0xc0d23785, 0xd370aff2, 0xe797076b, 0xf4359f1c, 0x8e585659, 0x9dface2e, 0xa91d66b7, 0xbabffec0,
               0x5dc6f43d, 0x4e646c4a, 0x7a83c4d3, 0x69215ca4, 0x134c95e1, 0x00ee0d96, 0x3409a50f, 0x27ab3d78),
      Pick(lo, 0x809c2506, 0x933ebd71, 0xa7d915e8, 0xb47b8d9f, 0xce1644da, 0xddb4dcad, 0xe9537434, 0xfaf1ec43,
               0x1d88e6be, 0x0e2a7ec9, 0x3acdd650, 0x296f4e27, 0x53028762, 0x40a01f15, 0x7447b78c, 0x67e52ffb),
      Pick(lo, 0xbf59d487, 0xacfb4cf0, 0x981ce469, 0x8bbe7c1e, 0xf1d3b55b, 0xe2712d2c, 0xd69685b5, 0xc5341dc2,
               0x224d173f, 0x31ef8f48, 0x050827d1, 0x16aabfa6, 0x6cc776e3, 0x7f65ee94, 0x4b82460d, 0x5820de7a),
      Pick(lo, 0xfbc3faf9, 0xe861628e, 0xdc86ca17, 0xcf245260, 0xb5499b25, 0xa6eb0352, 0x920cabcb, 0x81ae33bc,
               0x66d73941, 0x7575a136, 0x419209af, 0x523091d8, 0x285d589d, 0x3bffc0ea, 0x0f186873, 0x1cbaf004),
      Pick(lo, 0xc4060b78, 0xd7a4930f, 0xe3433b96, 0xf0e1a3e1, 0x8a8c6aa4, 0x992ef2d3, 0xadc95a4a, 0xbe6bc23d,
               0x5912c8c0, 0x4ab050b7, 0x7e57f82e, 0x6df56059, 0x1798a91c, 0x043a316b, 0x30dd99f2, 0x237f0185),
      Pick(lo, 0x844819fb, 0x97ea818c, 0xa30d2915, 0xb0afb162, 0xcac27827, 0xd960e050, 0xed8748c9, 0xfe25d0be,
               0x195cda43, 0x0afe4234, 0x3e19eaad, 0x2dbb72da, 0x57d6bb9f, 0x447423e8, 0x70938b71, 0x63311306),
      Pick(lo, 0xbb8de87a, 0xa82f700d, 0x9cc8d894, 0x8f6a40e3, 0xf50789a6, 0xe6a511d1, 0xd242b948, 0xc1e0213f,
               0x26992bc2, 0x353bb3b5, 0x01dc1b2c, 0x127e835b, 0x68134a1e, 0x7bb1d269, 0x4f567af0, 0x5cf4e287),
      Pick(lo, 0x04d43cfd, 0x1776a48a, 0x23910c13, 0x30339464, 0x4a5e5d21, 0x59fcc556, 0x6d1b6dcf, 0x7eb9f5b8,
               0x99c0ff45, 0x8a626732, 0xbe85cfab, 0xad2757dc, 0xd74a9e99, 0xc4e806ee, 0xf00fae77, 0xe3ad3600),
      Pick(lo, 0x3b11cd7c, 0x28b3550b, 0x1c54fd92, 0x0ff665e5, 0x759baca0, 0x663934d7, 0x52de9c4e, 0x417c0439,
               0xa6050ec4, 0xb5a796b3, 0x81403e2a, 0x92e2a65d, 0xe88f6f18, 0xfb2df76f, 0xcfca5ff6, 0xdc68c781),
      Pick(lo, 0x7b5fdfff, 0x68fd4788, 0x5c1aef11, 0x4fb87766, 0x35d5be23, 0x26772654, 0x12908ecd, 0x013216ba,
               0xe64b1c47, 0xf5e98430, 0xc10e2ca9, 0xd2acb4de, 0xa8c17d9b, 0xbb63e5ec, 0x8f844d75, 0x9c26d502),
      Pick(lo, 0x449a2e7e, 0x5738b609, 0x63df1e90, 0x707d86e7, 0x0a104fa2, 0x19b2d7d5, 0x2d557f4c, 0x3ef7e73b,
               0xd98eedc6, 0xca2c75b1, 0xfecbdd28, 0xed69455f, 0x97048c1a, 0x84a6146d, 0xb041bcf4, 0xa3e32483))
  }

  function Row1(lo: bv32): bv32 {
    Pick(lo, 0x00000000, 0x13a29877, 0x274530ee, 0x34e7a899, 0x4e8a61dc, 0x5d28f9ab, 0x69cf5132, 0x7a6dc945,
             0x9d14c3b8, 0x8eb65bcf, 0xba51f356, 0xa9f36b21, 0xd39ea264, 0xc03c3a13, 0xf4db928a, 0xe7790afd)
  }

  function Column1(hi: bv32): bv32 {
    Pick(hi, 0x00000000, 0x3fc5f181, 0x7f8be302, 0x404e1283, 0xff17c604, 0xc0d23785, 0x809c2506, 0xbf59d487,
             0xfbc3faf9, 0xc4060b78, 0x844819fb, 0xbb8de87a, 0x04d43cfd, 0x3b11cd7c, 0x7b5fdfff, 0x449a2e7e)
  }

  lemma RowFrom1(lo: bv32, h: bv32)
    ensures Pick(lo, Xor(h, 0x00000000), Xor(h, 0x13a29877), Xor(h, 0x274530ee), Xor(h, 0x34e7a899),
                 Xor(h, 0x4e8a61dc), Xor(h, 0x5d28f9ab), Xor(h, 0x69cf5132), Xor(h, 0x7a6dc945), Xor(h, 0x9d14c3b8),
                 Xor(h, 0x8eb65bcf), Xor(h, 0xba51f356), Xor(h, 0xa9f36b21), Xor(h, 0xd39ea264), Xor(h, 0xc03c3a13),
                 Xor(h, 0xf4db928a), Xor(h, 0xe7790afd))
            == Xor(h, Row1(lo))
  {
    hide Xor, Pick;
    PickXor(lo, h, 0x00000000, 0x13a29877, 0x274530ee, 0x34e7a899, 0x4e8a61dc, 0x5d28f9ab, 0x69cf5132, 0x7a6dc945,
            0x9d14c3b8, 0x8eb65bcf, 0xba51f356, 0xa9f36b21, 0xd39ea264, 0xc03c3a13, 0xf4db928a, 0xe7790afd);
  }

  lemma Grid1(c: bv32)
    ensures Table1(c) == Xor(Column1(c >> 4), Row1(c & 0xf))
  {
    hide Pick;
    var hi, lo := c >> 4, c & 0xf;
    RowFrom1(lo, 0x00000000); RowFrom1(lo, 0x3fc5f181); RowFrom1(lo, 0x7f8be302); RowFrom1(lo, 0x404e1283);
    RowFrom1(lo, 0xff17c604); RowFrom1(lo, 0xc0d23785); RowFrom1(lo, 0x809c2506); RowFrom1(lo, 0xbf59d487);
    RowFrom1(lo, 0xfbc3faf9); RowFrom1(lo, 0xc4060b78); RowFrom1(lo, 0x844819fb); RowFrom1(lo, 0xbb8de87a);
    RowFrom1(lo, 0x04d43cfd); RowFrom1(lo, 0x3b11cd7c); RowFrom1(lo, 0x7b5fdfff); RowFrom1(lo, 0x449a2e7e);
    PickXorRight(hi, Row1(lo), 0x00000000, 0x3fc5f181, 0x7f8be302, 0x404e1283, 0xff17c604, 0xc0d23785, 0x809c2506,
                 0xbf59d487, 0xfbc3faf9, 0xc4060b78, 0x844819fb, 0xbb8de87a, 0x04d43cfd, 0x3b11cd7c, 0x7b5fdfff,
                 0x449a2e7e);
  }

  lemma RowEdges1(i: bv32)
    requires i <= 0xf
    ensures Row1(i) == Steps8(Row0(i))
  {
    hide Pick, Span;
    RowIsSpan(i, 0xf26b8303, 0xe13b70f7, 0xc79a971f, 0x8ad958cf);
    SpanSteps(i, 0xf26b8303, 0xe13b70f7, 0xc79a971f, 0x8ad958cf);
    RowIsSpan(i, 0x13a29877, 0x274530ee, 0x4e8a61dc, 0x9d14c3b8);
  }

  lemma ColumnEdges1(i: bv32)
    requires i <= 0xf
    ensures Column1(i) == Steps8(Column0(i))
  {
    hide Pick, Span;
    RowIsSpan(i, 0x105ec76f, 0x20bd8ede, 0x417b1dbc, 0x82f63b78);
    SpanSteps(i, 0x105ec76f, 0x20bd8ede, 0x417b1dbc, 0x82f63b78);
    RowIsSpan(i, 0x3fc5f181, 0x7f8be302, 0xff17c604, 0xfbc3faf9);
  }

  lemma EdgeSteps1(hi: bv32, lo: bv32)
    requires hi <= 0xf && lo <= 0xf
    ensures Row1(lo) == Steps(lo, 16) && Column1(hi) == Steps(hi << 4, 16)
  {
    hide Steps, Steps8, Pick;
    ColumnEdges0(hi); RowEdges0(lo);
    StepsByByte(lo, 16); StepsByByte(hi << 4, 16);
    ColumnEdges1(hi); RowEdges1(lo);
    StepsByByte(Row0(lo), 8); StepsByByte(Column0(hi), 8);
    NoSteps(Row1(lo)); NoSteps(Column1(hi));
  }

  lemma Table1IsSteps(c: bv32)
    requires c <= 0xff
    ensures Table1(c) == Steps(c, 16)
  {
    hide Xor, Pick, Steps, Steps8, Row1, Column1;
    var hi, lo := c >> 4, c & 0xf;
    Grid1(c);
    EdgeSteps1(hi, lo);
    StepsLinear(hi << 4, lo, 16);
    Nibbles(c);
  }

  /** table2_ */
  function Table2(c: bv32): bv32 {
    var hi, lo := c >> 4, c & 0xf;
    Pick(hi,
      Pick(lo, 0x00000000, 0xa541927e, 0x4f6f520d, 0xea2ec073, 0x9edea41a, 0x3b9f3664, 0xd1b1f617, 0x74f06469,
               0x38513ec5, 0x9d10acbb, 0x773e6cc8, 0xd27ffeb6, 0xa68f9adf, 0x03ce08a1, 0xe9e0c8d2, 0x4ca15aac),
      Pick(lo, 0x70a27d8a, 0xd5e3eff4, 0x3fcd2f87, 0x9a8cbdf9, 0xee7cd990, 0x4b3d4bee, 0xa1138b9d, 0x045219e3,
               0x48f3434f, 0xedb2d131, 0x079c1142, 0xa2dd833c, 0xd62de755, 0x736c752b, 0x9942b558, 0x3c032726),
      Pick(lo, 0xe144fb14, 0x4405696a, 0xae2ba919, 0x0b6a3b67, 0x7f9a5f0e, 0xdadbcd70, 0x30f50d03, 0x95b49f7d,
               0xd915c5d1, 0x7c5457af, 0x967a97dc, 0x333b05a2, 0x47cb61cb, 0xe28af3b5, 0x08a433c6, 0xade5a1b8),
      Pick(lo, 0x91e6869e, 0x34a714e0, 0xde89d493, 0x7bc846ed, 0x0f382284, 0xaa79b0fa, 0x40577089, 0xe516e2f7,
               0xa9b7b85b, 0x0cf62a25, 0xe6d8ea56, 0x43997828, 0x37691c41, 0x92288e3f, 0x78064e4c, 0xdd47dc32),
      Pick(lo, 0xc76580d9, 0x622412a7, 0x880ad2d4, 0x2d4b40aa, 0x59bb24c3, 0xfcfab6bd, 0x16d476ce, 0xb395e4b0,
               0xff34be1c, 0x5a752c62, 0xb05bec11, 0x151a7e6f, 0x61ea1a06, 0xc4ab8878, 0x2e85480b, 0x8bc4da75),
      Pick(lo, 0xb7c7fd53, 0x12866f2d, 0xf8a8af5e, 0x5de93d20, 0x29195949, 0x8c58cb37, 0x66760b44, 0xc337993a,
               0x8f96c396, 0x2ad751e8, 0xc0f9919b, 0x65b803e5, 0x1148678c, 0xb409f5f2, 0x5e273581, 0xfb66a7ff),
      Pick(lo, 0x26217bcd, 0x8360e9b3, 0x694e29c0, 0xcc0fbbbe, 0xb8ffdfd7, 0x1dbe4da9, 0xf7908dda, 0x52d11fa4,
               0x1e704508, 0xbb31d776, 0x511f1705, 0xf45e857b, 0x80aee112, 0x25ef736c, 0xcfc1b31f, 0x6a802161),
      Pick(lo, 0x56830647, 0xf3c29439, 0x19ec544a, 0xbcadc634, 0xc85da25d, 0x6d1c3023, 0x8732f050, 0x2273622e,
               0x6ed23882, 0xcb93aafc, 0x21bd6a8f, 0x84fcf8f1, 0xf00c9c98, 0x554d0ee6, 0xbf63ce95, 0x1a225ceb),
      Pick(lo, 0x8b277743, 0x2e66e53d, 0xc448254e, 0x6109b730, 0x15f9d359, 0xb0b84127, 0x5a968154, 0xffd7132a,
               0xb3764986, 0x1637dbf8, 0xfc191b8b, 0x595889f5, 0x2da8ed9c, 0x88e97fe2, 0x62c7bf91, 0xc7862def),
      Pick(lo, 0xfb850ac9, 0x5ec498b7, 0xb4ea58c4, 0x11abcaba, 0x655baed3, 0xc01a3cad, 0x2a34fcde, 0x8f756ea0,
               0xc3d4340c, 0x6695a672, 0x8cbb6601, 0x29faf47f, 0x5d0a9016, 0xf84b0268, 0x1265c21b, 0xb7245065),
      Pick(lo, 0x6a638c57, 0xcf221e29, 0x250cde5a, 0x804d4c24, 0xf4bd284d, 0x51fcba33, 0xbbd27a40, 0x1e93e83e,
               0x5232b292, 0xf77320ec, 0x1d5de09f, 0xb81c72e1, 0xccec1688, 0x69ad84f6, 0x83834485, 0x26c2d6fb),
      Pick(lo, 0x1ac1f1dd, 0xbf8063a3, 0x55aea3d0, 0xf0ef31ae, 0x841f55c7, 0x215ec7b9, 0xcb7007ca, 0x6e3195b4,
               0x2290cf18, 0x87d15d66, 0x6dff9d15, 0xc8be0f6b, 0xbc4e6b02, 0x190ff97c, 0xf321390f, 0x5660ab71),
      Pick(lo, 0x4c42f79a, 0xe90365e4, 0x032da597, 0xa66c37e9, 0xd29c5380, 0x77ddc1fe, 0x9df3018d, 0x38b293f3,
               0x7413c95f, 0xd1525b21, 0x3b7c9b52, 0x9e3d092c, 0xeacd6d45, 0x4f8cff3b, 0xa5a23f48, 0x00e3ad36),
      Pick(lo, 0x3ce08a10, 0x99a1186e, 0x738fd81d, 0xd6ce4a63, 0xa23e2e0a, 0x077fbc74, 0xed517c07, 0x4810ee79,
               0x04b1b4d5, 0xa1f026ab, 0x4bdee6d8, 0xee9f74a6, 0x9a6f10cf, 0x3f2e82b1, 0xd50042c2, 0x7041d0bc),
      Pick(lo, 0xad060c8e, 0x08479ef0, 0xe2695e83, 0x4728ccfd, 0x33d8a894, 0x96993aea, 0x7cb7fa99, 0xd9f668e7,
               0x9557324b, 0x3016a035, 0xda386046, 0x7f79f238, 0x0b899651, 0xaec8042f, 0x44e6c45c, 0xe1a75622),
      Pick(lo, 0xdda47104, 0x78e5e37a, 0x92cb2309, 0x378ab177, 0x437ad51e, 0xe63b4760, 0x0c158713, 0xa954156d,
               0xe5f54fc1, 0x40b4ddbf, 0xaa9a1dcc, 0x0fdb8fb2, 0x7b2bebdb, 0xde6a79a5, 0x3444b9d6, 0x91052ba8))
  }

  function Row2(lo: bv32): bv32 {
    Pick(lo, 0x00000000, 0xa541927e, 0x4f6f520d, 0xea2ec073, 0x9edea41a, 0x3b9f3664, 0xd1b1f617, 0x74f06469,
             0x38513ec5, 0x9d10acbb, 0x773e6cc8, 0xd27ffeb6, 0xa68f9adf, 0x03ce08a1, 0xe9e0c8d2, 0x4ca15aac)
  }

  function Column2(hi: bv32): bv32 {
    Pick(hi, 0x00000000, 0x70a27d8a, 0xe144fb14, 0x91e6869e, 0xc76580d9, 0xb7c7fd53, 0x26217bcd, 0x56830647,
             0x8b277743, 0xfb850ac9, 0x6a638c57, 0x1ac1f1dd, 0x4c42f79a, 0x3ce08a10, 0xad060c8e, 0xdda47104)
  }

  lemma RowFrom2(lo: bv32, h: bv32)
    ensures Pick(lo, Xor(h, 0x00000000), Xor(h, 0xa541927e), Xor(h, 0x4f6f520d), Xor(h, 0xea2ec073),
                 Xor(h, 0x9edea41a), Xor(h, 0x3b9f3664), Xor(h, 0xd1b1f617), Xor(h, 0x74f06469), Xor(h, 0x38513ec5),
                 Xor(h, 0x9d10acbb), Xor(h, 0x773e6cc8), Xor(h, 0xd27ffeb6), Xor(h, 0xa68f9adf), Xor(h, 0x03ce08a1),
                 Xor(h, 0xe9e0c8d2), Xor(h, 0x4ca15aac))
            == Xor(h, Row2(lo))
  {
    hide Xor, Pick;
    PickXor(lo, h, 0x00000000, 0xa541927e, 0x4f6f520d, 0xea2ec073, 0x9edea41a, 0x3b9f3664, 0xd1b1f617, 0x74f06469,
            0x38513ec5, 0x9d10acbb, 0x773e6cc8, 0xd27ffeb6, 0xa68f9adf, 0x03ce08a1, 0xe9e0c8d2, 0x4ca15aac);
  }

  lemma Grid2(c: bv32)
    ensures Table2(c) == Xor(Column2(c >> 4), Row2(c & 0xf))
  {
    hide Pick;
    var hi, lo := c >> 4, c & 0xf;
    RowFrom2(lo, 0x00000000); RowFrom2(lo, 0x70a27d8a); RowFrom2(lo, 0xe144fb14); RowFrom2(lo, 0x91e6869e);
    RowFrom2(lo, 0xc76580d9); RowFrom2(lo, 0xb7c7fd53); RowFrom2(lo, 0x26217bcd); RowFrom2(lo, 0x56830647);
    RowFrom2(lo, 0x8b277743); RowFrom2(lo, 0xfb850ac9); RowFrom2(lo, 0x6a638c57); RowFrom2(lo, 0x1ac1f1dd);
    RowFrom2(lo, 0x4c42f79a); RowFrom2(lo, 0x3ce08a10); RowFrom2(lo, 0xad060c8e); RowFrom2(lo, 0xdda47104);
    PickXorRight(hi, Row2(lo), 0x00000000, 0x70a27d8a, 0xe144fb14, 0x91e6869e, 0xc76580d9, 0xb7c7fd53, 0x26217bcd,
                 0x56830647, 0x8b277743, 0xfb850ac9, 0x6a638c57, 0x1ac1f1dd, 0x4c42f79a, 0x3ce08a10, 0xad060c8e,
                 0xdda47104);
  }

  lemma RowEdges2(i: bv32)
    requires i <= 0xf
    ensures Row2(i) == Steps8(Row1(i))
  {
    hide Pick, Span;
    RowIsSpan(i, 0x13a29877, 0x274530ee, 0x4e8a61dc, 0x9d14c3b8);
    SpanSteps(i, 0x13a29877, 0x274530ee, 0x4e8a61dc, 0x9d14c3b8);
    RowIsSpan(i, 0xa541927e, 0x4f6f520d, 0x9edea41a, 0x38513ec5);
  }

  lemma ColumnEdges2(i: bv32)
    requires i <= 0xf
    ensures Column2(i) == Steps8(Column1(i))
  {
    hide Pick, Span;
    RowIsSpan(i, 0x3fc5f181, 0x7f8be302, 0xff17c604, 0xfbc3faf9);
    SpanSteps(i, 0x3fc5f181, 0x7f8be302, 0xff17c604, 0xfbc3faf9);
    RowIsSpan(i, 0x70a27d8a, 0xe144fb14, 0xc76580d9, 0x8b277743);
  }

  lemma EdgeSteps2(hi: bv32, lo: bv32)
    requires hi <= 0xf && lo <= 0xf
    ensures Row2(lo) == Steps(lo, 24) && Column2(hi) == Steps(hi << 4, 24)
  {
    hide Steps, Steps8, Pick;
    ColumnEdges0(hi); RowEdges0(lo);
    StepsByByte(lo, 24); StepsByByte(hi << 4, 24);
    ColumnEdges1(hi); RowEdges1(lo);
    StepsByByte(Row0(lo), 16); StepsByByte(Column0(hi), 16);
    ColumnEdges2(hi); RowEdges2(lo);
    StepsByByte(Row1(lo), 8); StepsByByte(Column1(hi), 8);
    NoSteps(Row2(lo)); NoSteps(Column2(hi));
  }

  lemma Table2IsSteps(c: bv32)
    requires c <= 0xff
    ensures Table2(c) == Steps(c, 24)
  {
    hide Xor, Pick, Steps, Steps8, Row2, Column2;
    var hi, lo := c >> 4, c & 0xf;
    Grid2(c);
    EdgeSteps2(hi, lo);
    StepsLinear(hi << 4, lo, 24);
    Nibbles(c);
  }

  /** table3_ */
  function Table3(c: bv32): bv32 {
    var hi, lo := c >> 4, c & 0xf;
    Pick(hi,
      Pick(lo, 0x00000000, 0xdd45aab8, 0xbf672381, 0x62228939, 0x7b2231f3, 0xa6679b4b, 0xc4451272, 0x1900b8ca,
               0xf64463e6, 0x2b01c95e, 0x49234067, 0x9466eadf, 0x8d665215, 0x5023f8ad, 0x32017194, 0xef44db2c),
      Pick(lo, 0xe964b13d, 0x34211b85, 0x560392bc, 0x8b463804, 0x924680ce, 0x4f032a76, 0x2d21a34f, 0xf06409f7,
               0x1f20d2db, 0xc2657863, 0xa047f15a, 0x7d025be2, 0x6402e328, 0xb9474990, 0xdb65c0a9, 0x06206a11),
      Pick(lo, 0xd725148b, 0x0a60be33, 0x6842370a, 0xb5079db2, 0xac072578, 0x71428fc0, 0x136006f9, 0xce25ac41,
               0x2161776d, 0xfc24ddd5, 0x9e0654ec, 0x4343fe54, 0x5a43469e, 0x8706ec26, 0xe524651f, 0x3861cfa7),
      Pick(lo, 0x3e41a5b6, 0xe3040f0e, 0x81268637, 0x5c632c8f, 0x45639445, 0x98263efd, 0xfa04b7c4, 0x27411d7c,
               0xc805c650, 0x15406ce8, 0x7762e5d1, 0xaa274f69, 0xb327f7a3, 0x6e625d1b, 0x0c40d422, 0xd1057e9a),
      Pick(lo, 0xaba65fe7, 0x76e3f55f, 0x14c17c66, 0xc984d6de, 0xd0846e14, 0x0dc1c4ac, 0x6fe34d95, 0xb2a6e72d,
               0x5de23c01, 0x80a796b9, 0xe2851f80, 0x3fc0b538, 0x26c00df2, 0xfb85a74a, 0x99a72e73, 0x44e284cb),
      Pick(lo, 0x42c2eeda, 0x9f874462, 0xfda5cd5b, 0x20e067e3, 0x39e0df29, 0xe4a57591, 0x8687fca8, 0x5bc25610,
               0xb4868d3c, 0x69c32784, 0x0be1aebd, 0xd6a40405, 0xcfa4bccf, 0x12e11677, 0x70c39f4e, 0xad8635f6),
      Pick(lo, 0x7c834b6c, 0xa1c6e1d4, 0xc3e468ed, 0x1ea1c255, 0x07a17a9f, 0xdae4d027, 0xb8c6591e, 0x6583f3a6,
               0x8ac7288a, 0x57828232, 0x35a00b0b, 0xe8e5a1b3, 0xf1e51979, 0x2ca0b3c1, 0x4e823af8, 0x93c79040),
      Pick(lo, 0x95e7fa51, 0x48a250e9, 0x2a80d9d0, 0xf7c57368, 0xeec5cba2, 0x3380611a, 0x51a2e823, 0x8ce7429b,
               0x63a399b7, 0xbee6330f, 0xdcc4ba36, 0x0181108e, 0x1881a844, 0xc5c402fc, 0xa7e68bc5, 0x7aa3217d),
      Pick(lo, 0x52a0c93f, 0x8fe56387, 0xedc7eabe, 0x30824006, 0x2982f8cc, 0xf4c75274, 0x96e5db4d, 0x4ba071f5,
               0xa4e4aad9, 0x79a10061, 0x1b838958, 0xc6c623e0, 0xdfc69b2a, 0x02833192, 0x60a1b8ab, 0xbde41213),
      Pick(lo, 0xbbc47802, 0x6681d2ba, 0x04a35b83, 0xd9e6f13b, 0xc0e649f1, 0x1da3e349, 0x7f816a70, 0xa2c4c0c8,
               0x4d801be4, 0x90c5b15c, 0xf2e73865, 0x2fa292dd, 0x36a22a17, 0xebe780af, 0x89c50996, 0x5480a32e),
      Pick(lo, 0x8585ddb4, 0x58c0770c, 0x3ae2fe35, 0xe7a7548d, 0xfea7ec47, 0x23e246ff, 0x41c0cfc6, 0x9c85657e,
               0x73c1be52, 0xae8414ea, 0xcca69dd3, 0x11e3376b, 0x08e38fa1, 0xd5a62519, 0xb784ac20, 0x6ac10698),
      Pick(lo, 0x6ce16c89, 0xb1a4c631, 0xd3864f08, 0x0ec3e5b0, 0x17c35d7a, 0xca86f7c2, 0xa8a47efb, 0x75e1d443,
               0x9aa50f6f, 0x47e0a5d7, 0x25c22cee, 0xf8878656, 0xe1873e9c, 0x3cc29424, 0x5ee01d1d, 0x83a5b7a5),
      Pick(lo, 0xf90696d8, 0x24433c60, 0x4661b559, 0x9b241fe1, 0x8224a72b, 0x5f610d93, 0x3d4384aa, 0xe0062e12,
               0x0f42f53e, 0xd2075f86, 0xb025d6bf, 0x6d607c07, 0x7460c4cd, 0xa9256e75, 0xcb07e74c, 0x16424df4),
      Pick(lo, 0x106227e5, 0xcd278d5d, 0xaf050464, 0x7240aedc, 0x6b401616, 0xb605bcae, 0xd4273597, 0x09629f2f,
               0xe6264403, 0x3b63eebb, 0x59416782, 0x8404cd3a, 0x9d0475f0, 0x4041df48, 0x22635671, 0xff26fcc9),
      Pick(lo, 0x2e238253, 0xf36628eb, 0x9144a1d2, 0x4c010b6a, 0x5501b3a0, 0x88441918, 0xea669021, 0x37233a99,
               0xd867e1b5, 0x05224b0d, 0x6700c234, 0xba45688c, 0xa345d046, 0x7e007afe, 0x1c22f3c7, 0xc167597f),
      Pick(lo, 0xc747336e, 0x1a0299d6, 0x782010ef, 0xa565ba57, 0xbc65029d, 0x6120a825, 0x0302211c, 0xde478ba4,
               0x31035088, 0xec46fa30, 0x8e647309, 0x5321d9b1, 0x4a21617b, 0x9764cbc3, 0xf54642fa, 0x2803e842))
  }

  function Row3(lo: bv32): bv32 {
    Pick(lo, 0x00000000, 0xdd45aab8, 0xbf672381, 0x62228939, 0x7b2231f3, 0xa6679b4b, 0xc4451272, 0x1900b8ca,
             0xf64463e6, 0x2b01c95e, 0x49234067, 0x9466eadf, 0x8d665215, 0x5023f8ad, 0x32017194, 0xef44db2c)
  }

  function Column3(hi: bv32): bv32 {
    Pick(hi, 0x00000000, 0xe964b13d, 0xd725148b, 0x3e41a5b6, 0xaba65fe7, 0x42c2eeda, 0x7c834b6c, 0x95e7fa51,
             0x52a0c93f, 0xbbc47802, 0x8585ddb4, 0x6ce16c89, 0xf90696d8, 0x106227e5, 0x2e238253, 0xc747336e)
  }

  lemma RowFrom3(lo: bv32, h: bv32)
    ensures Pick(lo, Xor(h, 0x00000000), Xor(h, 0xdd45aab8), Xor(h, 0xbf672381), Xor(h, 0x62228939),
                 Xor(h, 0x7b2231f3), Xor(h, 0xa6679b4b), Xor(h, 0xc4451272), Xor(h, 0x1900b8ca), Xor(h, 0xf64463e6),
                 Xor(h, 0x2b01c95e), Xor(h, 0x49234067), Xor(h, 0x9466eadf), Xor(h, 0x8d665215), Xor(h, 0x5023f8ad),
                 Xor(h, 0x32017194), Xor(h, 0xef44db2c))
            == Xor(h, Row3(lo))
  {
    hide Xor, Pick;
    PickXor(lo, h, 0x00000000, 0xdd45aab8, 0xbf672381, 0x62228939, 0x7b2231f3, 0xa6679b4b, 0xc4451272, 0x1900b8ca,
            0xf64463e6, 0x2b01c95e, 0x49234067, 0x9466eadf, 0x8d665215, 0x5023f8ad, 0x32017194, 0xef44db2c);
  }

  lemma Grid3(c: bv32)
    ensures Table3(c) == Xor(Column3(c >> 4), Row3(c & 0xf))
  {
    hide Pick;
    var hi, lo := c >> 4, c & 0xf;
    RowFrom3(lo, 0x00000000); RowFrom3(lo, 0xe964b13d); RowFrom3(lo, 0xd725148b); RowFrom3(lo, 0x3e41a5b6);
    RowFrom3(lo, 0xaba65fe7); RowFrom3(lo, 0x42c2eeda); RowFrom3(lo, 0x7c834b6c); RowFrom3(lo, 0x95e7fa51);
    RowFrom3(lo, 0x52a0c93f); RowFrom3(lo, 0xbbc47802); RowFrom3(lo, 0x8585ddb4); RowFrom3(lo, 0x6ce16c89);
    RowFrom3(lo, 0xf90696d8); RowFrom3(lo, 0x106227e5); RowFrom3(lo, 0x2e238253); RowFrom3(lo, 0xc747336e);
    PickXorRight(hi, Row3(lo), 0x00000000, 0xe964b13d, 0xd725148b, 0x3e41a5b6, 0xaba65fe7, 0x42c2eeda, 0x7c834b6c,
                 0x95e7fa51, 0x52a0c93f, 0xbbc47802, 0x8585ddb4, 0x6ce16c89, 0xf90696d8, 0x106227e5, 0x2e238253,
                 0xc747336e);
  }

  lemma RowEdges3(i: bv32)
    requires i <= 0xf
    ensures Row3(i) == Steps8(Row2(i))
  {
    hide Pick, Span;
    RowIsSpan(i, 0xa541927e, 0x4f6f520d, 0x9edea41a, 0x38513ec5);
    SpanSteps(i, 0xa541927e, 0x4f6f520d, 0x9edea41a, 0x38513ec5);
    RowIsSpan(i, 0xdd45aab8, 0xbf672381, 0x7b2231f3, 0xf64463e6);
  }

  lemma ColumnEdges3(i: bv32)
    requires i <= 0xf
    ensures Column3(i) == Steps8(Column2(i))
  {
    hide Pick, Span;
    RowIsSpan(i, 0x70a27d8a, 0xe144fb14, 0xc76580d9, 0x8b277743);
    SpanSteps(i, 0x70a27d8a, 0xe144fb14, 0xc76580d9, 0x8b277743);
    RowIsSpan(i, 0xe964b13d, 0xd725148b, 0xaba65fe7, 0x52a0c93f);
  }

  lemma EdgeSteps3(hi: bv32, lo: bv32)
    requires hi <= 0xf && lo <= 0xf
    ensures Row3(lo) == Steps(lo, 32) && Column3(hi) == Steps(hi << 4, 32)
  {
    hide Steps, Steps8, Pick;
    ColumnEdges0(hi); RowEdges0(lo);
    StepsByByte(lo, 32); StepsByByte(hi << 4, 32);
    ColumnEdges1(hi); RowEdges1(lo);
    StepsByByte(Row0(lo), 24); StepsByByte(Column0(hi), 24);
    ColumnEdges2(hi); RowEdges2(lo);
    StepsByByte(Row1(lo), 16); StepsByByte(Column1(hi), 16);
    ColumnEdges3(hi); RowEdges3(lo);
    StepsByByte(Row2(lo), 8); StepsByByte(Column2(hi), 8);
    NoSteps(Row3(lo)); NoSteps(Column3(hi));
  }

  lemma Table3IsSteps(c: bv32)
    requires c <= 0xff
    ensures Table3(c) == Steps(c, 32)
  {
    hide Xor, Pick, Steps, Steps8, Row3, Column3;
    var hi, lo := c >> 4, c & 0xf;
    Grid3(c);
    EdgeSteps3(hi, lo);
    StepsLinear(hi << 4, lo, 32);
    Nibbles(c);
  }
}
