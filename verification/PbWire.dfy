/** nanopb's wire format: tags, varints as its decoder reads them, zig-zag numbers and the skipping of fields.
    A stream is what is left of it; Coding.UnVarint64 is what pb_decode_varint reads. */
module PbWire {
  import opened Wrappers
  import opened Bytes
  import opened Bits
  import opened Coding

  const WT_VARINT: nat := 0
  const WT_64BIT: nat := 1
  const WT_STRING: nat := 2
  const WT_32BIT: nat := 5

  // --- 32-bit varints, which tolerate a sign extension to 64 bits ---

  /** The values of uint_fast8_t where it has 8 bits. */
  const FAST8_VALUES: nat := 256

  /** `result | (uint32_t)low << bitpos`. */
  function OrShifted(result: nat, low: nat, bitpos: nat): (r: nat)
    ensures r < LIMIT32
  {
    Or(result, Scaled(low, Power2(bitpos))) % LIMIT32
  }

  /** The bytes of a varint after the first. The bit position is an uint_fast8_t and wraps. */
  function More32(s: Bytes, bitpos: nat, result: nat): (r: Got<nat>)
    requires result < LIMIT32
    ensures r.Got? ==> |r.rest| < |s| && r.value < LIMIT32
  {
    if s == [] then Failed
    else
      var b := s[0] as nat;
      if bitpos >= 32 && b % 128 != 0 && (result < 0x8000_0000 || b != if bitpos < 63 then 0xFF else 0x01) then Failed
      else
        var next := if bitpos >= 32 then result else OrShifted(result, b % 128, bitpos);
        if b >= 128 then More32(s[1..], (bitpos + 7) % FAST8_VALUES, next)
        else if bitpos == 28 && b / 16 % 8 != 0 then Failed
        else Got(next, s[1..])
  }

  function Un32(s: Bytes): (r: Got<nat>)
    ensures r.Got? ==> |r.rest| < |s| && r.value < LIMIT32
  {
    if s == [] then Failed
    else if s[0] < 128 then Got(s[0] as nat, s[1..])
    else More32(s[1..], 7, s[0] as nat - 128)
  }

  /** The low bits read, before one of the bytes at bit positions 7, 14, 21 and 28. */
  ghost predicate Partial(bitpos: nat, power: nat, result: nat) {
    || (bitpos == 7 && power == 0x80 > result)
    || (bitpos == 14 && power == 0x4000 > result)
    || (bitpos == 21 && power == 0x20_0000 > result)
    || (bitpos == 28 && power == 0x1000_0000 > result)
  }

  lemma {:induction false} More32RoundTrip(v: nat, rest: Bytes, bitpos: nat, power: nat, result: nat)
    requires Partial(bitpos, power, result) && result + Scaled(v, power) < LIMIT32
    ensures More32(Varint(v) + rest, bitpos, result) == Got(result + Scaled(v, power), rest)
    decreases v
  {
    hide Scaled, Varint, Partial, OrShifted, More32;
    var s := Varint(v) + rest;
    VarintStep(v, v / 128);
    Fits32(v, bitpos, power, result);
    LowPart(v, power);
    OrShiftedAdds(bitpos, power, result, v % 128);
    if v < 128 {
      More32Ends(v, rest, bitpos, result);
    } else {
      assert s == [(v % 128 + 128) as byte] + (Varint(v / 128) + rest);
      More32Goes(v % 128 + 128, Varint(v / 128) + rest, bitpos, result);
      LowBits(v, bitpos, power, result);
      More32RoundTrip(v / 128, rest, bitpos + 7, power * 128, result + Scaled(v % 128, power));
    }
  }

  lemma More32Ends(b: nat, s: Bytes, bitpos: nat, result: nat)
    requires b < 128 && bitpos < 32 && (bitpos == 28 ==> b < 16) && result < LIMIT32
    ensures More32([b as byte] + s, bitpos, result) == Got(OrShifted(result, b % 128, bitpos), s)
  {
    hide OrShifted;
    var t := [b as byte] + s;
    assert t[1..] == s;
  }

  lemma More32Goes(b: nat, s: Bytes, bitpos: nat, result: nat)
    requires 128 <= b < 256 && bitpos < 32 && result < LIMIT32
    ensures More32([b as byte] + s, bitpos, result) == More32(s, bitpos + 7, OrShifted(result, b % 128, bitpos))
  {
    hide OrShifted;
    var t := [b as byte] + s;
    assert t[1..] == s;
  }

  lemma LowPart(v: nat, power: nat)
    ensures Scaled(v % 128, power) <= Scaled(v, power)
  {
    assert v == v % 128 + 128 * (v / 128);
    ScaledSum(v % 128, v / 128, power);
  }

  lemma SmallPowers()
    ensures Power2(7) == 0x80 && Power2(14) == 0x4000 && Power2(21) == 0x20_0000 && Power2(28) == 0x1000_0000
  {
    assert Power2(7) == 128 * Power2(0);
    assert Power2(14) == 128 * Power2(7);
    assert Power2(21) == 128 * Power2(14);
    assert Power2(28) == 128 * Power2(21);
  }

  lemma OrShiftedAdds(bitpos: nat, power: nat, result: nat, low: nat)
    requires Partial(bitpos, power, result) && result + Scaled(low, power) < LIMIT32
    ensures OrShifted(result, low, bitpos) == result + Scaled(low, power)
  {
    hide Or, Power2;
    SmallPowers();
    OrIsSum(result, low, bitpos);
  }

  lemma Fits32(v: nat, bitpos: nat, power: nat, result: nat)
    requires Partial(bitpos, power, result) && result + Scaled(v, power) < LIMIT32
    ensures bitpos < 32 && (bitpos == 28 ==> v < 16) && (v >= 128 ==> bitpos < 28)
  {
  }

  lemma LowBits(v: nat, bitpos: nat, power: nat, result: nat)
    requires Partial(bitpos, power, result) && bitpos < 28
    requires result + Scaled(v, power) < LIMIT32
    ensures Partial(bitpos + 7, power * 128, result + Scaled(v % 128, power))
    ensures result + Scaled(v % 128, power) + Scaled(v / 128, power * 128) == result + Scaled(v, power)
  {
    hide Partial;
    var low, high := v % 128, v / 128;
    assert v == low + 128 * high;
    ScaledSum(low, high, power);
    NextPartial(low, bitpos, power, result);
  }

  lemma NextPartial(low: nat, bitpos: nat, power: nat, result: nat)
    requires Partial(bitpos, power, result) && bitpos < 28 && low < 128
    ensures Partial(bitpos + 7, power * 128, result + Scaled(low, power))
  {
  }

  lemma Un32RoundTrip(v: nat, rest: Bytes)
    requires v < LIMIT32
    ensures Un32(Varint(v) + rest) == Got(v, rest)
  {
    hide More32;
    var s := Varint(v) + rest;
    if v < 128 {
      assert s[1..] == rest;
    } else {
      assert s[1..] == Varint(v / 128) + rest;
      assert Scaled(v / 128, 128) == 128 * (v / 128);
      More32RoundTrip(v / 128, rest, 7, 128, v % 128);
    }
  }

  // --- Padding ---

  /** `n` bytes 0x80: no bits, and the varint goes on. */
  function Padding(n: nat): (r: Bytes)
    ensures |r| == n
  {
    seq(n, _ => 0x80)
  }

  lemma {:induction false} PaddingPasses(n: nat, last: Bytes, bitpos: nat, result: nat)
    requires bitpos < FAST8_VALUES && bitpos + 7 * n < FAST8_VALUES + 7 && result < LIMIT32
    ensures var after := if bitpos + 7 * n < FAST8_VALUES then bitpos + 7 * n else bitpos + 7 * n - FAST8_VALUES;
            More32(Padding(n) + last, bitpos, result) == More32(last, after, result)
    decreases n
  {
    hide More32;
    if n == 0 {
      assert Padding(0) + last == last;
    } else {
      assert Padding(n) + last == [0x80] + (Padding(n - 1) + last);
      OneMore(Padding(n - 1) + last, bitpos, result);
      PaddingPasses(n - 1, last, if bitpos + 7 < FAST8_VALUES then bitpos + 7 else bitpos + 7 - FAST8_VALUES, result);
    }
  }

  lemma OneMore(s: Bytes, bitpos: nat, result: nat)
    requires bitpos < FAST8_VALUES && result < LIMIT32
    ensures var after := if bitpos + 7 < FAST8_VALUES then bitpos + 7 else bitpos + 7 - FAST8_VALUES;
            More32([0x80] + s, bitpos, result) == More32(s, after, result)
  {
    hide OrShifted;
    var t := [0x80] + s;
    assert t[1..] == s;
    if bitpos < 32 {
      OrZero(result, bitpos);
    }
  }

  lemma OrZero(result: nat, bitpos: nat)
    requires result < LIMIT32
    ensures OrShifted(result, 0, bitpos) == result
  {
    hide Or, Power2;
    OrNothing(result);
  }

  /** A one behind five to thirty-six bytes of padding is out of range; behind thirty-seven the bit position has wrapped
      to 3, and the varint reads as 8. */
  lemma LongPaddingMisreads(n: nat)
    requires 5 <= n <= 37
    ensures Un32(Padding(n) + [1]) == if n < 37 then Failed else Got(8, [])
  {
    hide More32;
    var s := Padding(n) + [1];
    assert s[0] == 0x80 && s[1..] == Padding(n - 1) + [1];
    PaddingPasses(n - 1, [1], 7, 0);
    if n < 37 {
      OutOfRange(7 * n);
    } else {
      Misplaced();
    }
  }

  lemma OutOfRange(bitpos: nat)
    requires 32 <= bitpos
    ensures More32([1], bitpos, 0) == Failed
  {
  }

  lemma Misplaced()
    ensures More32([1], 3, 0) == Got(8, [])
  {
    hide Or;
    assert Power2(3) == 8 * Power2(0);
    OrNothing(8);
    assert OrShifted(0, 1, 3) == 8;
  }

  // --- Zig-zag and two's complement ---

  /** The bits of a 64-bit signed number, read as unsigned. */
  function Unsigned64(n: int): (u: nat)
    ensures u < LIMIT64
  {
    n % LIMIT64
  }

  predicate IsWidth(size: nat) {
    size == 1 || size == 2 || size == 4 || size == 8
  }

  /** The number of values of an integer of `size` bytes. */
  function Range(size: nat): int
    requires IsWidth(size)
  {
    if size == 1 then 0x100 else if size == 2 then 0x1_0000 else if size == 4 then LIMIT32 else LIMIT64
  }

  predicate InSigned(n: int, size: nat)
    requires IsWidth(size)
  {
    -Range(size) <= 2 * n < Range(size)
  }

  /** A cast to a signed integer of `size` bytes. */
  function Signed(n: int, size: nat): (r: int)
    requires IsWidth(size)
    ensures InSigned(r, size)
  {
    var u := if size == 1 then n % 0x100 else if size == 2 then n % 0x1_0000 else if size == 4 then n % LIMIT32
             else n % LIMIT64;
    if 2 * u < Range(size) then u else u - Range(size)
  }

  /** The cast changes a number exactly when it does not fit. */
  lemma SignedIsIdentity(n: int, size: nat)
    requires IsWidth(size)
    ensures Signed(n, size) == n <==> InSigned(n, size)
  {
    hide Signed, InSigned;
    if size == 1 {
      Cast8(n);
    } else if size == 2 {
      Cast16(n);
    } else if size == 4 {
      Cast32(n);
    } else {
      Cast64(n);
    }
  }

  lemma Cast8(n: int)
    ensures Signed(n, 1) == n <==> InSigned(n, 1)
  {
  }

  lemma Cast16(n: int)
    ensures Signed(n, 2) == n <==> InSigned(n, 2)
  {
  }

  lemma Cast32(n: int)
    ensures Signed(n, 4) == n <==> InSigned(n, 4)
  {
  }

  lemma Cast64(n: int)
    ensures Signed(n, 8) == n <==> InSigned(n, 8)
  {
  }

  /** Casting to 64 bits unsigned and back, by way of 32 bits for the narrow widths, restores a number. */
  lemma SignedRoundTrip(n: int, size: nat)
    requires IsWidth(size) && InSigned(n, size)
    ensures Signed(Unsigned64(n), if size == 8 then 8 else 4) == n && Signed(n, size) == n
  {
    SignedIsIdentity(n, size);
    if n < 0 {
      NegativeRoundTrip(n, size);
    } else {
      SignedIsIdentity(n, if size == 8 then 8 else 4);
      assert Unsigned64(n) == n;
    }
  }

  lemma NegativeRoundTrip(n: int, size: nat)
    requires IsWidth(size) && InSigned(n, size) && n < 0
    ensures Signed(Unsigned64(n), if size == 8 then 8 else 4) == n
  {
    Wraps(n, LIMIT64);
    if size == 8 {
      Remainder64(n + LIMIT64, 0, n + LIMIT64);
    } else {
      Remainder32(n + LIMIT64, 0xFFFF_FFFF, n + LIMIT32);
    }
  }

  lemma Wraps(n: int, limit: int)
    requires -limit <= n < 0
    ensures n % limit == n + limit
  {
    assert n == (-1) * limit + (n + limit);
  }

  function ZigZag(n: int): (u: nat)
  {
    if n < 0 then -2 * n - 1 else 2 * n
  }

  function UnZigZag(u: nat): int {
    if u % 2 == 1 then -(u / 2) - 1 else u / 2
  }

  lemma ZigZagRoundTrip(n: int)
    ensures UnZigZag(ZigZag(n)) == n
    ensures InSigned(n, 8) <==> ZigZag(n) < LIMIT64
  {
  }

  // --- Tags and skipping ---

  function TagBytes(wireType: nat, tag: nat): Bytes {
    Varint(8 * tag + wireType)
  }

  datatype TagRead = Eof | Bad | Tag(wireType: nat, tag: nat, rest: Bytes)

  /** pb_decode_tag: a zero byte ends a message. */
  function DecodeTag(s: Bytes): (r: TagRead)
    ensures r.Tag? ==> |r.rest| < |s|
  {
    if s == [] then Eof
    else
      match Un32(s)
      case Failed => Bad
      case Got(v, rest) => if v == 0 then Eof else Tag(v % 8, v / 8, rest)
  }

  /** A tag is read back exactly if it has at most 29 bits. */
  lemma TagRoundTrip(wireType: nat, tag: nat, rest: Bytes)
    requires wireType < 8 && 8 * tag + wireType < LIMIT32 && 8 * tag + wireType > 0
    ensures DecodeTag(TagBytes(wireType, tag) + rest) == Tag(wireType, tag, rest)
    ensures TagBytes(wireType, tag) != []
  {
    hide Un32, Varint;
    Un32RoundTrip(8 * tag + wireType, rest);
  }

  function SkipVarint(s: Bytes): (r: Option<Bytes>)
    ensures r.Some? ==> |r.value| <= |s|
  {
    if s == [] then None else if s[0] < 128 then Some(s[1..]) else SkipVarint(s[1..])
  }

  function Take(s: Bytes, n: nat): (r: Option<Bytes>)
    ensures r.Some? ==> |r.value| <= |s|
  {
    if n <= |s| then Some(s[n..]) else None
  }

  function SkipString(s: Bytes): (r: Option<Bytes>)
    ensures r.Some? ==> |r.value| <= |s|
  {
    match Un32(s)
    case Failed => None
    case Got(n, rest) => Take(rest, n)
  }

  /** pb_skip_field: what is left after the field. */
  function Skip(wireType: nat, s: Bytes): (r: Option<Bytes>)
    ensures r.Some? ==> |r.value| <= |s|
  {
    if wireType == WT_VARINT then SkipVarint(s)
    else if wireType == WT_64BIT then Take(s, 8)
    else if wireType == WT_STRING then SkipString(s)
    else if wireType == WT_32BIT then Take(s, 4)
    else None
  }

  /** What may follow a tag of this wire type: a varint of any length, 8 or 4 bytes, or a length and that many bytes. */
  ghost predicate Payload(wireType: nat, p: Bytes) {
    || (wireType == WT_VARINT && p != [] && p[|p| - 1] < 128 && forall i :: 0 <= i < |p| - 1 ==> p[i] >= 128)
    || (wireType == WT_64BIT && |p| == 8)
    || (wireType == WT_32BIT && |p| == 4)
    || (wireType == WT_STRING && exists body :: IsPrefixed(p, body))
  }

  ghost predicate IsPrefixed(p: Bytes, body: Bytes) {
    |body| < LIMIT32 && p == Prefixed(body)
  }

  lemma {:induction false} SkipVarintExactly(p: Bytes, rest: Bytes)
    requires Payload(WT_VARINT, p)
    ensures SkipVarint(p + rest) == Some(rest)
  {
    if |p| == 1 {
      assert (p + rest)[1..] == rest;
    } else {
      SkipVarintExactly(p[1..], rest);
      assert (p + rest)[1..] == p[1..] + rest;
    }
  }

  /** Skipping consumes exactly the field's own bytes. */
  lemma SkipExactly(wireType: nat, p: Bytes, rest: Bytes)
    requires Payload(wireType, p)
    ensures Skip(wireType, p + rest) == Some(rest)
  {
    hide Un32, SkipVarint, Varint;
    if wireType == WT_VARINT {
      SkipVarintExactly(p, rest);
    } else if wireType == WT_STRING {
      var body :| IsPrefixed(p, body);
      Un32RoundTrip(|body|, body + rest);
      assert p + rest == Varint(|body|) + (body + rest);
      assert (body + rest)[|body|..] == rest;
    } else {
      assert (p + rest)[|p|..] == rest;
    }
  }

  lemma {:induction false} VarintIsPayload(v: nat)
    ensures Payload(WT_VARINT, Varint(v))
  {
    if v >= 128 {
      VarintIsPayload(v / 128);
      var p, q := Varint(v), Varint(v / 128);
      assert forall i :: 0 < i < |p| ==> p[i] == q[i - 1];
    }
  }
}
