/** util/coding.cc: variable-length and fixed-length integers and length-prefixed strings. */
module Coding {
  import opened Bytes

  const LIMIT32: nat := 0x1_0000_0000
  const LIMIT64: nat := 0x1_0000_0000_0000_0000

  /** What a decoder returns: failure, or a value and the input that is left. */
  datatype Got<+T> = Failed | Got(value: T, rest: Bytes)

  /** Seven bits a byte, least significant first, the top bit set on all but the last. */
  function Varint(v: nat): (r: Bytes)
    ensures |r| >= 1
  {
    if v < 128 then [v as byte] else [(v % 128 + 128) as byte] + Varint(v / 128)
  }

  /** At most `max` bytes of a varint, before reduction to the machine width. */
  function UnVarint(input: Bytes, max: nat): (r: Got<nat>)
    ensures r.Got? ==> |r.rest| < |input|
  {
    if max == 0 || input == [] then Failed
    else if input[0] < 128 then Got(input[0] as nat, input[1..])
    else
      match UnVarint(input[1..], max - 1)
      case Failed => Failed
      case Got(v, rest) => Got(input[0] as nat - 128 + 128 * v, rest)
  }

  function Reduced(r: Got<nat>, limit: nat): (t: Got<nat>)
    requires limit > 0
    ensures t.Got? ==> r.Got? && t.rest == r.rest && t.value < limit
  {
    match r
    case Failed => Failed
    case Got(v, rest) => Got(v % limit, rest)
  }

  function UnVarint32(input: Bytes): (r: Got<nat>)
    ensures r.Got? ==> |r.rest| < |input| && r.value < LIMIT32
  {
    Reduced(UnVarint(input, 5), LIMIT32)
  }

  function UnVarint64(input: Bytes): (r: Got<nat>)
    ensures r.Got? ==> |r.rest| < |input| && r.value < LIMIT64
  {
    Reduced(UnVarint(input, 10), LIMIT64)
  }

  function Power128(n: nat): (r: nat)
    ensures r >= 1
  {
    if n == 0 then 1 else 128 * Power128(n - 1)
  }

  /** A varint of at most `max` bytes decodes to what was encoded, whatever follows it. */
  lemma {:induction false} VarintRoundTrip(v: nat, rest: Bytes, max: nat)
    requires max >= 1 && v < Power128(max)
    ensures UnVarint(Varint(v) + rest, max) == Got(v, rest)
    ensures |Varint(v)| <= max
  {
    var input := Varint(v) + rest;
    if v >= 128 {
      VarintRoundTrip(v / 128, rest, max - 1);
      assert input[1..] == Varint(v / 128) + rest;
    } else {
      assert input[1..] == rest;
    }
  }

  lemma Powers()
    ensures Power128(1) == 0x80 && Power128(2) == 0x4000 && Power128(3) == 0x20_0000
    ensures Power128(4) == 0x1000_0000 && Power128(5) == 0x8_0000_0000 && Power128(10) == 0x40_0000_0000_0000_0000
  {
    assert Power128(0) == 1;
    assert Power128(1) == 128 * Power128(0);
    assert Power128(2) == 128 * Power128(1);
    assert Power128(3) == 128 * Power128(2);
    assert Power128(4) == 128 * Power128(3);
    assert Power128(5) == 128 * Power128(4);
    assert Power128(6) == 128 * Power128(5);
    assert Power128(7) == 128 * Power128(6);
    assert Power128(8) == 128 * Power128(7);
    assert Power128(9) == 128 * Power128(8);
    assert Power128(10) == 128 * Power128(9);
  }

  lemma Varint32RoundTrip(v: nat, rest: Bytes)
    requires v < LIMIT32
    ensures UnVarint32(Varint(v) + rest) == Got(v, rest) && |Varint(v)| <= 5
  {
    hide Power128, UnVarint, Varint;
    Powers();
    VarintRoundTrip(v, rest, 5);
  }

  lemma Varint64RoundTrip(v: nat, rest: Bytes)
    requires v < LIMIT64
    ensures UnVarint64(Varint(v) + rest) == Got(v, rest) && |Varint(v)| <= 10
  {
    hide Power128, UnVarint, Varint;
    Powers();
    VarintRoundTrip(v, rest, 10);
  }

  /** EncodeVarint32, unrolled as in the source; `v | 128` as a byte is `v % 128 + 128`. */
  method EncodeVarint32(v: nat) returns (buf: Bytes)
    requires v < LIMIT32
    ensures buf == Varint(v)
  {
    hide Varint;
    VarintStep(v, v / 0x80);
    VarintStep(v / 0x80, v / 0x4000);
    VarintStep(v / 0x4000, v / 0x20_0000);
    VarintStep(v / 0x20_0000, v / 0x1000_0000);
    VarintStep(v / 0x1000_0000, 0);
    if v < 0x80 {
      buf := [v as byte];
    } else if v < 0x4000 {
      buf := [(v % 128 + 128) as byte, (v / 0x80) as byte];
    } else if v < 0x20_0000 {
      buf := [(v % 128 + 128) as byte, (v / 0x80 % 128 + 128) as byte, (v / 0x4000) as byte];
    } else if v < 0x1000_0000 {
      buf := [(v % 128 + 128) as byte, (v / 0x80 % 128 + 128) as byte, (v / 0x4000 % 128 + 128) as byte,
              (v / 0x20_0000) as byte];
    } else {
      buf := [(v % 128 + 128) as byte, (v / 0x80 % 128 + 128) as byte, (v / 0x4000 % 128 + 128) as byte,
              (v / 0x20_0000 % 128 + 128) as byte, (v / 0x1000_0000) as byte];
    }
  }

  lemma VarintStep(v: nat, next: nat)
    requires next == v / 128
    ensures v < 128 ==> Varint(v) == [v as byte]
    ensures v >= 128 ==> Varint(v) == [(v % 128 + 128) as byte] + Varint(next)
  {
  }

  method EncodeVarint64(v: nat) returns (buf: Bytes)
    requires v < LIMIT64
    ensures buf == Varint(v)
  {
    var left := v;
    buf := [];
    while left >= 128
      invariant Varint(v) == buf + Varint(left)
    {
      buf := buf + [(left % 128 + 128) as byte];
      left := left / 128;
    }
    buf := buf + [left as byte];
  }

  /** GetVarint64Ptr: bits shifted beyond the 64th are lost. */
  method GetVarint64(input: Bytes) returns (r: Got<nat>)
    ensures r == UnVarint64(input)
  {
    r := GetVarintLoop(input, 10, true);
  }

  /** GetVarint32Ptr, with its fast path for one byte. */
  method GetVarint32(input: Bytes) returns (r: Got<nat>)
    ensures r == UnVarint32(input)
  {
    if input != [] && input[0] < 128 {
      return Got(input[0] as nat, input[1..]);
    }
    r := GetVarintLoop(input, 5, false);
  }

  function Limit(wide: bool): (r: nat)
    ensures r > 0
  {
    if wide then LIMIT64 else LIMIT32
  }

  /** The decoding loop both widths share; `power` is `1 << shift`. */
  method GetVarintLoop(input: Bytes, max: nat, wide: bool) returns (r: Got<nat>)
    ensures r == Reduced(UnVarint(input, max), Limit(wide))
  {
    hide UnVarint, Scaled, Limit;
    var result: nat, power: nat, p: nat := 0, 1, 0;
    ghost var seen: nat := 0;
    assert input[0..] == input;
    ShiftedNothing(UnVarint(input, max));
    while p < max && p < |input|
      invariant p <= |input| && p <= max
      invariant result == seen % Limit(wide)
      invariant UnVarint(input, max) == Shifted(UnVarint(input[p..], max - p), seen, power)
    {
      var b := input[p] as nat;
      UnVarintStep(input[p..], max - p, seen, power);
      ModAdd(seen, Scaled(b % 128, power), wide);
      p := p + 1;
      assert input[p - 1..][1..] == input[p..];
      result := (result + Scaled(b % 128, power)) % Limit(wide);
      seen := seen + Scaled(b % 128, power);
      if b < 128 {
        return Got(result, input[p..]);
      }
      power := power * 128;
    }
    UnVarintStops(input[p..], max - p);
    r := Failed;
  }

  /** The bits of `b`, shifted to their place. */
  function Scaled(b: nat, power: nat): nat {
    b * power
  }

  function Shifted(r: Got<nat>, seen: nat, power: nat): Got<nat> {
    match r
    case Failed => Failed
    case Got(v, rest) => Got(seen + Scaled(v, power), rest)
  }

  lemma ShiftedNothing(r: Got<nat>)
    ensures Shifted(r, 0, 1) == r
  {
  }

  lemma UnVarintStep(input: Bytes, max: nat, seen: nat, power: nat)
    requires max > 0 && input != []
    ensures var b := input[0] as nat;
            Shifted(UnVarint(input, max), seen, power) ==
            if b < 128 then Got(seen + Scaled(b % 128, power), input[1..])
            else Shifted(UnVarint(input[1..], max - 1), seen + Scaled(b % 128, power), power * 128)
  {
    hide Scaled;
    var b := input[0] as nat;
    if b >= 128 && UnVarint(input[1..], max - 1).Got? {
      ScaledSum(b - 128, UnVarint(input[1..], max - 1).value, power);
    }
  }

  lemma ScaledSum(a: nat, v: nat, power: nat)
    ensures Scaled(a + 128 * v, power) == Scaled(a, power) + Scaled(v, power * 128)
  {
  }

  lemma UnVarintStops(input: Bytes, max: nat)
    requires max == 0 || input == []
    ensures UnVarint(input, max) == Failed
  {
  }

  lemma ModAdd(a: nat, b: nat, wide: bool)
    ensures (a % Limit(wide) + b) % Limit(wide) == (a + b) % Limit(wide)
  {
    if wide {
      var q, t := a / LIMIT64, (a % LIMIT64 + b) % LIMIT64;
      var u := (a % LIMIT64 + b) / LIMIT64;
      Remainder64(a + b, q + u, t);
    } else {
      var q, t := a / LIMIT32, (a % LIMIT32 + b) % LIMIT32;
      var u := (a % LIMIT32 + b) / LIMIT32;
      Remainder32(a + b, q + u, t);
    }
  }

  lemma Remainder64(n: nat, q: nat, t: nat)
    requires n == LIMIT64 * q + t && t < LIMIT64
    ensures n % LIMIT64 == t
  {
  }

  lemma Remainder32(n: nat, q: nat, t: nat)
    requires n == LIMIT32 * q + t && t < LIMIT32
    ensures n % LIMIT32 == t
  {
  }

  /** PutLengthPrefixedSlice. */
  function Prefixed(s: Bytes): Bytes {
    Varint(|s|) + s
  }

  function UnPrefixed(input: Bytes): (r: Got<Bytes>)
    ensures r.Got? ==> |r.rest| < |input|
  {
    match UnVarint32(input)
    case Failed => Failed
    case Got(n, rest) => if n <= |rest| then Got(rest[..n], rest[n..]) else Failed
  }

  lemma PrefixedRoundTrip(s: Bytes, rest: Bytes)
    requires |s| < LIMIT32
    ensures UnPrefixed(Prefixed(s) + rest) == Got(s, rest)
  {
    hide Varint, UnVarint32;
    Varint32RoundTrip(|s|, s + rest);
    assert Prefixed(s) + rest == Varint(|s|) + (s + rest);
    assert (s + rest)[..|s|] == s && (s + rest)[|s|..] == rest;
  }

  /** The low `n` bytes of `v`, least significant first: EncodeFixed32 and EncodeFixed64. */
  function Fixed(v: nat, n: nat): (r: Bytes)
    ensures |r| == n
    decreases n
  {
    if n == 0 then [] else [(v % 256) as byte] + Fixed(v / 256, n - 1)
  }

  function UnFixed(data: Bytes): nat {
    if data == [] then 0 else data[0] as nat + 256 * UnFixed(data[1..])
  }

  function Power256(n: nat): (r: nat)
    ensures r >= 1
  {
    if n == 0 then 1 else 256 * Power256(n - 1)
  }

  lemma {:induction false} FixedRoundTrip(v: nat, n: nat)
    requires v < Power256(n)
    ensures UnFixed(Fixed(v, n)) == v
  {
    if n > 0 {
      FixedRoundTrip(v / 256, n - 1);
      assert Fixed(v, n)[1..] == Fixed(v / 256, n - 1);
    }
  }

  /** Bytes of one length that denote the same number are the same bytes. */
  lemma {:induction false} UnFixedInjective(a: Bytes, b: Bytes)
    requires |a| == |b| && UnFixed(a) == UnFixed(b)
    ensures a == b
  {
    if a != [] {
      assert a[0] == b[0] && UnFixed(a[1..]) == UnFixed(b[1..]);
      UnFixedInjective(a[1..], b[1..]);
      assert a == [a[0]] + a[1..] && b == [b[0]] + b[1..];
    }
  }

  lemma Power256Of4()
    ensures Power256(4) == LIMIT32
  {
    assert Power256(4) == 256 * 256 * 256 * 256 * Power256(0);
  }

  /** Four-byte integers one after the other. */
  function FixedList(ns: seq<nat>): (r: Bytes)
    ensures |r| == 4 * |ns|
  {
    if ns == [] then [] else FixedList(ns[..|ns| - 1]) + Fixed(ns[|ns| - 1], 4)
  }

  lemma {:induction false} FixedListAt(ns: seq<nat>, i: nat)
    requires i < |ns|
    ensures FixedList(ns)[4 * i..4 * i + 4] == Fixed(ns[i], 4)
  {
    hide Fixed;
    if i < |ns| - 1 {
      FixedListAt(ns[..|ns| - 1], i);
      assert FixedList(ns)[..4 * (|ns| - 1)] == FixedList(ns[..|ns| - 1]);
      assert FixedList(ns)[4 * i..4 * i + 4] == FixedList(ns)[..4 * (|ns| - 1)][4 * i..4 * i + 4];
    }
  }
}
