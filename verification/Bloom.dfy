/** util/bloom.cc: a filter that never misses a key it was made of. The hash function is a parameter. */
module Bloom {
  import opened Bytes
  import opened Bits

  const WORD: nat := 0x1_0000_0000

  // --- Bits of a byte string ---

  lemma {:induction false} WithBitFits(n: nat, j: nat, w: nat)
    requires n < Power2(w) && j < w
    ensures WithBit(n, j) < Power2(w)
  {
    hide Power2, WithBit;
    PowerStep(w);
    WithBitStep(n, j);
    if j > 0 {
      HalfFits(n, Power2(w - 1));
      WithBitFits(n / 2, j - 1, w - 1);
      DoubleFits(n, WithBit(n / 2, j - 1), Power2(w - 1));
    } else {
      EvenFits(n, Power2(w - 1));
    }
  }

  lemma WithBitStep(n: nat, j: nat)
    ensures j == 0 ==> WithBit(n, j) == if n % 2 == 1 then n else n + 1
    ensures j > 0 ==> WithBit(n, j) == n % 2 + 2 * WithBit(n / 2, j - 1)
  {
  }

  lemma DoubleFits(n: nat, a: nat, p: nat)
    requires a < p
    ensures n % 2 + 2 * a < 2 * p
  {
  }

  lemma HalfFits(n: nat, p: nat)
    requires n < 2 * p
    ensures n / 2 < p
  {
  }

  lemma EvenFits(n: nat, p: nat)
    requires n < 2 * p
    ensures n % 2 == 0 ==> n + 1 < 2 * p
  {
  }

  function SetBit(b: byte, j: nat): byte
    requires j < 8
  {
    BytePower();
    WithBitFits(b as nat, j, 8);
    WithBit(b as nat, j) as byte
  }

  lemma BytePower()
    ensures Power2(8) == 256
  {
    assert Power2(4) == 16 * Power2(0);
    assert Power2(8) == 16 * Power2(4);
  }

  predicate BitAt(data: Bytes, p: nat)
    requires p / 8 < |data|
  {
    Bit(data[p / 8] as nat, p % 8)
  }

  lemma SetOne(data: Bytes, p: nat, q: nat)
    requires p / 8 < |data| && q / 8 < |data|
    ensures BitAt(data[p / 8 := SetBit(data[p / 8], p % 8)], q) <==> BitAt(data, q) || q == p
  {
    hide Bit, WithBit;
    if p / 8 == q / 8 {
      WithBitBits(data[p / 8] as nat, p % 8, q % 8);
    }
  }

  // --- Probes ---

  /** A 32-bit word rotated right by 17 bits. */
  function Delta(h: nat): nat {
    (h / 0x2_0000 + h * 0x8000) % WORD
  }

  /** The `j`-th of the double-hashed values: all 32-bit arithmetic wraps around. */
  function Probe(h: nat, j: nat): nat {
    if j == 0 then h % WORD else (Probe(h, j - 1) + Delta(h)) % WORD
  }

  lemma ProbeSteps(h: nat)
    ensures Probe(h, 0) == h % WORD
    ensures forall j: nat :: Probe(h, j + 1) == (Probe(h, j) + Delta(h)) % WORD
  {
  }

  /** All `k` probes of a key find their bits set. */
  predicate AllSet(data: Bytes, bits: nat, h: nat, k: nat)
    requires 0 < bits <= 8 * |data|
  {
    forall j :: 0 <= j < k ==> BitAt(data, Probe(h, j) % bits)
  }

  predicate MayMatch(key: Bytes, filter: Bytes, hash: Bytes -> nat) {
    if |filter| < 2 then false
    else if filter[|filter| - 1] > 30 then true
    else AllSet(filter[..|filter| - 1], 8 * (|filter| - 1), hash(key), filter[|filter| - 1] as nat)
  }

  /** KeyMayMatch: probes until one finds its bit clear. */
  method KeyMayMatch(key: Bytes, filter: Bytes, hash: Bytes -> nat) returns (may: bool)
    ensures may == MayMatch(key, filter, hash)
  {
    hide BitAt, Delta, Probe;
    var len := |filter|;
    if len < 2 {
      return false;
    }
    var bitArray := filter[..len - 1];
    var bits := (len - 1) * 8;
    var k := filter[len - 1];
    if k > 30 {
      return true;
    }
    var h := hash(key) % WORD;
    var delta := Delta(hash(key));
    ProbeSteps(hash(key));
    for j := 0 to k as nat
      invariant h == Probe(hash(key), j)
      invariant forall i :: 0 <= i < j ==> BitAt(bitArray, Probe(hash(key), i) % bits)
    {
      var bitpos := h % bits;
      if !BitAt(bitArray, bitpos) {
        return false;
      }
      h := (h + delta) % WORD;
    }
    may := true;
  }

  /** Position `p` is probed for one of the first `n` keys. */
  ghost predicate Probed(keys: seq<Bytes>, n: nat, bits: nat, k: nat, hash: Bytes -> nat, p: nat)
    requires bits > 0 && n <= |keys|
  {
    exists i, j :: 0 <= i < n && 0 <= j < k && p == Probe(hash(keys[i]), j) % bits
  }

  function FilterBits(n: nat, bitsPerKey: nat): nat {
    var bits := n * bitsPerKey;
    if bits < 64 then 64 else bits
  }

  /** CreateFilter: appends the bit array and the number of probes. Exactly the probed bits are set. */
  method CreateFilter(keys: seq<Bytes>, bitsPerKey: nat, k: nat, hash: Bytes -> nat, dst: Bytes) returns (r: Bytes)
    requires 1 <= k <= 30
    ensures |r| >= |dst| + 9 && r[..|dst|] == dst && r[|r| - 1] == k as byte
    ensures var filter := r[|dst|..];
            var bits := 8 * (|filter| - 1);
            && bits >= FilterBits(|keys|, bitsPerKey)
            && forall p :: 0 <= p < bits ==>
               (BitAt(filter[..|filter| - 1], p) <==> Probed(keys, |keys|, bits, k, hash, p))
  {
    hide Bit, Delta, SetBit, Probe, FilterBits;
    var bits := FilterBits(|keys|, bitsPerKey);
    FilterIsLong(|keys|, bitsPerKey);
    var bytes := (bits + 7) / 8;
    bits := bytes * 8;
    var bitArray: Bytes := seq(bytes, i => 0);
    forall p | 0 <= p < bits ensures !BitAt(bitArray, p) {
      NoBits(p % 8);
    }
    for i := 0 to |keys|
      invariant |bitArray| == bytes
      invariant forall p :: 0 <= p < bits ==> (BitAt(bitArray, p) <==> Probed(keys, i, bits, k, hash, p))
    {
      bitArray := AddKey(bitArray, bits, keys, i, k, hash);
    }
    r := dst + bitArray + [k as byte];
    assert r[|dst|..][..bytes] == bitArray;
  }

  lemma FilterIsLong(n: nat, bitsPerKey: nat)
    ensures FilterBits(n, bitsPerKey) >= 64
  {
  }

  lemma {:induction false} NoBits(j: nat)
    ensures !Bit(0, j)
  {
    if j > 0 {
      NoBits(j - 1);
    }
  }

  /** The inner loop: the probes of one key. */
  method AddKey(before: Bytes, bits: nat, keys: seq<Bytes>, i: nat, k: nat, hash: Bytes -> nat)
    returns (bitArray: Bytes)
    requires i < |keys| && bits == 8 * |before| > 0
    requires forall p :: 0 <= p < bits ==> (BitAt(before, p) <==> Probed(keys, i, bits, k, hash, p))
    ensures |bitArray| == |before|
    ensures forall p :: 0 <= p < bits ==> (BitAt(bitArray, p) <==> Probed(keys, i + 1, bits, k, hash, p))
  {
    hide Bit, Delta, SetBit, BitAt;
    bitArray := before;
    var h := hash(keys[i]) % WORD;
    var delta := Delta(hash(keys[i]));
    ProbeStep(hash(keys[i]), 0);
    for j := 0 to k
      invariant |bitArray| == |before| && h == Probe(hash(keys[i]), j)
      invariant forall p :: 0 <= p < bits ==>
        (BitAt(bitArray, p) <==> BitAt(before, p) || exists m :: 0 <= m < j && p == Probe(hash(keys[i]), m) % bits)
    {
      hide Probe;
      var bitpos := h % bits;
      ghost var was := bitArray;
      bitArray := bitArray[bitpos / 8 := SetBit(bitArray[bitpos / 8], bitpos % 8)];
      forall p | 0 <= p < bits ensures BitAt(bitArray, p) <==> BitAt(was, p) || p == bitpos {
        SetOne(was, bitpos, p);
      }
      ProbeStep(hash(keys[i]), j);
      h := (h + delta) % WORD;
    }
  }

  lemma ProbeStep(h: nat, j: nat)
    ensures Probe(h, j + 1) == (Probe(h, j) + Delta(h)) % WORD
    ensures Probe(h, 0) == h % WORD
  {
  }

  /** No false negatives: a filter made of some keys matches each of them. */
  lemma FilterMatches(keys: seq<Bytes>, k: nat, hash: Bytes -> nat, filter: Bytes, i: nat)
    requires 1 <= k <= 30 && |filter| >= 9 && filter[|filter| - 1] == k as byte && i < |keys|
    requires var bits := 8 * (|filter| - 1);
             forall p :: 0 <= p < bits ==>
               (BitAt(filter[..|filter| - 1], p) <==> Probed(keys, |keys|, bits, k, hash, p))
    ensures MayMatch(keys[i], filter, hash)
  {
    hide Bit, Delta, BitAt, Probe;
    var bits := 8 * (|filter| - 1);
    forall j | 0 <= j < k ensures BitAt(filter[..|filter| - 1], Probe(hash(keys[i]), j) % bits) {
      assert Probed(keys, |keys|, bits, k, hash, Probe(hash(keys[i]), j) % bits);
    }
  }
}
