/** table/block_builder.cc and table/block.cc: building a block, and the iterator that reads it. */
module Blocks {
  import opened Bytes
  import opened Coding
  import opened BlockFormat
  import opened DbFormat

  // --- The whole block: entries, restart points, their number ---

  function RestartOffsets(l: Layout, n: nat): (r: seq<nat>)
    requires n <= |l.restarts| && |l.entries| == |l.shares| && forall j :: 0 <= j < n ==> l.restarts[j] <= |l.entries|
    ensures |r| == n && forall j :: 0 <= j < n ==> r[j] == Offset(l, l.restarts[j])
  {
    seq(n, j requires 0 <= j < n => Offset(l, l.restarts[j]))
  }

  lemma RestartsInRange(l: Layout)
    requires Sound(l)
    ensures forall j :: 0 <= j < |l.restarts| ==> l.restarts[j] <= |l.entries|
  {
  }

  function BlockBytes(l: Layout): Bytes
    requires Sound(l)
  {
    RestartsInRange(l);
    Data(l, |l.entries|) + FixedList(RestartOffsets(l, |l.restarts|)) + Fixed(|l.restarts|, 4)
  }

  // --- BlockBuilder ---

  lemma {:induction false} DataAgrees(l: Layout, m: Layout, n: nat)
    requires n <= |l.entries| == |l.shares| && n <= |m.entries| == |m.shares|
    requires l.entries[..n] == m.entries[..n] && l.shares[..n] == m.shares[..n]
    ensures Data(l, n) == Data(m, n)
  {
    hide EncodeEntry;
    if n > 0 {
      assert l.entries[..n - 1] == l.entries[..n][..n - 1] && m.entries[..n - 1] == m.entries[..n][..n - 1];
      assert l.shares[..n - 1] == l.shares[..n][..n - 1] && m.shares[..n - 1] == m.shares[..n][..n - 1];
      DataAgrees(l, m, n - 1);
      assert l.entries[n - 1] == l.entries[..n][n - 1] == m.entries[n - 1] &&
             l.shares[n - 1] == l.shares[..n][n - 1] == m.shares[n - 1];
    }
  }

  lemma EarlierData(es: seq<Pair>, e: Pair, interval: nat, i: nat)
    requires interval >= 1 && i <= |es|
    ensures Data(Built(es + [e], interval), i) == Data(Built(es, interval), i)
  {
    hide EncodeEntry, CommonPrefix, Counter, RestartsOf, SharesOf, Data;
    SharesStep(es, e, interval);
    var l, m := Built(es, interval), Built(es + [e], interval);
    assert m.entries[..i] == l.entries[..i] && m.shares[..i] == l.shares[..i];
    DataAgrees(l, m, i);
  }

  /** What one more entry adds to the bytes. */
  lemma DataGrows(es: seq<Pair>, e: Pair, interval: nat)
    requires interval >= 1
    ensures var shared := if Counter(|es|, interval) < interval then CommonPrefix(LastKey(es), e.key) else 0;
            Data(Built(es + [e], interval), |es| + 1) == Data(Built(es, interval), |es|) + EncodeEntry(shared, e)
  {
    hide EncodeEntry, CommonPrefix, Counter, RestartsOf, SharesOf, Data, LastKey;
    SharesStep(es, e, interval);
    EarlierData(es, e, interval, |es|);
    DataStep(Built(es + [e], interval), |es| + 1);
  }

  /** What one more entry adds to the restart points. */
  lemma RestartsGrow(es: seq<Pair>, e: Pair, interval: nat)
    requires interval >= 1
    ensures Sound(Built(es, interval)) && Sound(Built(es + [e], interval))
    ensures var l, m := Built(es, interval), Built(es + [e], interval);
            RestartOffsets(m, |m.restarts|) ==
            RestartOffsets(l, |l.restarts|) + if Counter(|es|, interval) < interval then [] else [Offset(l, |es|)]
  {
    hide EncodeEntry, CommonPrefix, Counter, RestartsOf, SharesOf, Data, Sound;
    BuiltIsSound(es, interval);
    BuiltIsSound(es + [e], interval);
    RestartsStep(|es|, interval);
    var l, m := Built(es, interval), Built(es + [e], interval);
    RestartsInRange(l);
    RestartsInRange(m);
    forall j | 0 <= j < |m.restarts| && m.restarts[j] <= |es|
      ensures Offset(m, m.restarts[j]) == Offset(l, m.restarts[j]) {
      EarlierData(es, e, interval, m.restarts[j]);
    }
    assert forall j :: 0 <= j < |l.restarts| ==> m.restarts[j] == l.restarts[j];
  }

  lemma DataStep(l: Layout, n: nat)
    requires 0 < n <= |l.entries| == |l.shares|
    ensures Data(l, n) == Data(l, n - 1) + EncodeEntry(l.shares[n - 1], l.entries[n - 1])
  {
  }

  class BlockBuilder {
    const interval: nat            // block_restart_interval
    var buffer: Bytes
    var restarts: seq<nat>
    var counter: nat
    var finished: bool
    var lastKey: Bytes
    ghost var entries: seq<Pair>

    ghost predicate Valid()
      reads this
    {
      && interval >= 1 && counter == Counter(|entries|, interval) && lastKey == LastKey(entries)
      && var l := Built(entries, interval);
         Sound(l) && buffer == Data(l, |entries|) && restarts == RestartOffsets(l, |l.restarts|)
    }

    constructor (interval: nat)
      requires interval >= 1
      ensures Valid() && entries == [] && !finished && this.interval == interval
    {
      this.interval := interval;
      buffer, restarts, counter, finished, lastKey, entries := [], [0], 0, false, [], [];
      BuiltIsSound([], interval);
      RestartsStep(0, interval);
    }

    method Reset()
      requires interval >= 1
      modifies this
      ensures Valid() && entries == [] && !finished
    {
      buffer := [];
      restarts := [0];   // first restart point is at offset 0
      counter := 0;
      finished := false;
      lastKey := [];
      entries := [];
      BuiltIsSound([], interval);
      RestartsStep(0, interval);
    }

    method Add(key: Bytes, value: Bytes)
      requires Valid() && !finished
      modifies this
      ensures Valid() && !finished && entries == old(entries) + [Pair(key, value)]
    {
      hide EncodeEntry, CommonPrefix, Counter, RestartsOf, SharesOf, Data, Sound;
      ghost var e := Pair(key, value);
      DataGrows(entries, e, interval);
      RestartsGrow(entries, e, interval);
      RestartsStep(|entries|, interval);
      CounterBound(|entries|, interval);
      var shared := 0;
      if counter < interval {
        shared := SharedWithLast(key);
      } else {
        restarts := restarts + [|buffer|];
        counter := 0;
      }
      EntryParts(shared, e);
      var delta := key[shared..];
      buffer := buffer + (Varint(shared) + Varint(|delta|) + Varint(|value|) + delta + value);
      lastKey := lastKey[..shared] + delta;
      assert lastKey == key by { SharedPart(old(lastKey), key, shared); }
      counter := counter + 1;
      entries := entries + [e];
    }

    /** The loop that counts the bytes shared with the previous key. */
    method SharedWithLast(key: Bytes) returns (shared: nat)
      ensures shared == CommonPrefix(lastKey, key)
    {
      hide CommonPrefix;
      shared := 0;
      var minLength := if |lastKey| < |key| then |lastKey| else |key|;
      assert lastKey[0..] == lastKey && key[0..] == key;
      while shared < minLength && lastKey[shared] == key[shared]
        invariant shared <= minLength
        invariant CommonPrefix(lastKey, key) == shared + CommonPrefix(lastKey[shared..], key[shared..])
      {
        PrefixStep(lastKey[shared..], key[shared..]);
        assert lastKey[shared..][1..] == lastKey[shared + 1..] && key[shared..][1..] == key[shared + 1..];
        shared := shared + 1;
      }
      PrefixStep(lastKey[shared..], key[shared..]);
    }

    /** Appends the restart points; returns the block. */
    method Finish() returns (block: Bytes)
      requires Valid()
      modifies `buffer, `finished
      ensures finished && Sound(Built(entries, interval)) && block == buffer == BlockBytes(Built(entries, interval))
      ensures |block| == |old(buffer)| + 4 * |restarts| + 4   // what CurrentSizeEstimate says
    {
      hide Sound, Data, Fixed, RestartsOf, SharesOf, Counter;
      ghost var data := buffer;
      for i := 0 to |restarts|
        invariant buffer == data + FixedList(restarts[..i])
        invariant restarts == old(restarts)
      {
        assert restarts[..i + 1][..i] == restarts[..i];
        buffer := buffer + Fixed(restarts[i], 4);
      }
      assert restarts[..|restarts|] == restarts;
      buffer := buffer + Fixed(|restarts|, 4);
      finished := true;
      block := buffer;
    }
  }

  lemma CounterBound(n: nat, interval: nat)
    requires interval >= 1
    ensures Counter(n, interval) <= interval
  {
  }

  lemma EntryParts(shared: nat, e: Pair)
    requires shared <= |e.key|
    ensures EncodeEntry(shared, e) ==
            Varint(shared) + Varint(|e.key[shared..]|) + Varint(|e.value|) + e.key[shared..] + e.value
  {
  }

  lemma SharedPart(a: Bytes, key: Bytes, shared: nat)
    requires shared == 0 || shared == CommonPrefix(a, key)
    ensures shared <= |a| && shared <= |key| && a[..shared] + key[shared..] == key
  {
    hide CommonPrefix;
    assert a[..shared] == key[..shared];
  }

  lemma PrefixStep(a: Bytes, b: Bytes)
    ensures CommonPrefix(a, b) == if a == [] || b == [] || a[0] != b[0] then 0 else CommonPrefix(a[1..], b[1..]) + 1
  {
  }

  // --- Block::Iter ---

  /** The three lengths before an entry's bytes. */
  datatype Lengths = Lengths(shared: nat, nonShared: nat, valueLength: nat)

  function ReadLengths(input: Bytes): Got<Lengths> {
    match UnVarint32(input)
    case Failed => Failed
    case Got(shared, r0) =>
      match UnVarint32(r0)
      case Failed => Failed
      case Got(nonShared, r1) =>
        match UnVarint32(r1)
        case Failed => Failed
        case Got(valueLength, r2) => Got(Lengths(shared, nonShared, valueLength), r2)
  }

  /** What must follow the lengths is there; the sum wraps around as 32-bit integers do. */
  function CheckLengths(r: Got<Lengths>): Got<Lengths> {
    if r.Got? && |r.rest| % LIMIT32 >= (r.value.nonShared + r.value.valueLength) % LIMIT32 then r else Failed
  }

  /** DecodeEntry: when all three lengths are single bytes, the fast path agrees with the varints. */
  method DecodeEntry(input: Bytes) returns (r: Got<Lengths>)
    ensures r == if |input| < 3 then Failed else CheckLengths(ReadLengths(input))
  {
    hide UnVarint32;
    if |input| < 3 {
      return Failed;
    }
    if input[0] < 128 && input[1] < 128 && input[2] < 128 {
      OneByteVarint(input);
      OneByteVarint(input[1..]);
      OneByteVarint(input[2..]);
      assert input[1..][1..] == input[2..] && input[2..][1..] == input[3..];
      r := Got(Lengths(input[0] as nat, input[1] as nat, input[2] as nat), input[3..]);
    } else {
      var shared := GetVarint32(input);
      if shared.Failed? { return Failed; }
      var nonShared := GetVarint32(shared.rest);
      if nonShared.Failed? { return Failed; }
      var valueLength := GetVarint32(nonShared.rest);
      if valueLength.Failed? { return Failed; }
      r := Got(Lengths(shared.value, nonShared.value, valueLength.value), valueLength.rest);
    }
    if |r.rest| % LIMIT32 < (r.value.nonShared + r.value.valueLength) % LIMIT32 {
      r := Failed;
    }
  }

  lemma OneByteVarint(input: Bytes)
    requires input != [] && input[0] < 128
    ensures UnVarint32(input) == Got(input[0] as nat, input[1..])
  {
  }

  lemma EntryReads(shared: nat, e: Pair, rest: Bytes)
    requires shared <= |e.key| < LIMIT32 && |e.value| < LIMIT32
    ensures ReadLengths(EncodeEntry(shared, e) + rest) ==
            Got(Lengths(shared, |e.key| - shared, |e.value|), e.key[shared..] + (e.value + rest))
    ensures IsSuffix(e.key[shared..] + (e.value + rest), EncodeEntry(shared, e) + rest)
  {
    hide Varint, UnVarint32, EncodeEntry, CommonPrefix;
    EntryParts(shared, e);
    var tail := e.key[shared..] + (e.value + rest);
    Varint32RoundTrip(|e.value|, tail);
    Varint32RoundTrip(|e.key| - shared, Varint(|e.value|) + tail);
    Varint32RoundTrip(shared, Varint(|e.key| - shared) + (Varint(|e.value|) + tail));
    FiveParts(Varint(shared), Varint(|e.key| - shared), Varint(|e.value|), e.key[shared..], e.value, rest);
    SuffixOf(Varint(shared), Varint(|e.key| - shared), Varint(|e.value|), tail);
  }

  lemma FiveParts(a: Bytes, b: Bytes, c: Bytes, d: Bytes, e: Bytes, rest: Bytes)
    ensures a + b + c + d + e + rest == a + (b + (c + (d + (e + rest))))
  {
  }

  lemma SuffixOf(a: Bytes, b: Bytes, c: Bytes, tail: Bytes)
    ensures IsSuffix(tail, a + (b + (c + tail)))
  {
  }

  predicate IsSuffix(a: Bytes, b: Bytes) {
    |a| <= |b| && b[|b| - |a|..] == a
  }

  /** What follows the lengths of entry `i`: the bytes it adds to the key, its value, the rest. */
  function EntryTail(l: Layout, i: nat): Bytes
    requires i < |l.entries| == |l.shares| && Offset(l, i + 1) <= Offset(l, |l.entries|)
  {
    Delta(l.entries[i].key, l.shares[i]) + (l.entries[i].value + Data(l, |l.entries|)[Offset(l, i + 1)..])
  }

  /** Entry `i` of a block, read where it starts. */
  lemma EntryDecodes(l: Layout, i: nat)
    requires Fits(l) && i < |l.entries|
    ensures Offset(l, i) < Offset(l, i + 1) <= Offset(l, |l.entries|)
    ensures var input := Data(l, |l.entries|)[Offset(l, i)..];
            var e := l.entries[i];
            && |input| >= 3 && l.shares[i] <= |e.key|
            && CheckLengths(ReadLengths(input)) == ReadLengths(input)
               == Got(Lengths(l.shares[i], |e.key| - l.shares[i], |e.value|), EntryTail(l, i))
            && IsSuffix(EntryTail(l, i), input)
  {
    hide EncodeEntry, Data, ReadLengths, Ascending;
    OffsetStep(l, i);
    var d, e := Data(l, |l.entries|), l.entries[i];
    var rest := d[Offset(l, i + 1)..];
    assert ShareOk(l.entries, i, l.shares[i]);
    assert d[Offset(l, i)..] == EncodeEntry(l.shares[i], e) + rest;
    EntryReads(l.shares[i], e, rest);
    EntryIsLonger(l.shares[i], e);
  }

  lemma EntryIsLonger(shared: nat, e: Pair)
    requires shared <= |e.key|
    ensures |EncodeEntry(shared, e)| >= |e.key| - shared + |e.value|
  {
    hide Varint;
    EntryParts(shared, e);
  }

  /** Sizes that 32-bit offsets and lengths can hold. */
  ghost predicate Fits(l: Layout)
    ensures Fits(l) ==> Sound(l)
  {
    && Sound(l) && Offset(l, |l.entries|) < LIMIT32 && |l.restarts| < LIMIT32
    && forall i :: 0 <= i < |l.entries| ==> |l.entries[i].key| < LIMIT32 && |l.entries[i].value| < LIMIT32
  }

  lemma RestartPointIs(l: Layout, j: nat)
    requires Fits(l) && j < |l.restarts|
    ensures l.restarts[j] <= |l.entries| && Offset(l, l.restarts[j]) < LIMIT32
    ensures var at := Offset(l, |l.entries|) + 4 * j;
            at + 4 <= |BlockBytes(l)| && UnFixed(BlockBytes(l)[at..at + 4]) == Offset(l, l.restarts[j])
  {
    hide Data, Fixed, UnFixed, Ascending;
    RestartsInRange(l);
    var offsets := RestartOffsets(l, |l.restarts|);
    var d := Data(l, |l.entries|);
    FixedListAt(offsets, j);
    assert BlockBytes(l)[|d| + 4 * j..|d| + 4 * j + 4] == FixedList(offsets)[4 * j..4 * j + 4];
    OffsetsAscend(l, |l.entries|, l.restarts[j]);
    Power256Of4();
    FixedRoundTrip(offsets[j], 4);
  }

  /** The header of the restart array, at the end of the block. */
  lemma RestartCountIs(l: Layout)
    requires Fits(l)
    ensures var b := BlockBytes(l);
            |b| == Offset(l, |l.entries|) + 4 * |l.restarts| + 4 && UnFixed(b[|b| - 4..]) == |l.restarts|
  {
    hide Data, Fixed, UnFixed, Ascending;
    Power256Of4();
    FixedRoundTrip(|l.restarts|, 4);
    assert BlockBytes(l)[|BlockBytes(l)| - 4..] == Fixed(|l.restarts|, 4);
  }

  /** Before a target, after it: what a strictly increasing list of keys gives for any comparator. */
  ghost predicate Monotone(es: seq<Pair>, less: (Bytes, Bytes) -> bool, target: Bytes) {
    forall i, j :: 0 <= i < j < |es| && less(es[j].key, target) ==> less(es[i].key, target)
  }

  /** The first entry at or after the target. */
  ghost predicate FirstAtOrAfter(es: seq<Pair>, less: (Bytes, Bytes) -> bool, target: Bytes, k: nat) {
    && k <= |es| && (forall i :: 0 <= i < k ==> less(es[i].key, target))
    && (k < |es| ==> !less(es[k].key, target))
  }

  class Iter {
    const data: Bytes              // the whole block
    const restarts: nat            // offset of the restart array
    const numRestarts: nat
    var current: nat               // offset of the current entry; at or past `restarts` if there is none
    var restartIndex: nat          // the restart block in which `current` falls
    var key: Bytes
    var valueStart: nat            // value_ is a slice of the block
    var valueLength: nat
    var corrupt: bool              // status_
    ghost const l: Layout
    ghost var pos: nat

    /** The block is one that a builder made. */
    ghost predicate Laid()
      ensures Laid() ==> Sound(l) && numRestarts == |l.restarts| && restarts == Offset(l, |l.entries|)
    {
      Fits(l) && data == BlockBytes(l) && restarts == Offset(l, |l.entries|) && numRestarts == |l.restarts|
    }

    /** The restart block recorded is not past entry `p`. */
    ghost predicate RestartBefore(p: nat)
      requires Laid()
      reads this
    {
      restartIndex < numRestarts && l.restarts[restartIndex] <= p
    }

    /** Ready to parse entry `q`: the previous value ends where it starts, and the key shares with it
        what its encoding says. */
    ghost predicate Ready(q: nat)
      requires Laid()
      reads this
    {
      && q <= |l.entries| && valueStart + valueLength == Offset(l, q) && RestartBefore(q) && !corrupt
      && (q < |l.entries| ==> l.shares[q] <= |key| && l.shares[q] <= |l.entries[q].key|
                              && key[..l.shares[q]] == l.entries[q].key[..l.shares[q]])
    }

    /** At entry `pos`, or nowhere if `pos` is the number of entries. */
    ghost predicate Valid()
      reads this
      ensures Valid() ==> Laid() && pos <= |l.entries|
    {
      && Laid() && pos <= |l.entries| && current == Offset(l, pos) && !corrupt
      && (pos < |l.entries| ==>
          && key == l.entries[pos].key && RestartBefore(pos)
          && valueLength == |l.entries[pos].value| && valueStart + valueLength == Offset(l, pos + 1)
          && valueStart + valueLength <= |data|
          && data[valueStart..valueStart + valueLength] == l.entries[pos].value)
    }

    constructor (data: Bytes, restarts: nat, numRestarts: nat, ghost l: Layout)
      requires Fits(l) && data == BlockBytes(l) && restarts == Offset(l, |l.entries|) && numRestarts == |l.restarts|
      ensures Valid() && this.l == l && pos == |l.entries|
    {
      this.data, this.restarts, this.numRestarts := data, restarts, numRestarts;
      current, restartIndex := restarts, numRestarts;
      key, valueStart, valueLength, corrupt := [], 0, 0, false;
      this.l := l;
      pos := |l.entries|;
    }

    function AtEntry(): bool
      reads this
    {
      current < restarts
    }

    lemma AtEntryIs()
      requires Valid()
      ensures AtEntry() <==> pos < |l.entries|
    {
      hide Data, Sound;
      OffsetsAscend(l, pos, |l.entries|);
    }

    function NextEntryOffset(): nat
      reads this
    {
      valueStart + valueLength
    }

    method GetRestartPoint(index: nat) returns (offset: nat)
      requires Laid() && index < numRestarts
      ensures l.restarts[index] <= |l.entries| && offset == Offset(l, l.restarts[index])
    {
      hide Data, UnFixed, BlockBytes, Sound;
      RestartPointIs(l, index);
      offset := UnFixed(data[restarts + 4 * index..restarts + 4 * index + 4]);
    }

    method SeekToRestartPoint(index: nat)
      requires Laid() && index < numRestarts && !corrupt
      modifies `key, `restartIndex, `valueStart, `valueLength
      ensures l.restarts[index] <= |l.entries| && Ready(l.restarts[index]) && restartIndex == index
    {
      hide Data, BlockBytes, Ascending;
      key := [];
      restartIndex := index;
      var offset := GetRestartPoint(index);
      valueStart, valueLength := offset, 0;
    }

    method ParseNextKey(ghost q: nat) returns (more: bool)
      requires Laid() && Ready(q)
      modifies `current, `restartIndex, `key, `valueStart, `valueLength, `corrupt, `pos
      ensures Valid() && pos == q && more == (q < |l.entries|)
      ensures more ==> NextEntryOffset() == Offset(l, q + 1)
    {
      hide Data, BlockBytes, Sound, ReadLengths, CheckLengths, EntryTail, Fits;
      OffsetsAscend(l, q, |l.entries|);
      pos := q;
      current := NextEntryOffset();
      if current >= restarts {
        current, restartIndex := restarts, numRestarts;
        return false;
      }
      DataInBlock(l);
      EntryDecodes(l, q);
      assert data[current..restarts] == Data(l, |l.entries|)[current..];
      var r := DecodeEntry(data[current..restarts]);
      if r.Failed? || |key| < r.value.shared {
        assert false;   // CorruptionError: not in a block that a builder made
      }
      var p := restarts - |r.rest|;
      TailBytes(l, q, p);
      KeyRebuilt(key, l.entries[q].key, r.value.shared);
      key := key[..r.value.shared] + data[p..p + r.value.nonShared];
      valueStart, valueLength := p + r.value.nonShared, r.value.valueLength;
      AdvanceRestartIndex(q);
      more := true;
    }

    method AdvanceRestartIndex(ghost q: nat)
      requires Laid() && RestartBefore(q) && q < |l.entries| && current == Offset(l, q)
      modifies `restartIndex
      ensures RestartBefore(q)
    {
      hide Data, BlockBytes, Sound;
      while restartIndex + 1 < numRestarts
        invariant RestartBefore(q)
        decreases numRestarts - restartIndex
      {
        var next := GetRestartPoint(restartIndex + 1);
        if next >= current { break; }
        OffsetsAscend(l, l.restarts[restartIndex + 1], q);
        restartIndex := restartIndex + 1;
      }
    }

    method Next()
      requires Valid() && AtEntry()
      modifies `current, `restartIndex, `key, `valueStart, `valueLength, `corrupt, `pos
      ensures Valid() && old(pos) < |l.entries| && pos == old(pos) + 1
    {
      hide Data, BlockBytes, Ascending;
      AtEntryIs();
      NextShares(l, pos);
      var more := ParseNextKey(pos + 1);
    }

    /** Back to a restart point before the current entry, then forward to the entry that ends where it starts. */
    method Prev()
      requires Valid() && AtEntry()
      modifies `current, `restartIndex, `key, `valueStart, `valueLength, `corrupt, `pos
      ensures Valid() && pos == if old(pos) == 0 then |l.entries| else old(pos) - 1
    {
      hide Data, BlockBytes, Sound;
      AtEntryIs();
      var original := current;
      ghost var p := pos;
      while true
        invariant Laid() && RestartBefore(p) && !corrupt && current == original == Offset(l, p) && pos == p
        decreases restartIndex
      {
        var point := GetRestartPoint(restartIndex);
        OffsetsAscend(l, l.restarts[restartIndex], p);
        if point < original { break; }
        if restartIndex == 0 {
          FirstRestart(l);
          current, restartIndex := restarts, numRestarts;
          pos := |l.entries|;
          return;
        }
        RestartsAreOrdered(l, restartIndex);
        restartIndex := restartIndex - 1;
      }
      SeekToRestartPoint(restartIndex);
      ghost var q := l.restarts[restartIndex];
      while true
        invariant Laid() && Ready(q) && q < p && original == Offset(l, p)
        decreases p - q
      {
        var more := ParseNextKey(q);
        OffsetsAscend(l, q + 1, p);
        if !(more && NextEntryOffset() < original) { break; }
        NextShares(l, q);
        q := q + 1;
      }
    }

    method SeekToFirst()
      requires Valid() && numRestarts > 0
      modifies `current, `restartIndex, `key, `valueStart, `valueLength, `corrupt, `pos
      ensures Valid() && pos == 0
    {
      hide Data, BlockBytes, Sound;
      FirstRestart(l);
      SeekToRestartPoint(0);
      var more := ParseNextKey(0);
    }

    method SeekToLast()
      requires Valid() && numRestarts > 0
      modifies `current, `restartIndex, `key, `valueStart, `valueLength, `corrupt, `pos
      ensures Valid() && pos == if |l.entries| == 0 then 0 else |l.entries| - 1
    {
      hide Data, BlockBytes, Sound;
      SeekToRestartPoint(numRestarts - 1);
      ghost var q := l.restarts[numRestarts - 1];
      LastRestartInside(l, numRestarts - 1);
      while true
        invariant Laid() && Ready(q) && (q < |l.entries| || |l.entries| == 0)
        decreases |l.entries| - q
      {
        var more := ParseNextKey(q);
        if q < |l.entries| {
          OffsetsAscend(l, q + 1, |l.entries|);
        }
        if !(more && NextEntryOffset() < restarts) { break; }
        NextShares(l, q);
        q := q + 1;
      }
    }

    /** Binary search over restart points, then a scan: the first entry at or after the target. */
    method Seek(target: Bytes, less: (Bytes, Bytes) -> bool)
      requires Valid() && numRestarts > 0 && Monotone(l.entries, less, target)
      modifies `current, `restartIndex, `key, `valueStart, `valueLength, `corrupt, `pos
      ensures Valid() && FirstAtOrAfter(l.entries, less, target, pos)
    {
      hide Data, BlockBytes, Sound, ReadLengths, CheckLengths;
      var left: nat, right: nat := 0, numRestarts - 1;
      FirstRestart(l);
      while left < right
        invariant Laid() && !corrupt
        invariant left <= right < numRestarts && numRestarts == |l.restarts| && l.restarts[left] <= |l.entries|
        invariant forall i :: 0 <= i < l.restarts[left] ==> less(l.entries[i].key, target)
        decreases right - left
      {
        var mid: nat := (left + right + 1) / 2;
        LastRestartInside(l, mid);
        RestartIsPositive(l, mid);
        var midKey := RestartKey(mid);
        if less(midKey, target) {
          left := mid;
        } else {
          right := mid - 1;
        }
      }
      SeekToRestartPoint(left);
      ghost var q := l.restarts[left];
      while true
        invariant Laid() && Ready(q) && q <= |l.entries|
        invariant forall i :: 0 <= i < q ==> less(l.entries[i].key, target)
        decreases |l.entries| - q
      {
        var more := ParseNextKey(q);
        if !more || !less(key, target) { return; }
        NextShares(l, q);
        q := q + 1;
      }
    }

    /** The whole key at a restart point. */
    method RestartKey(mid: nat) returns (midKey: Bytes)
      requires Laid() && mid < numRestarts && l.restarts[mid] < |l.entries|
      ensures midKey == l.entries[l.restarts[mid]].key
    {
      hide Data, BlockBytes, ReadLengths, CheckLengths, EntryTail, Ascending;
      ghost var q := l.restarts[mid];
      var regionOffset := GetRestartPoint(mid);
      DataInBlock(l);
      EntryDecodes(l, q);
      assert data[regionOffset..restarts] == Data(l, |l.entries|)[regionOffset..];
      var r := DecodeEntry(data[regionOffset..restarts]);
      var p := restarts - |r.rest|;
      TailBytes(l, q, p);
      midKey := data[p..p + r.value.nonShared];
      assert midKey == l.entries[q].key[0..];
    }
  }

  lemma KeyRebuilt(before: Bytes, key: Bytes, shared: nat)
    requires shared <= |before| && shared <= |key| && before[..shared] == key[..shared]
    ensures before[..shared] + key[shared..] == key
  {
  }

  lemma FirstRestart(l: Layout)
    requires Sound(l)
    ensures |l.restarts| > 0 && l.restarts[0] == 0 && Offset(l, 0) == 0
  {
    hide Ascending;
  }

  lemma RestartsAreOrdered(l: Layout, j: nat)
    requires Sound(l) && 0 < j < |l.restarts|
    ensures l.restarts[j - 1] < l.restarts[j]
  {
  }

  lemma LastRestartInside(l: Layout, j: nat)
    requires Sound(l) && j < |l.restarts|
    ensures l.restarts[j] < |l.entries| || (j == 0 && l.restarts[j] == 0)
  {
    hide Ascending;
  }

  lemma RestartIsPositive(l: Layout, j: nat)
    requires Sound(l) && 0 < j < |l.restarts|
    ensures l.restarts[j] > 0
  {
  }

  lemma NextShares(l: Layout, p: nat)
    requires Sound(l) && p < |l.entries|
    ensures p + 1 < |l.entries| ==>
            && l.shares[p + 1] <= |l.entries[p].key| && l.shares[p + 1] <= |l.entries[p + 1].key|
            && l.entries[p].key[..l.shares[p + 1]] == l.entries[p + 1].key[..l.shares[p + 1]]
  {
    hide Ascending;
    if p + 1 < |l.entries| {
      assert ShareOk(l.entries, p + 1, l.shares[p + 1]);
    }
  }

  /** Where the bytes after the lengths lie in the block. */
  lemma TailBytes(l: Layout, q: nat, p: nat)
    requires Fits(l) && q < |l.entries| && Offset(l, q + 1) <= Offset(l, |l.entries|)
    requires l.shares[q] <= |l.entries[q].key|
    requires Offset(l, q) <= Offset(l, |l.entries|) && IsSuffix(EntryTail(l, q), Data(l, |l.entries|)[Offset(l, q)..])
    requires p == Offset(l, |l.entries|) - |EntryTail(l, q)|
    ensures var k := |l.entries[q].key| - l.shares[q];
            var v := |l.entries[q].value|;
            && p + k + v == Offset(l, q + 1) && p + k + v <= |BlockBytes(l)|
            && BlockBytes(l)[p..p + k] == l.entries[q].key[l.shares[q]..]
            && BlockBytes(l)[p + k..p + k + v] == l.entries[q].value
  {
    hide Data, BlockBytes, Fits, EntryTail;
    DataInBlock(l);
    var b, d := BlockBytes(l), Data(l, |l.entries|);
    var k, v := |l.entries[q].key| - l.shares[q], |l.entries[q].value|;
    var tail := EntryTail(l, q);
    assert d[p..] == tail by {
      assert d[Offset(l, q)..][|d| - Offset(l, q) - |tail|..] == tail;
    }
    TailParts(l, q);
    Slices(b, d, tail, p, k);
    Slices(b, d, tail, p, k + v);
    assert b[p + k..p + k + v] == b[p..p + k + v][k..];
  }

  lemma TailParts(l: Layout, q: nat)
    requires q < |l.entries| == |l.shares| && Offset(l, q + 1) <= Offset(l, |l.entries|)
    requires l.shares[q] <= |l.entries[q].key|
    ensures var k := |l.entries[q].key| - l.shares[q];
            var v := |l.entries[q].value|;
            && |EntryTail(l, q)| == k + v + Offset(l, |l.entries|) - Offset(l, q + 1)
            && EntryTail(l, q)[..k] == l.entries[q].key[l.shares[q]..]
            && EntryTail(l, q)[..k + v][k..] == l.entries[q].value
  {
    hide Data;
  }

  lemma Slices(b: Bytes, d: Bytes, tail: Bytes, p: nat, n: nat)
    requires |d| <= |b| && d == b[..|d|] && p <= |d| && d[p..] == tail && n <= |tail|
    ensures b[p..p + n] == tail[..n]
  {
    forall i | 0 <= i < n ensures b[p..p + n][i] == tail[..n][i] {
      assert b[p + i] == b[..|d|][p + i] == d[p..][i];
    }
  }

  lemma DataInBlock(l: Layout)
    requires Sound(l)
    ensures Offset(l, |l.entries|) <= |BlockBytes(l)| && BlockBytes(l)[..Offset(l, |l.entries|)] == Data(l, |l.entries|)
  {
    hide Data, Fixed, FixedList, Sound;
  }

  // --- Opening a block ---

  /** What the Block constructor and NewIterator make of a block's bytes. */
  datatype Opened = BadContents | NoRestarts | Opened(restartOffset: nat, numRestarts: nat)

  method OpenBlock(contents: Bytes) returns (r: Opened)
    ensures |contents| < 4 ==> r == BadContents
    ensures |contents| >= 4 ==>
            var n := UnFixed(contents[|contents| - 4..]);
            r == if n > (|contents| - 4) / 4 then BadContents
                 else if n == 0 then NoRestarts
                 else Opened(|contents| - (1 + n) * 4, n)
  {
    hide UnFixed;
    var size := |contents|;
    var restartOffset := 0;
    if size < 4 {
      size := 0;   // error marker
    } else {
      var maxRestartsAllowed := (size - 4) / 4;
      if UnFixed(contents[size - 4..]) > maxRestartsAllowed {
        size := 0;
      } else {
        restartOffset := size - (1 + UnFixed(contents[size - 4..])) * 4;
      }
    }
    if size < 4 {
      return BadContents;
    }
    var numRestarts := UnFixed(contents[size - 4..]);
    if numRestarts == 0 {
      return NoRestarts;
    }
    r := Opened(restartOffset, numRestarts);
  }

  /** A block that a builder made opens, and its iterator stands nowhere. */
  method NewIterator(contents: Bytes, ghost l: Layout) returns (iter: Iter)
    requires Fits(l) && contents == BlockBytes(l)
    ensures fresh(iter) && iter.Valid() && iter.l == l && iter.pos == |l.entries|
  {
    hide BlockBytes, UnFixed, Data, Sound;
    RestartCountIs(l);
    var r := OpenBlock(contents);
    iter := new Iter(contents, r.restartOffset, r.numRestarts, l);
  }

  /** Iterating over a block yields exactly the entries it was built from, in order. */
  method ReadAll(contents: Bytes, ghost l: Layout) returns (entries: seq<Pair>)
    requires Fits(l) && contents == BlockBytes(l)
    ensures entries == l.entries
  {
    hide BlockBytes, Data, Sound, UnFixed;
    var iter := NewIterator(contents, l);
    iter.SeekToFirst();
    entries := [];
    iter.AtEntryIs();
    while iter.AtEntry()
      invariant iter.Valid() && fresh(iter) && iter.l == l && iter.pos <= |l.entries|
      invariant entries == l.entries[..iter.pos]
      invariant iter.AtEntry() <==> iter.pos < |l.entries|
      decreases |l.entries| - iter.pos
    {
      entries := entries + [Pair(iter.key, iter.data[iter.valueStart..iter.valueStart + iter.valueLength])];
      iter.Next();
      iter.AtEntryIs();
    }
  }

  /** Build, finish, read back. */
  method RoundTrip(entries: seq<Pair>, interval: nat) returns (read: seq<Pair>)
    requires interval >= 1 && Fits(Built(entries, interval))
    ensures read == entries
  {
    hide BlockBytes, Data, Sound, Counter, RestartsOf, SharesOf, Fits;
    var builder := new BlockBuilder(interval);
    for i := 0 to |entries|
      invariant builder.Valid() && fresh(builder) && !builder.finished && builder.entries == entries[..i]
      invariant builder.interval == interval
    {
      builder.Add(entries[i].key, entries[i].value);
    }
    assert entries[..|entries|] == entries;
    var block := builder.Finish();
    read := ReadAll(block, Built(entries, interval));
  }

  // --- Keys in order ---

  /** Internal keys, strictly increasing. */
  ghost predicate KeysAscend(es: seq<Pair>) {
    && (forall i :: 0 <= i < |es| ==> |es[i].key| >= 8)
    && (forall i, j :: 0 <= i < j < |es| ==> InternalLess(es[i].key, es[j].key))
  }

  /** A block of strictly increasing internal keys may be searched for any internal key. */
  lemma AscendingKeysAreMonotone(es: seq<Pair>, target: Bytes)
    requires KeysAscend(es) && |target| >= 8
    ensures Monotone(es, KeyLess, target)
  {
    hide InternalLess;
    forall i, j | 0 <= i < j < |es| && KeyLess(es[j].key, target) ensures KeyLess(es[i].key, target) {
      InternalLessIsTransitive(es[i].key, es[j].key, target);
    }
  }
}
