/** table/filter_block.cc: one filter for every two kilobytes of file offset. */
module FilterBlocks {
  import opened Bytes
  import opened Coding
  import opened Bloom

  const FILTER_BASE_LG: byte := 11
  const FILTER_BASE: nat := 2048

  /** The bytes from one offset to another, empty if they do not make sense. */
  function Piece(data: Bytes, from: nat, to: nat): Bytes {
    if from <= to <= |data| then data[from..to] else []
  }

  /** A filter, or no bytes at all where there were no keys, that matches each of the keys. */
  ghost predicate Covers(filter: Bytes, keys: seq<Bytes>, hash: Bytes -> nat) {
    forall key :: key in keys ==> MayMatch(key, filter, hash)
  }

  /** The offset where filter `i` ends: where the next one starts, or the end of them all. */
  function EndOf(offsets: seq<nat>, total: nat, i: nat): nat {
    if i + 1 < |offsets| then offsets[i + 1] else total
  }

  ghost predicate Laid(result: Bytes, offsets: seq<nat>, keys: seq<seq<Bytes>>, hash: Bytes -> nat)
    ensures Laid(result, offsets, keys, hash) ==> |offsets| == |keys|
  {
    && |offsets| == |keys|
    && (forall i :: 0 <= i < |offsets| ==> offsets[i] <= EndOf(offsets, |result|, i) <= |result|)
    && (forall i :: 0 <= i < |offsets| ==>
        Covers(Piece(result, offsets[i], EndOf(offsets, |result|, i)), keys[i], hash))
  }

  /** The keys, one after the other, and where each starts. */
  ghost predicate Flattened(flat: Bytes, start: seq<nat>, keys: seq<Bytes>)
    ensures Flattened(flat, start, keys) ==> |start| == |keys|
  {
    && |start| == |keys|
    && (forall i :: 0 <= i < |keys| ==>
        start[i] <= EndOf(start, |flat|, i) <= |flat| && flat[start[i]..EndOf(start, |flat|, i)] == keys[i])
  }

  class FilterBlockBuilder {
    const bitsPerKey: nat
    const probes: nat
    const hash: Bytes -> nat
    var keys: Bytes                     // flattened key contents
    var start: seq<nat>                 // starting index in keys_ of each key
    var result: Bytes
    var filterOffsets: seq<nat>
    ghost var pending: seq<Bytes>       // keys since the last filter
    ghost var filters: seq<seq<Bytes>>  // keys of the filters made

    ghost predicate Valid()
      reads this
    {
      && 1 <= probes <= 30 && Flattened(keys, start, pending)
      && Laid(result, filterOffsets, filters, hash)
    }

    constructor (bitsPerKey: nat, probes: nat, hash: Bytes -> nat)
      requires 1 <= probes <= 30
      ensures Valid() && filters == [] && pending == [] && this.hash == hash
    {
      this.bitsPerKey, this.probes, this.hash := bitsPerKey, probes, hash;
      keys, start, result, filterOffsets, pending, filters := [], [], [], [], [], [];
    }

    method AddKey(key: Bytes)
      requires Valid()
      modifies `keys, `start, `pending
      ensures Valid() && pending == old(pending) + [key]
    {
      hide Laid;
      FlatGrows(keys, start, pending, key);
      start := start + [|keys|];
      keys := keys + key;
      pending := pending + [key];
    }

    /** Filters the keys added since the last call, into one more filter. */
    method GenerateFilter()
      requires Valid()
      modifies `keys, `start, `result, `filterOffsets, `pending, `filters
      ensures Valid() && filters == old(filters) + [old(pending)] && pending == []
    {
      hide Laid, MayMatch, Covers, EndOf, Piece;
      if |start| == 0 {
        NoFilter(result, filterOffsets, filters, hash);
        filterOffsets := filterOffsets + [|result|];
      } else {
        var tmpKeys := ListKeys();
        ghost var was := result;
        filterOffsets := filterOffsets + [|result|];
        result := MakeFilter(tmpKeys);
        OneMoreFilter(was, result, old(filterOffsets), filters, pending, hash);
        keys := [];
        start := [];
      }
      filters := filters + [pending];
      pending := [];
    }

    /** The keys, cut out of the flattened string. */
    method ListKeys() returns (tmpKeys: seq<Bytes>)
      requires Flattened(keys, start, pending)
      ensures tmpKeys == pending
    {
      hide EndOf;
      tmpKeys := [];
      var start1 := start + [|keys|];   // simplify length computation
      for i := 0 to |start|
        invariant tmpKeys == pending[..i]
      {
        EndIsNext(start, |keys|, i);
        var length := start1[i + 1] - start1[i];
        tmpKeys := tmpKeys + [keys[start1[i]..start1[i] + length]];
      }
    }

    method MakeFilter(tmpKeys: seq<Bytes>) returns (r: Bytes)
      requires 1 <= probes <= 30
      ensures |result| <= |r| && r[..|result|] == result && Covers(r[|result|..], tmpKeys, hash)
    {
      hide MayMatch, BitAt, Probed;
      r := CreateFilter(tmpKeys, bitsPerKey, probes, hash, result);
      forall key | key in tmpKeys ensures MayMatch(key, r[|result|..], hash) {
        var i :| 0 <= i < |tmpKeys| && tmpKeys[i] == key;
        FilterMatches(tmpKeys, probes, hash, r[|result|..], i);
      }
    }

    /** A block starts at this offset: keys added from here on belong to the filter of its two kilobytes. */
    method StartBlock(blockOffset: nat)
      requires Valid() && blockOffset / FILTER_BASE >= |filters|
      modifies `keys, `start, `result, `filterOffsets, `pending, `filters
      ensures Valid() && |filters| == blockOffset / FILTER_BASE
      ensures if blockOffset / FILTER_BASE == |old(filters)| then filters == old(filters) && pending == old(pending)
              else pending == [] && old(filters) + [old(pending)] <= filters
    {
      hide Laid, Flattened;
      var filterIndex := blockOffset / FILTER_BASE;
      while filterIndex > |filterOffsets|
        invariant Valid() && |filterOffsets| == |filters| <= filterIndex
        invariant if |filters| == |old(filters)| then filters == old(filters) && pending == old(pending)
                  else pending == [] && old(filters) + [old(pending)] <= filters
        decreases filterIndex - |filterOffsets|
      {
        GenerateFilter();
      }
    }

    /** The last filter, the array of offsets, where it starts, and the base. */
    method Finish() returns (contents: Bytes)
      requires Valid()
      modifies `keys, `start, `result, `filterOffsets, `pending, `filters
      ensures filters == if old(pending) == [] then old(filters) else old(filters) + [old(pending)]
      ensures |contents| < LIMIT32 ==>
              forall b: nat, key :: b / FILTER_BASE < |filters| && key in filters[b / FILTER_BASE] ==>
                FilterMayMatch(contents, b, key, hash)
    {
      hide Laid, FilterMayMatch, FixedList, Fixed, Flattened, EndOf;
      if |start| != 0 {
        GenerateFilter();
      }
      ghost var offsets, filters0 := filterOffsets, result;
      var arrayOffset := |result|;
      for i := 0 to |filterOffsets|
        invariant filterOffsets == offsets && result == filters0 + FixedList(offsets[..i])
        invariant Laid(filters0, offsets, filters, hash)
        invariant filters == if old(pending) == [] then old(filters) else old(filters) + [old(pending)]
      {
        FixedListGrows(filterOffsets, i);
        result := result + Fixed(filterOffsets[i], 4);
      }
      assert filterOffsets[..|filterOffsets|] == filterOffsets;
      result := result + Fixed(arrayOffset, 4);
      result := result + [FILTER_BASE_LG];
      contents := result;
      assert IsBuilt(contents, filters0, offsets);
      if |contents| < LIMIT32 {
        forall b: nat, key | b / FILTER_BASE < |filters| && key in filters[b / FILTER_BASE]
          ensures FilterMayMatch(contents, b, key, hash)
        {
          BuiltFilterMatches(filters0, offsets, filters, hash, contents, b, key);
        }
      }
    }
  }

  lemma EndIsNext(start: seq<nat>, total: nat, i: nat)
    requires i < |start|
    ensures EndOf(start, total, i) == (start + [total])[i + 1]
  {
  }

  lemma FlatGrows(flat: Bytes, start: seq<nat>, keys: seq<Bytes>, key: Bytes)
    requires Flattened(flat, start, keys)
    ensures Flattened(flat + key, start + [|flat|], keys + [key])
  {
    var start1 := start + [|flat|];
    forall i | 0 <= i < |keys| + 1
      ensures start1[i] <= EndOf(start1, |flat + key|, i) <= |flat + key|
      ensures (flat + key)[start1[i]..EndOf(start1, |flat + key|, i)] == (keys + [key])[i]
    {
      if i < |keys| {
        assert EndOf(start1, |flat + key|, i) == EndOf(start, |flat|, i);
        assert (flat + key)[start[i]..EndOf(start, |flat|, i)] == flat[start[i]..EndOf(start, |flat|, i)];
      }
    }
  }

  lemma NoFilter(result: Bytes, offsets: seq<nat>, filters: seq<seq<Bytes>>, hash: Bytes -> nat)
    requires Laid(result, offsets, filters, hash)
    ensures Laid(result, offsets + [|result|], filters + [[]], hash)
  {
    hide Laid, MayMatch;
    OneMoreFilter(result, result, offsets, filters, [], hash);
  }

  lemma OneMoreFilter(result: Bytes, result1: Bytes, offsets: seq<nat>, filters: seq<seq<Bytes>>, keys: seq<Bytes>,
                      hash: Bytes -> nat)
    requires Laid(result, offsets, filters, hash) && |result| <= |result1| && result1[..|result|] == result
    requires Covers(result1[|result|..], keys, hash)
    ensures Laid(result1, offsets + [|result|], filters + [keys], hash)
  {
    hide Covers, Piece;
    var offsets1, filters1 := offsets + [|result|], filters + [keys];
    forall i | 0 <= i < |offsets1|
      ensures offsets1[i] <= EndOf(offsets1, |result1|, i) <= |result1|
      ensures Covers(Piece(result1, offsets1[i], EndOf(offsets1, |result1|, i)), filters1[i], hash)
    {
      if i < |offsets| {
        assert EndOf(offsets1, |result1|, i) == EndOf(offsets, |result|, i);
        SamePiece(result, result1, offsets[i], EndOf(offsets, |result|, i));
      } else {
        LastPiece(result1, |result|);
      }
    }
  }

  lemma LastPiece(data: Bytes, from: nat)
    requires from <= |data|
    ensures Piece(data, from, |data|) == data[from..]
  {
  }

  // --- The reader ---

  /** DecodeFixed32 at an offset. */
  function WordAt(data: Bytes, at: nat): nat {
    if at + 4 <= |data| then UnFixed(data[at..at + 4]) else 0
  }

  /** Which filter serves a block: `blockOffset >> baseLg`. */
  function FilterIndex(blockOffset: nat, baseLg: nat): nat {
    if baseLg == 0 then blockOffset else FilterIndex(blockOffset / 2, baseLg - 1)
  }

  /** FilterBlockReader: what it makes of the contents; errors count as matches. */
  function FilterMayMatch(contents: Bytes, blockOffset: nat, key: Bytes, hash: Bytes -> nat): bool {
    var n := |contents|;
    if n < 5 || WordAt(contents, n - 5) > n - 5 then true
    else
      var lastWord := WordAt(contents, n - 5);
      var index := FilterIndex(blockOffset, contents[n - 1] as nat);
      if index >= (n - 5 - lastWord) / 4 then true
      else
        var from, to := WordAt(contents, lastWord + 4 * index), WordAt(contents, lastWord + 4 * index + 4);
        if from <= to <= lastWord then MayMatch(key, Piece(contents, from, to), hash)
        else if from == to then false
        else true
  }

  class FilterBlockReader {
    const hash: Bytes -> nat
    var data: Bytes
    var offset: nat       // where the offset array starts
    var num: nat
    var baseLg: nat
    ghost const contents: Bytes

    ghost predicate Valid()
      reads this
    {
      var n := |contents|;
      if n < 5 || WordAt(contents, n - 5) > n - 5 then num == 0
      else
        && data == contents && offset == WordAt(contents, n - 5) && num == (n - 5 - offset) / 4
        && baseLg == contents[n - 1] as nat
    }

    constructor (contents: Bytes, hash: Bytes -> nat)
      ensures Valid() && this.contents == contents && this.hash == hash
    {
      hide WordAt;
      this.hash := hash;
      this.contents := contents;
      data, offset, num, baseLg := [], 0, 0, 0;
      var n := |contents|;
      if n >= 5 {   // 1 byte for the base and 4 for the start of the offset array
        baseLg := contents[n - 1] as nat;
        var lastWord := WordAt(contents, n - 5);
        if lastWord <= n - 5 {
          data := contents;
          offset := lastWord;
          num := (n - 5 - lastWord) / 4;
        }
      }
    }

    method KeyMayMatch(blockOffset: nat, key: Bytes) returns (may: bool)
      requires Valid()
      ensures may == FilterMayMatch(contents, blockOffset, key, hash)
    {
      hide WordAt, MayMatch, FilterIndex;
      var index := FilterIndex(blockOffset, baseLg);
      if index < num {
        var start := WordAt(data, offset + 4 * index);
        var limit := WordAt(data, offset + 4 * index + 4);
        if start <= limit && limit <= offset {
          may := Bloom.KeyMayMatch(key, Piece(data, start, limit), hash);
          return;
        } else if start == limit {
          // Empty filters do not match any keys
          return false;
        }
      }
      may := true;   // errors are treated as potential matches
    }
  }

  lemma FixedListGrows(ns: seq<nat>, i: nat)
    requires i < |ns|
    ensures FixedList(ns[..i + 1]) == FixedList(ns[..i]) + Fixed(ns[i], 4)
  {
    hide Fixed;
    assert ns[..i + 1][..i] == ns[..i];
  }

  /** The contents that Finish returns. */
  ghost predicate IsBuilt(contents: Bytes, result: Bytes, offsets: seq<nat>) {
    contents == result + FixedList(offsets) + Fixed(|result|, 4) + [FILTER_BASE_LG]
  }

  /** No false negatives, whatever the offset inside the two kilobytes. */
  lemma BuiltFilterMatches(result: Bytes, offsets: seq<nat>, filters: seq<seq<Bytes>>, hash: Bytes -> nat,
                           contents: Bytes, b: nat, key: Bytes)
    requires Laid(result, offsets, filters, hash) && |contents| < LIMIT32
    requires IsBuilt(contents, result, offsets)
    requires b / FILTER_BASE < |filters| && key in filters[b / FILTER_BASE]
    ensures FilterMayMatch(contents, b, key, hash)
  {
    hide MayMatch, FixedList, Fixed, WordAt, FilterIndex, Piece, IsBuilt;
    var i := b / FILTER_BASE;
    IndexIs(b);
    LastWordIs(result, offsets, contents);
    OffsetReads(result, offsets, contents, i);
    var from, to := offsets[i], EndOf(offsets, |result|, i);
    assert Piece(result, from, to) == Piece(contents, from, to) by { SamePiece(result, contents, from, to); }
    assert Covers(Piece(result, from, to), filters[i], hash);
  }

  lemma SamePiece(result: Bytes, contents: Bytes, from: nat, to: nat)
    requires |result| <= |contents| && contents[..|result|] == result && from <= to <= |result|
    ensures Piece(result, from, to) == Piece(contents, from, to)
  {
  }

  lemma IndexIs(b: nat)
    ensures FilterIndex(b, 11) == b / FILTER_BASE
  {
    hide FilterIndex;
    IndexStep(b / 1, b / 2, 10);
    IndexStep(b / 2, b / 4, 9);
    IndexStep(b / 4, b / 8, 8);
    IndexStep(b / 8, b / 16, 7);
    IndexStep(b / 16, b / 32, 6);
    IndexStep(b / 32, b / 64, 5);
    IndexStep(b / 64, b / 128, 4);
    IndexStep(b / 128, b / 256, 3);
    IndexStep(b / 256, b / 512, 2);
    IndexStep(b / 512, b / 1024, 1);
    IndexStep(b / 1024, b / 2048, 0);
    IndexEnd(b / FILTER_BASE);
  }

  lemma IndexStep(b: nat, half: nat, lg: nat)
    requires half == b / 2
    ensures FilterIndex(b, lg + 1) == FilterIndex(half, lg)
  {
  }

  lemma IndexEnd(b: nat)
    ensures FilterIndex(b, 0) == b
  {
  }

  lemma WordIs(data: Bytes, at: nat, v: nat)
    requires at + 4 <= |data| && data[at..at + 4] == Fixed(v, 4) && v < LIMIT32
    ensures WordAt(data, at) == v
  {
    hide Fixed, UnFixed;
    Power256Of4();
    FixedRoundTrip(v, 4);
  }

  lemma FourParts(a: Bytes, b: Bytes, c: Bytes, d: byte, all: Bytes)
    requires all == a + b + c + [d]
    ensures |all| == |a| + |b| + |c| + 1 && all[..|a|] == a && all[|all| - 1] == d
    ensures all[|a|..|a| + |b|] == b && all[|a| + |b|..|a| + |b| + |c|] == c
  {
  }

  lemma BuiltParts(contents: Bytes, result: Bytes, offsets: seq<nat>)
    requires IsBuilt(contents, result, offsets)
    ensures |contents| == |result| + 4 * |offsets| + 5 && contents[..|result|] == result
    ensures contents[|contents| - 1] == FILTER_BASE_LG && contents[|contents| - 5..|contents| - 1] == Fixed(|result|, 4)
    ensures contents[|result|..|result| + 4 * |offsets|] == FixedList(offsets)
  {
    hide FixedList, Fixed;
    FourParts(result, FixedList(offsets), Fixed(|result|, 4), FILTER_BASE_LG, contents);
  }

  lemma LastWordIs(result: Bytes, offsets: seq<nat>, contents: Bytes)
    requires IsBuilt(contents, result, offsets) && |contents| < LIMIT32
    ensures |contents| == |result| + 4 * |offsets| + 5 && WordAt(contents, |contents| - 5) == |result|
    ensures contents[|contents| - 1] == FILTER_BASE_LG && contents[..|result|] == result
  {
    hide FixedList, Fixed, WordAt, IsBuilt;
    BuiltParts(contents, result, offsets);
    WordIs(contents, |contents| - 5, |result|);
  }

  /** Offset `i` and the one after it; after the last stands the start of the array, which is the end of the filters. */
  lemma OffsetReads(result: Bytes, offsets: seq<nat>, contents: Bytes, i: nat)
    requires IsBuilt(contents, result, offsets) && |contents| < LIMIT32
    requires i < |offsets| && forall j :: 0 <= j < |offsets| ==> offsets[j] <= |result|
    ensures WordAt(contents, |result| + 4 * i) == offsets[i]
    ensures WordAt(contents, |result| + 4 * i + 4) == EndOf(offsets, |result|, i)
  {
    hide FixedList, Fixed, WordAt, IsBuilt;
    BuiltParts(contents, result, offsets);
    WordReads(result, offsets, contents, i);
    if i + 1 < |offsets| {
      WordReads(result, offsets, contents, i + 1);
    } else {
      LastWordIs(result, offsets, contents);
    }
  }

  lemma Within(contents: Bytes, at: nat, list: Bytes, j: nat)
    requires at + |list| <= |contents| && contents[at..at + |list|] == list && j + 4 <= |list|
    ensures contents[at + j..at + j + 4] == list[j..j + 4]
  {
    var a, b := contents[at + j..at + j + 4], list[j..j + 4];
    forall i | 0 <= i < 4 ensures a[i] == b[i] {
      assert contents[at..at + |list|][j + i] == contents[at + (j + i)];
    }
  }

  lemma WordReads(result: Bytes, offsets: seq<nat>, contents: Bytes, i: nat)
    requires IsBuilt(contents, result, offsets) && i < |offsets| && offsets[i] < LIMIT32
    ensures WordAt(contents, |result| + 4 * i) == offsets[i]
  {
    hide FixedList, Fixed, WordAt, IsBuilt;
    FixedListAt(offsets, i);
    BuiltParts(contents, result, offsets);
    var list := FixedList(offsets);
    Within(contents, |result|, list, 4 * i);
    WordIs(contents, |result| + 4 * i, offsets[i]);
  }
}
