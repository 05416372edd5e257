/** table/table.cc: opening a table and looking up a key in it, without a block cache. */
module Tables {
  import opened Wrappers
  import opened Bytes
  import opened Coding
  import opened Comparator
  import opened DbFormat
  import opened BlockFormat
  import opened Blocks
  import opened FilterBlocks
  import opened TableFormat
  import opened TableBuilders

  /** Offsets, sizes and lengths that the format's integers can hold. */
  ghost predicate Small(s: Spec, interval: nat, filterName: Bytes, parts: Parts)
    requires interval >= 1 && CutUp(s)
  {
    && HandleFits(parts.index) && HandleFits(parts.metaindex)
    && (forall i :: 0 <= i < |s.handles| ==> HandleFits(s.handles[i]))
    && (forall i :: 0 <= i < |s.ends| ==> Fits(Built(BlockOf(s, i), interval)))
    && Fits(Built(IndexEntries(s.seps, s.handles), 1)) && Fits(Built(MetaEntries(filterName, parts.filter), interval))
    && (parts.filter.Some? ==> HandleFits(parts.filter.value.handle) && |parts.filter.value.contents| < LIMIT32)
  }

  // --- The index of a table ---

  lemma LastIsBelowSep(s: Spec, i: nat)
    requires Settled(s, false) && i < |s.ends|
    ensures |s.seps[i]| >= 8 && |s.entries[s.ends[i] - 1].key| >= 8 && !KeyLess(s.seps[i], s.entries[s.ends[i] - 1].key)
    ensures s.ends[i] < |s.entries| ==> Splits(s.seps[i], s.entries[s.ends[i] - 1].key, s.entries[s.ends[i]].key)
  {
    hide KeysAscend, Splits, KeyLess, CutUp, From;
    SettledParts(s);
    assert Separated(s);
    BlockLast(s, i);
    SepIsOk(s, i);
  }

  lemma KeyOrder(s: Spec, i: nat, j: nat)
    requires KeysAscend(s.entries) && i < j < |s.entries|
    ensures KeyLess(s.entries[i].key, s.entries[j].key)
  {
  }

  lemma NotLess(a: Bytes, b: Bytes)
    requires |a| >= 8 && |b| >= 8 && !KeyLess(a, b)
    ensures a == b || KeyLess(b, a)
  {
    hide InternalLess;
    InternalLessIsTotal(a, b);
  }

  lemma Chain(a: Bytes, b: Bytes, c: Bytes)
    requires KeyLess(a, b) && KeyLess(b, c)
    ensures KeyLess(a, c)
  {
    hide InternalLess;
    InternalLessIsTransitive(a, b, c);
  }

  /** The index keys ascend with the blocks. */
  lemma {:induction false} SepsAscend(s: Spec, i: nat, j: nat)
    requires Settled(s, false) && i < j < |s.ends|
    ensures KeyLess(s.seps[i], s.seps[j])
    decreases j
  {
    hide KeyLess, Settled, KeysAscend;
    assert |s.seps| == |s.ends| && KeysAscend(s.entries) by { SettledParts(s); }
    NextSep(s, j - 1);
    if i < j - 1 {
      SepsAscend(s, i, j - 1);
      Chain(s.seps[i], s.seps[j - 1], s.seps[j]);
    }
  }

  lemma SettledParts(s: Spec)
    requires Settled(s, false)
    ensures |s.seps| == |s.ends| == |s.handles| && KeysAscend(s.entries) && CutUp(s) && From(s, |s.ends|) == |s.entries|
  {
    hide KeysAscend, Separated;
  }

  lemma NextSep(s: Spec, i: nat)
    requires Settled(s, false) && i + 1 < |s.ends|
    ensures KeyLess(s.seps[i], s.seps[i + 1])
  {
    hide KeyLess, Settled, KeysAscend, Splits, CutUp, From;
    SettledParts(s);
    NextStarts(s, i);
    LastIsBelowSep(s, i);
    LastIsBelowSep(s, i + 1);
    NotLess(s.seps[i + 1], s.entries[s.ends[i + 1] - 1].key);
    if s.ends[i] < s.ends[i + 1] - 1 {
      KeyOrder(s, s.ends[i], s.ends[i + 1] - 1);
    }
    Between(s.seps[i], s.entries[s.ends[i]].key, s.entries[s.ends[i + 1] - 1].key, s.seps[i + 1]);
  }

  lemma Between(a: Bytes, next: Bytes, last: Bytes, b: Bytes)
    requires KeyLess(a, next) && (next == last || KeyLess(next, last)) && (b == last || KeyLess(last, b))
    ensures KeyLess(a, b)
  {
    hide KeyLess;
    if next != last {
      Chain(a, next, last);
    }
    if b != last {
      Chain(a, last, b);
    }
  }

  lemma IndexAscends(s: Spec)
    requires Settled(s, false)
    ensures KeysAscend(IndexEntries(s.seps, s.handles))
  {
    hide InternalLess, Settled, EncodeHandle;
    SettledParts(s);
    var index := IndexEntries(s.seps, s.handles);
    forall i | 0 <= i < |index| ensures |index[i].key| >= 8 {
      LastIsBelowSep(s, i);
    }
    forall i, j | 0 <= i < j < |index| ensures InternalLess(index[i].key, index[j].key) {
      SepsAscend(s, i, j);
    }
  }

  /** Everything up to the end of a block whose index key is below the target is below it. */
  lemma BelowSep(s: Spec, i: nat, k: Bytes, j: nat)
    requires Settled(s, false) && i < |s.ends| && j < s.ends[i] && KeyLess(s.seps[i], k)
    ensures j < |s.entries| && KeyLess(s.entries[j].key, k)
  {
    hide KeyLess, Settled, KeysAscend, CutUp, From, Splits;
    SettledParts(s);
    BlockLast(s, i);
    LastIsBelowSep(s, i);
    var last := s.entries[s.ends[i] - 1].key;
    NotLess(s.seps[i], last);
    if last != s.seps[i] {
      Chain(last, s.seps[i], k);
    }
    if j < s.ends[i] - 1 {
      KeyOrder(s, j, s.ends[i] - 1);
      Chain(s.entries[j].key, last, k);
    }
  }

  /** Where the first entry at or after the target is: in the block the index points to; or right after it,
      and then it has another user key. */
  lemma InThisBlock(s: Spec, k: Bytes, i: nat, p: nat)
    requires Settled(s, false) && |k| >= 8 && FirstAtOrAfter(s.entries, KeyLess, k, p)
    requires FirstAtOrAfter(IndexEntries(s.seps, s.handles), KeyLess, k, i)
    ensures i <= |s.ends| && From(s, i) <= p && (i == |s.ends| ==> p == |s.entries|)
    ensures i < |s.ends| ==> p <= s.ends[i]
    ensures i < |s.ends| && p == s.ends[i] < |s.entries| ==>
            |s.entries[p].key| >= 8 && UserPart(s.entries[p].key) != UserPart(k)
  {
    hide KeyLess, Settled, KeysAscend, EncodeHandle, CutUp, From, IndexEntries, Splits;
    SettledParts(s);
    var index := IndexEntries(s.seps, s.handles);
    FromIs(s, i);
    if i > 0 {
      BlockLast(s, i - 1);
      assert KeyLess(index[i - 1].key, k);
      if p < s.ends[i - 1] {
        BelowSep(s, i - 1, k, p);
      }
    }
    if i < |s.ends| {
      BlockLast(s, i);
      assert !KeyLess(index[i].key, k);
      if s.ends[i] < |s.entries| {
        AfterThisBlock(s, k, i, p);
      }
    }
  }

  lemma AfterThisBlock(s: Spec, k: Bytes, i: nat, p: nat)
    requires Settled(s, false) && |k| >= 8 && FirstAtOrAfter(s.entries, KeyLess, k, p)
    requires i < |s.ends| && s.ends[i] < |s.entries| && !KeyLess(s.seps[i], k)
    ensures p <= s.ends[i]
    ensures p == s.ends[i] ==> |s.entries[p].key| >= 8 && UserPart(s.entries[p].key) != UserPart(k)
  {
    hide InternalLess, Settled, KeysAscend, UserPart, Less;
    SettledParts(s);
    BlockLast(s, i);
    LastIsBelowSep(s, i);
    var sep, next := s.seps[i], s.entries[s.ends[i]].key;
    if KeyLess(next, k) {
      Chain(sep, next, k);
    }
    if p == s.ends[i] && UserPart(next) == UserPart(k) {
      assert KeyLess(s.entries[s.ends[i] - 1].key, k);
      SmallerUser(sep, k);
    }
  }

  lemma SmallerUser(a: Bytes, b: Bytes)
    requires |a| >= 8 && |b| >= 8 && Less(UserPart(a), UserPart(b))
    ensures KeyLess(a, b)
  {
  }

  lemma {:induction false} FirstExists(es: seq<Pair>, k: Bytes) returns (p: nat)
    requires KeysAscend(es) && |k| >= 8
    ensures FirstAtOrAfter(es, KeyLess, k, p)
    decreases |es|
  {
    hide KeyLess;
    p := 0;
    while p < |es| && KeyLess(es[p].key, k)
      invariant p <= |es| && forall i :: 0 <= i < p ==> KeyLess(es[i].key, k)
    {
      p := p + 1;
    }
  }

  lemma FirstIsUnique(es: seq<Pair>, k: Bytes, p: nat, q: nat)
    requires FirstAtOrAfter(es, KeyLess, k, p) && FirstAtOrAfter(es, KeyLess, k, q)
    ensures p == q
  {
    hide KeyLess;
  }

  /** What the saver gets: the entry at `p` or nothing, and that entry if it has the user key asked for. */
  ghost predicate Handed(es: seq<Pair>, k: Bytes, p: nat, r: Option<Pair>)
    requires |k| >= 8
  {
    && (r.Some? ==> p < |es| && r.value == es[p])
    && (p < |es| && |es[p].key| >= 8 && UserPart(es[p].key) == UserPart(k) ==> r == Some(es[p]))
  }

  // --- Opening and looking up ---

  class Table {
    const file: Bytes
    const indexContents: Bytes
    const filter: FilterBlockReader?
    ghost const s: Spec
    ghost const interval: nat
    ghost const filterName: Bytes
    ghost const parts: Parts

    ghost predicate Valid()
      reads filter
    {
      && IsTable(file, s, interval, filterName, parts) && Small(s, interval, filterName, parts)
      && indexContents == BytesOf(IndexEntries(s.seps, s.handles), 1)
      && (filter != null ==>
          filter.Valid() && |filter.contents| < LIMIT32 && FilterGood(filter.contents, s, filter.hash))
    }

    constructor (file: Bytes, indexContents: Bytes, filter: FilterBlockReader?, ghost s: Spec, ghost interval: nat,
                 ghost filterName: Bytes, ghost parts: Parts)
      ensures this.file == file && this.indexContents == indexContents && this.filter == filter
      ensures this.s == s && this.interval == interval && this.filterName == filterName && this.parts == parts
    {
      this.file, this.indexContents, this.filter := file, indexContents, filter;
      this.s, this.interval, this.filterName, this.parts := s, interval, filterName, parts;
    }

    /** BlockReader without a cache: the iterator over a data block. */
    method BlockReader(indexValue: Bytes, verifyChecksums: bool, ghost i: nat) returns (iter: Iter)
      requires Valid() && i < |s.ends| && i < |s.handles| && indexValue == EncodeHandle(s.handles[i])
      ensures fresh(iter) && iter.Valid() && interval >= 1 && CutUp(s) && iter.l == Built(BlockOf(s, i), interval)
    {
      hide FilterGood, Settled, BytesOf, BlockBytes, EncodeHandle, DecodeHandle, StoredAt, Sound, Data, Fits, Built,
           FilterBlockReader.Valid;
      SmallParts(s, interval, filterName, parts, i);
      HandleRoundTrip(s.handles[i], []);
      assert EncodeHandle(s.handles[i]) + [] == indexValue;
      var handle := DecodeHandle(indexValue);
      BlockIsStored(file, s, interval, i);
      var contents := ReadBlock(file, handle.value, verifyChecksums);
      BytesAre(BlockOf(s, i), interval);
      iter := NewIterator(contents.value, Built(BlockOf(s, i), interval));
    }

    /** If the first entry at or after the key has its user key, exactly that entry is handed out; otherwise
        that entry or none. */
    method InternalGet(k: Bytes, verifyChecksums: bool) returns (r: Option<Pair>)
      requires Valid() && |k| >= 8
      ensures forall p: nat :: FirstAtOrAfter(s.entries, KeyLess, k, p) ==> Handed(s.entries, k, p, r)
    {
      hide FilterGood, Settled, BytesOf, BlockBytes, EncodeHandle, DecodeHandle, StoredAt, Sound, Data, Fits, Built,
           KeyLess, KeysAscend, BlocksStored, FirstAtOrAfter, Small, Separated, UserPart, From, CutUp, Monotone;
      r := None;
      TableParts(file, s, interval, filterName, parts);
      ghost var p := FirstExists(s.entries, k);
      var iiter := IndexIterator();
      iiter.Seek(k, KeyLess);
      iiter.AtEntryIs();
      ghost var i := iiter.pos;
      InThisBlock(s, k, i, p);
      if iiter.AtEntry() {
        var handleValue := iiter.data[iiter.valueStart..iiter.valueStart + iiter.valueLength];
        var may := FilterAllows(handleValue, k, i, p);
        if may {
          r := SeekInBlock(handleValue, k, verifyChecksums, i, p);
        }
      }
      forall q: nat | FirstAtOrAfter(s.entries, KeyLess, k, q) ensures Handed(s.entries, k, q, r) {
        FirstIsUnique(s.entries, k, p, q);
      }
    }

    method IndexIterator() returns (iiter: Iter)
      requires Valid()
      ensures fresh(iiter) && iiter.Valid() && |s.seps| <= |s.handles|
      ensures iiter.l.entries == IndexEntries(s.seps, s.handles)
      ensures iiter.numRestarts > 0
      ensures forall k :: |k| >= 8 ==> Monotone(iiter.l.entries, KeyLess, k)
    {
      hide FilterGood, Settled, BytesOf, BlockBytes, EncodeHandle, StoredAt, Sound, Data, KeyLess, KeysAscend,
           BlocksStored, Separated, Monotone;
      TableParts(file, s, interval, filterName, parts);
      BytesAre(IndexEntries(s.seps, s.handles), 1);
      iiter := NewIterator(indexContents, Built(IndexEntries(s.seps, s.handles), 1));
      IndexAscends(s);
      forall k | |k| >= 8 ensures Monotone(iiter.l.entries, KeyLess, k) {
        AscendingKeysAreMonotone(iiter.l.entries, k);
      }
    }

    /** The filter may turn a key down only if the block has no entry of its user key. */
    method FilterAllows(handleValue: Bytes, k: Bytes, ghost i: nat, ghost p: nat) returns (may: bool)
      requires Valid() && |k| >= 8 && i < |s.handles| && handleValue == EncodeHandle(s.handles[i])
      requires CutUp(s) && i < |s.ends| && From(s, i) <= p <= s.ends[i]
      ensures !may && p < s.ends[i] && p < |s.entries| && |s.entries[p].key| >= 8 ==>
              UserPart(s.entries[p].key) != UserPart(k)
    {
      hide Settled, BytesOf, EncodeHandle, DecodeHandle, StoredAt, Fits, IsTable, FilterMayMatch,
           FilterBlockReader.Valid, UserPart, FilterGood, CutUp, From, Small;
      TableParts(file, s, interval, filterName, parts);
      may := true;
      if filter != null {
        SmallHandle(s, interval, filterName, parts, i);
        HandleRoundTrip(s.handles[i], []);
        assert EncodeHandle(s.handles[i]) + [] == handleValue;
        var handle := DecodeHandle(handleValue);
        may := filter.KeyMayMatch(handle.value.offset, UserPart(k));
        if !may && p < s.ends[i] && p < |s.entries| && |s.entries[p].key| >= 8 {
          FilterRefuses(filter.contents, s, filter.hash, i, p, k);
        }
      }
    }

    method SeekInBlock(handleValue: Bytes, k: Bytes, verifyChecksums: bool, ghost i: nat, ghost p: nat)
      returns (r: Option<Pair>)
      requires Valid() && |k| >= 8 && i < |s.handles| && handleValue == EncodeHandle(s.handles[i])
      requires CutUp(s) && i < |s.ends| && From(s, i) <= p <= s.ends[i] && FirstAtOrAfter(s.entries, KeyLess, k, p)
      ensures s.ends[i] <= |s.entries| && r == if p < s.ends[i] then Some(s.entries[p]) else None
    {
      hide FilterGood, Settled, BytesOf, EncodeHandle, StoredAt, Fits, KeyLess, IsTable, Small, Sound, Data,
           FirstAtOrAfter, KeysAscend, Monotone, SharesOf, RestartsOf, CutUp;
      TableParts(file, s, interval, filterName, parts);
      BlockLast(s, i);
      var iter := BlockReader(handleValue, verifyChecksums, i);
      BlockAscends(s, i, k);
      iter.Seek(k, KeyLess);
      iter.AtEntryIs();
      SamePlace(s, i, k, p, iter.pos);
      if iter.AtEntry() {
        r := Some(Pair(iter.key, iter.data[iter.valueStart..iter.valueStart + iter.valueLength]));
      } else {
        r := None;
      }
    }
  }

  lemma TableParts(file: Bytes, s: Spec, interval: nat, filterName: Bytes, parts: Parts)
    requires IsTable(file, s, interval, filterName, parts)
    ensures interval >= 1 && Settled(s, false) && CutUp(s) && |s.seps| == |s.handles| == |s.ends|
    ensures KeysAscend(s.entries)
    ensures BlocksStored(file, s, interval)
  {
    hide KeysAscend, BlocksStored, StoredAt, Separated;
  }

  lemma SmallParts(s: Spec, interval: nat, filterName: Bytes, parts: Parts, i: nat)
    requires interval >= 1 && CutUp(s) && Small(s, interval, filterName, parts) && i < |s.ends|
    ensures HandleFits(s.handles[i]) && Fits(Built(BlockOf(s, i), interval))
  {
    hide Fits;
  }

  lemma SmallHandle(s: Spec, interval: nat, filterName: Bytes, parts: Parts, i: nat)
    requires interval >= 1 && CutUp(s) && Small(s, interval, filterName, parts) && i < |s.handles|
    ensures HandleFits(s.handles[i])
  {
    hide Fits;
  }

  lemma FilterRefuses(contents: Bytes, s: Spec, hash: Bytes -> nat, i: nat, p: nat, k: Bytes)
    requires FilterGood(contents, s, hash) && |contents| < LIMIT32 && |k| >= 8
    requires i < |s.ends| && i < |s.handles| && From(s, i) <= p < s.ends[i] && p < |s.entries|
    requires |s.entries[p].key| >= 8
    requires !FilterMayMatch(contents, s.handles[i].offset, UserPart(k), hash)
    ensures UserPart(s.entries[p].key) != UserPart(k)
  {
    hide FilterMayMatch, UserPart, CutUp;
    assert EntryMayMatch(contents, s, hash, i, p);
  }

  lemma BlockIsStored(file: Bytes, s: Spec, interval: nat, i: nat)
    requires interval >= 1 && CutUp(s) && BlocksStored(file, s, interval) && i < |s.ends|
    ensures StoredAt(file, s.handles[i], BytesOf(BlockOf(s, i), interval))
  {
    hide StoredAt;
    assert BlockStored(file, s, interval, i);
  }

  lemma BytesAre(es: seq<Pair>, interval: nat)
    requires interval >= 1
    ensures Sound(Built(es, interval)) && BytesOf(es, interval) == BlockBytes(Built(es, interval))
  {
    BuiltIsSound(es, interval);
  }

  lemma BlockAscends(s: Spec, i: nat, k: Bytes)
    requires CutUp(s) && KeysAscend(s.entries) && i < |s.ends| && |k| >= 8
    ensures Monotone(BlockOf(s, i), KeyLess, k)
  {
    hide KeyLess, InternalLess;
    var b := BlockOf(s, i);
    forall m, n | 0 <= m < n < |b| ensures InternalLess(b[m].key, b[n].key) {
      assert b[m] == s.entries[From(s, i) + m] && b[n] == s.entries[From(s, i) + n];
    }
    AscendingKeysAreMonotone(b, k);
  }

  lemma SamePlace(s: Spec, i: nat, k: Bytes, p: nat, q: nat)
    requires CutUp(s) && i < |s.ends| && From(s, i) <= p <= s.ends[i] <= |s.entries|
    requires FirstAtOrAfter(s.entries, KeyLess, k, p) && FirstAtOrAfter(BlockOf(s, i), KeyLess, k, q)
    ensures p == From(s, i) + q && (p < s.ends[i] ==> BlockOf(s, i)[q] == s.entries[p])
  {
    hide KeyLess;
    var b := BlockOf(s, i);
    if q < |b| {
      assert b[q] == s.entries[From(s, i) + q];
    }
    if p < s.ends[i] {
      assert b[p - From(s, i)] == s.entries[p];
    }
  }

  // --- Table::Open ---

  /** Opens a table that a builder made; `policy` is the name and hash of the reader's filter policy. */
  method Open(file: Bytes, policy: Option<Bytes>, hash: Bytes -> nat, ghost s: Spec, ghost interval: nat,
              ghost filterName: Bytes, ghost parts: Parts) returns (t: Table)
    requires IsTable(file, s, interval, filterName, parts) && Small(s, interval, filterName, parts)
    requires parts.filter.Some? ==> FilterGood(parts.filter.value.contents, s, hash)
    ensures fresh(t) && t.Valid() && t.s == s && t.file == file
    ensures t.filter != null <==> policy == Some(filterName) && parts.filter.Some?
  {
    hide Settled, BytesOf, BlockBytes, EncodeHandle, StoredAt, Fits, BlocksStored, Footer, FilterGood,
         FilterBlockReader.Valid, Sound, MetaEntries;
    FileParts(file, s, interval, filterName, parts);
    var footer := DecodeFooter(file[|file| - FOOTER_LENGTH..]);
    var index := ReadBlock(file, footer.index, true);
    var filter: FilterBlockReader? := null;
    if policy.Some? {
      filter := ReadMeta(file, footer.metaindex, policy.value, hash, s, interval, filterName, parts);
    }
    t := new Table(file, index.value, filter, s, interval, filterName, parts);
  }

  method ReadMeta(file: Bytes, metaindex: BlockHandle, name: Bytes, hash: Bytes -> nat, ghost s: Spec,
                  ghost interval: nat, ghost filterName: Bytes, ghost parts: Parts) returns (filter: FilterBlockReader?)
    requires IsTable(file, s, interval, filterName, parts) && Small(s, interval, filterName, parts)
    requires metaindex == parts.metaindex
    ensures filter != null <==> name == filterName && parts.filter.Some?
    ensures filter != null ==>
            fresh(filter) && filter.Valid() && filter.hash == hash && filter.contents == parts.filter.value.contents
  {
    hide Settled, BytesOf, BlockBytes, EncodeHandle, DecodeHandle, StoredAt, Fits, BlocksStored, Footer,
         FilterBlockReader.Valid, Sound, Data, SharesOf, RestartsOf, Less, UnFixed;
    FileParts(file, s, interval, filterName, parts);
    ghost var meta := MetaEntries(filterName, parts.filter);
    filter := null;
    var contents := ReadBlock(file, metaindex, true);
    BytesAre(meta, interval);
    var iter := NewIterator(contents.value, Built(meta, interval));
    FirstRestart(iter.l);
    iter.Seek(name, Less);
    iter.AtEntryIs();
    if iter.AtEntry() && iter.key == name {
      var v := iter.data[iter.valueStart..iter.valueStart + iter.valueLength];
      HandleRoundTrip(parts.filter.value.handle, []);
      assert EncodeHandle(parts.filter.value.handle) + [] == v;
      var handle := DecodeHandle(v);
      var block := ReadBlock(file, handle.value, true);
      filter := new FilterBlockReader(block.value, hash);
    } else {
      NotThere(meta, filterName, parts.filter, name, iter.pos);
    }
  }

  lemma FileParts(file: Bytes, s: Spec, interval: nat, filterName: Bytes, parts: Parts)
    requires IsTable(file, s, interval, filterName, parts) && Small(s, interval, filterName, parts)
    ensures |file| >= FOOTER_LENGTH && file[|file| - FOOTER_LENGTH..] == Footer(parts.metaindex, parts.index)
    ensures HandleFits(parts.metaindex) && HandleFits(parts.index)
    ensures StoredAt(file, parts.index, BytesOf(IndexEntries(s.seps, s.handles), 1))
    ensures StoredAt(file, parts.metaindex, BytesOf(MetaEntries(filterName, parts.filter), interval))
    ensures Fits(Built(MetaEntries(filterName, parts.filter), interval))
    ensures parts.filter.Some? ==> && StoredAt(file, parts.filter.value.handle, parts.filter.value.contents)
                                   && HandleFits(parts.filter.value.handle) && |parts.filter.value.contents| < LIMIT32
  {
    hide Settled, BytesOf, StoredAt, Fits, BlocksStored, Footer;
  }

  /** The name a search stops short of is not in the metaindex block. */
  lemma NotThere(meta: seq<Pair>, filterName: Bytes, filter: Option<FilterPart>, name: Bytes, pos: nat)
    requires meta == MetaEntries(filterName, filter) && FirstAtOrAfter(meta, Less, name, pos)
    requires pos < |meta| ==> meta[pos].key != name
    ensures !(name == filterName && filter.Some?)
  {
    hide Less;
    LessIsStrict(filterName, filterName);
    assert filter.Some? ==> |meta| == 1 && meta[0].key == filterName;
  }
}
