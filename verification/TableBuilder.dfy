/** table/table_builder.cc: sorted entries cut into blocks, with shortened keys in the index and filters
    by file offset. */
module TableBuilders {
  import opened Wrappers
  import opened Bytes
  import opened Coding
  import opened Comparator
  import opened DbFormat
  import opened BlockFormat
  import opened Blocks
  import opened FilterBlocks
  import opened TableFormat
  import Crc = Crc32c

  /** A table: its entries, where each block ends among them, where each block is, and the index key
      between it and the next. */
  datatype Spec = Spec(entries: seq<Pair>, ends: seq<nat>, handles: seq<BlockHandle>, seps: seq<Bytes>)

  function From(s: Spec, i: nat): nat
    requires i <= |s.ends|
  {
    if i == 0 then 0 else s.ends[i - 1]
  }

  /** Blocks follow each other and none is empty. */
  ghost predicate CutUp(s: Spec)
    ensures CutUp(s) ==> |s.handles| == |s.ends| && |s.seps| <= |s.ends|
  {
    && |s.handles| == |s.ends| && |s.seps| <= |s.ends|
    && forall i :: 0 <= i < |s.ends| ==> From(s, i) < s.ends[i] <= |s.entries|
  }

  function BlockOf(s: Spec, i: nat): seq<Pair>
    requires i < |s.ends| && From(s, i) <= s.ends[i] <= |s.entries|
  {
    s.entries[From(s, i)..s.ends[i]]
  }

  function BytesOf(es: seq<Pair>, interval: nat): Bytes
    requires interval >= 1
  {
    BuiltIsSound(es, interval);
    BlockBytes(Built(es, interval))
  }

  ghost predicate BlockStored(file: Bytes, s: Spec, interval: nat, i: nat)
    requires interval >= 1 && CutUp(s) && i < |s.ends|
  {
    StoredAt(file, s.handles[i], BytesOf(BlockOf(s, i), interval))
  }

  ghost predicate BlocksStored(file: Bytes, s: Spec, interval: nat)
    requires interval >= 1 && CutUp(s)
  {
    forall i :: 0 <= i < |s.ends| ==> BlockStored(file, s, interval, i)
  }

  /** The index key is not below the last key of its block and below the first of the next; unless it is
      that last key, even its user key is. */
  ghost predicate Splits(sep: Bytes, last: Bytes, next: Bytes)
    ensures Splits(sep, last, next) ==> KeyLess(sep, next)
  {
    KeyLess(sep, next) && |sep| >= 8 && |next| >= 8 && (sep == last || Less(UserPart(sep), UserPart(next)))
  }

  ghost predicate SepOk(s: Spec, i: nat)
    requires CutUp(s) && i < |s.seps|
  {
    var last := s.entries[s.ends[i] - 1].key;
    && |s.seps[i]| >= 8 && |last| >= 8 && !KeyLess(s.seps[i], last)
    && (s.ends[i] < |s.entries| ==> Splits(s.seps[i], last, s.entries[s.ends[i]].key))
  }

  ghost predicate Separated(s: Spec)
    requires CutUp(s)
  {
    forall i :: 0 <= i < |s.seps| ==> SepOk(s, i)
  }

  lemma BlockLast(s: Spec, i: nat)
    requires CutUp(s) && i < |s.ends|
    ensures From(s, i) < s.ends[i] <= |s.entries|
  {
    hide From;
  }

  lemma NextStarts(s: Spec, i: nat)
    requires CutUp(s) && i + 1 < |s.ends|
    ensures s.ends[i] == From(s, i + 1) < s.ends[i + 1] <= |s.entries|
  {
  }

  lemma FromIs(s: Spec, i: nat)
    requires i <= |s.ends|
    ensures From(s, i) == if i == 0 then 0 else s.ends[i - 1]
  {
  }

  lemma SepIsOk(s: Spec, i: nat)
    requires CutUp(s) && Separated(s) && i < |s.seps|
    ensures SepOk(s, i)
  {
    hide Splits, KeyLess, SepOk;
  }

  function IndexEntries(seps: seq<Bytes>, handles: seq<BlockHandle>): (r: seq<Pair>)
    requires |seps| <= |handles|
    ensures |r| == |seps| && forall i :: 0 <= i < |seps| ==> r[i] == Pair(seps[i], EncodeHandle(handles[i]))
  {
    seq(|seps|, i requires 0 <= i < |seps| => Pair(seps[i], EncodeHandle(handles[i])))
  }

  /** The user key is in the filter that serves the file offset, or will be. */
  ghost predicate InFilter(filters: seq<seq<Bytes>>, pending: seq<Bytes>, offset: nat, user: Bytes) {
    var index := offset / FILTER_BASE;
    (index < |filters| && user in filters[index]) || (index == |filters| && user in pending)
  }

  ghost predicate EntryFiltered(s: Spec, filters: seq<seq<Bytes>>, pending: seq<Bytes>, i: nat, j: nat)
    requires i < |s.handles| && j < |s.entries|
  {
    |s.entries[j].key| >= 8 ==> InFilter(filters, pending, s.handles[i].offset, UserPart(s.entries[j].key))
  }

  ghost predicate Filtered(s: Spec, filters: seq<seq<Bytes>>, pending: seq<Bytes>)
    requires CutUp(s)
  {
    forall i, j :: 0 <= i < |s.ends| && From(s, i) <= j < s.ends[i] ==> EntryFiltered(s, filters, pending, i, j)
  }

  // --- One step of the builder, on the spec ---

  /** The key the comparator makes up between two neighbours splits them. */
  lemma SeparatorSplits(last: Bytes, next: Bytes)
    requires |last| >= 8 && |next| >= 8 && InternalLess(last, next)
    ensures var sep := Shortened(last, Separator(UserPart(last), UserPart(next)));
            !KeyLess(sep, last) && Splits(sep, last, next)
  {
    hide Less, Separator, Earliest, TagPart, UserPart;
    InternalSeparatorSeparates(last, next);
    ShortenedSplits(last, next);
  }

  lemma ShortenedSplits(last: Bytes, next: Bytes)
    requires |last| >= 8 && |next| >= 8 && InternalLess(last, next)
    ensures var sep := Shortened(last, Separator(UserPart(last), UserPart(next)));
            sep == last || Less(UserPart(sep), UserPart(next))
  {
    hide Less, Separator, Earliest, TagPart;
    var u, v := UserPart(last), UserPart(next);
    var t := Separator(u, v);
    ShortenedParts(t);
    LessIsStrict(u, t);
    if |t| < |u| && Less(u, t) {
      if u == v {
        SeparatorOfSame(u);
      } else {
        SeparatorSeparates(u, v);
      }
    }
  }

  function WithEntry(s: Spec, e: Pair): Spec {
    s.(entries := s.entries + [e])
  }

  /** What the builder keeps: `waiting` says that the last block has no index key yet. */
  ghost predicate Consistent(s: Spec, file: Bytes, interval: nat, waiting: bool) {
    && interval >= 1 && CutUp(s) && KeysAscend(s.entries) && BlocksStored(file, s, interval) && Separated(s)
    && |s.seps| + (if waiting then 1 else 0) == |s.ends|
    && (if waiting then From(s, |s.ends|) == |s.entries| else |s.ends| == 0 || From(s, |s.ends|) < |s.entries|)
  }

  /** The filters so far, for blocks written and for the block being filled. */
  ghost predicate FiltersKept(s: Spec, length: nat, filters: seq<seq<Bytes>>, pending: seq<Bytes>) {
    && CutUp(s) && Filtered(s, filters, pending) && |filters| == length / FILTER_BASE
    && From(s, |s.ends|) <= |s.entries|
    && forall j :: From(s, |s.ends|) <= j < |s.entries| && |s.entries[j].key| >= 8 ==>
       UserPart(s.entries[j].key) in pending
  }

  /** The index key, if one was waiting, and the entry. */
  function Added(s: Spec, e: Pair, sep: Option<Bytes>): Spec {
    WithEntry(if sep.Some? then s.(seps := s.seps + [sep.value]) else s, e)
  }

  function LastKeyOf(s: Spec): Bytes {
    LastKey(s.entries)
  }

  lemma AddKeeps(s: Spec, file: Bytes, interval: nat, waiting: bool, e: Pair, sep: Option<Bytes>)
    requires Consistent(s, file, interval, waiting) && |e.key| >= 8
    requires s.entries != [] ==> KeyLess(LastKeyOf(s), e.key)
    requires waiting <==> sep.Some?
    requires waiting ==> sep.value == Shortened(LastKeyOf(s), Separator(UserPart(LastKeyOf(s)), UserPart(e.key)))
    ensures Consistent(Added(s, e, sep), file, interval, false)
  {
    hide KeyLess, SepOk, KeysAscend, BlockStored, Separator, Shortened, UserPart, CutUp, From;
    var t := Added(s, e, sep);
    StillCutUp(s, e, sep);
    KeysGrow(s.entries, e);
    forall i | 0 <= i < |t.ends| ensures BlockStored(file, t, interval, i) {
      SameBlock(s, e, sep, file, interval, i);
    }
    forall i | 0 <= i < |t.seps| ensures SepOk(t, i) {
      if i < |s.seps| {
        SepStays(s, e, sep, i);
      } else {
        BlockLast(s, |s.ends| - 1);
        NewSep(s, e, sep);
      }
    }
  }

  lemma StillCutUp(s: Spec, e: Pair, sep: Option<Bytes>)
    requires CutUp(s) && (sep.Some? ==> |s.seps| < |s.ends|)
    ensures CutUp(Added(s, e, sep)) && forall i :: 0 <= i <= |s.ends| ==> From(Added(s, e, sep), i) == From(s, i)
  {
  }

  lemma SameBlock(s: Spec, e: Pair, sep: Option<Bytes>, file: Bytes, interval: nat, i: nat)
    requires interval >= 1 && CutUp(s) && CutUp(Added(s, e, sep)) && i < |s.ends| && BlockStored(file, s, interval, i)
    ensures BlockStored(file, Added(s, e, sep), interval, i)
  {
    hide StoredAt, BytesOf;
    assert BlockOf(Added(s, e, sep), i) == BlockOf(s, i);
  }

  lemma KeysGrow(es: seq<Pair>, e: Pair)
    requires KeysAscend(es) && |e.key| >= 8 && (es != [] ==> KeyLess(LastKey(es), e.key))
    ensures KeysAscend(es + [e])
  {
    hide InternalLess;
    forall i | 0 <= i < |es| ensures InternalLess(es[i].key, e.key) {
      if i < |es| - 1 {
        InternalLessIsTransitive(es[i].key, es[|es| - 1].key, e.key);
      }
    }
  }

  /** An index key is settled once the entry after its block is known: later entries do not matter. */
  lemma SepStays(s: Spec, e: Pair, sep: Option<Bytes>, i: nat)
    requires CutUp(s) && Separated(s) && i < |s.seps| && CutUp(Added(s, e, sep))
    requires |s.seps| == |s.ends| ==> From(s, |s.ends|) < |s.entries|
    ensures SepOk(Added(s, e, sep), i)
  {
    hide Splits, KeyLess, CutUp, From;
    var t := Added(s, e, sep);
    SepSettled(s, i);
    BlockLast(s, i);
    assert t.seps[i] == s.seps[i] && t.entries[s.ends[i]] == s.entries[s.ends[i]] &&
           t.entries[s.ends[i] - 1] == s.entries[s.ends[i] - 1];
  }

  lemma SepSettled(s: Spec, i: nat)
    requires CutUp(s) && Separated(s) && i < |s.seps|
    requires |s.seps| == |s.ends| ==> From(s, |s.ends|) < |s.entries|
    ensures SepOk(s, i) && s.ends[i] < |s.entries|
  {
    hide Splits, KeyLess, SepOk, CutUp, From;
    SepIsOk(s, i);
    BlockLast(s, i);
    if i + 1 < |s.ends| {
      NextStarts(s, i);
    } else {
      FromIs(s, |s.ends|);
    }
  }

  lemma NewSep(s: Spec, e: Pair, sep: Option<Bytes>)
    requires CutUp(s) && CutUp(Added(s, e, sep)) && |s.ends| > 0 && From(s, |s.ends|) == |s.entries|
    requires |e.key| >= 8 && KeyLess(LastKeyOf(s), e.key) && |s.seps| + 1 == |s.ends| && sep.Some?
    requires sep.value == Shortened(LastKeyOf(s), Separator(UserPart(LastKeyOf(s)), UserPart(e.key)))
    ensures SepOk(Added(s, e, sep), |s.seps|)
  {
    hide Splits, Separator, Shortened, InternalLess, CutUp, From;
    var t := Added(s, e, sep);
    BlockLast(s, |s.ends| - 1);
    FromIs(s, |s.ends|);
    assert t.entries[t.ends[|s.seps|] - 1].key == LastKeyOf(s) && t.entries[t.ends[|s.seps|]].key == e.key;
    SeparatorSplits(LastKeyOf(s), e.key);
  }

  lemma AddKeepsFilters(s: Spec, length: nat, filters: seq<seq<Bytes>>, pending: seq<Bytes>, e: Pair,
                        sep: Option<Bytes>)
    requires FiltersKept(s, length, filters, pending) && |e.key| >= 8 && (sep.Some? ==> |s.seps| < |s.ends|)
    ensures FiltersKept(Added(s, e, sep), length, filters, pending + [UserPart(e.key)])
  {
    hide UserPart, InFilter, From;
    var t := Added(s, e, sep);
    StillCutUp(s, e, sep);
    FromEnds(s);
    forall i, j | 0 <= i < |t.ends| && From(t, i) <= j < t.ends[i]
      ensures EntryFiltered(t, filters, pending + [UserPart(e.key)], i, j)
    {
      assert t.ends[i] == s.ends[i] && t.entries[j] == s.entries[j] && EntryFiltered(s, filters, pending, i, j);
      if |t.entries[j].key| >= 8 {
        InMore(filters, pending, UserPart(e.key), t.handles[i].offset, UserPart(t.entries[j].key));
      }
    }
    assert (pending + [UserPart(e.key)])[|pending|] == UserPart(e.key);
  }

  lemma FromEnds(s: Spec)
    requires CutUp(s)
    ensures forall i :: 0 <= i < |s.ends| ==> From(s, i) < s.ends[i] <= |s.entries|
  {
  }

  lemma InMore(filters: seq<seq<Bytes>>, pending: seq<Bytes>, more: Bytes, offset: nat, user: Bytes)
    requires InFilter(filters, pending, offset, user)
    ensures InFilter(filters, pending + [more], offset, user)
  {
  }

  /** A block is written: its place, and where it ends. */
  function Flushed(s: Spec, h: BlockHandle): Spec {
    s.(ends := s.ends + [|s.entries|], handles := s.handles + [h])
  }

  lemma FlushKeeps(s: Spec, file: Bytes, interval: nat)
    requires Consistent(s, file, interval, false) && From(s, |s.ends|) < |s.entries|
    ensures var block := BytesOf(s.entries[From(s, |s.ends|)..], interval);
            Consistent(Flushed(s, BlockHandle(|file|, |block|)), file + block + Trailer(block), interval, true)
  {
    hide KeysAscend, BytesOf, Trailer, SepOk, BlockStored, CutUp, From;
    var block := BytesOf(s.entries[From(s, |s.ends|)..], interval);
    var t := Flushed(s, BlockHandle(|file|, |block|));
    FlushCuts(s, BlockHandle(|file|, |block|));
    forall i | 0 <= i < |t.ends| ensures BlockStored(file + block + Trailer(block), t, interval, i) {
      if i < |s.ends| {
        EarlierBlock(s, file, interval, block, i);
      } else {
        LastBlock(s, file, interval);
      }
    }
    forall i | 0 <= i < |t.seps| ensures SepOk(t, i) {
      SepFlushed(s, BlockHandle(|file|, |block|), i);
    }
  }

  lemma FlushCuts(s: Spec, h: BlockHandle)
    requires CutUp(s) && From(s, |s.ends|) < |s.entries|
    ensures CutUp(Flushed(s, h)) && From(Flushed(s, h), |s.ends| + 1) == |s.entries|
    ensures forall i :: 0 <= i <= |s.ends| ==> From(Flushed(s, h), i) == From(s, i)
  {
    hide From, CutUp;
    var t := Flushed(s, h);
    forall i | 0 <= i <= |s.ends| ensures From(t, i) == From(s, i) {
      SameFrom(s, h, i);
    }
    NewFrom(s, h);
    CutUpFlushed(s, h);
  }

  lemma SameFrom(s: Spec, h: BlockHandle, i: nat)
    requires i <= |s.ends|
    ensures From(Flushed(s, h), i) == From(s, i)
  {
  }

  lemma NewFrom(s: Spec, h: BlockHandle)
    ensures From(Flushed(s, h), |s.ends| + 1) == |s.entries|
  {
  }

  lemma CutUpFlushed(s: Spec, h: BlockHandle)
    requires CutUp(s) && From(s, |s.ends|) < |s.entries|
    ensures CutUp(Flushed(s, h))
  {
    hide From;
    var t := Flushed(s, h);
    forall i | 0 <= i < |t.ends| ensures From(t, i) < t.ends[i] <= |t.entries| {
      SameFrom(s, h, i);
      if i < |s.ends| {
        assert From(s, i) < s.ends[i] && t.ends[i] == s.ends[i];
      }
    }
  }

  lemma SepFlushed(s: Spec, h: BlockHandle, i: nat)
    requires CutUp(s) && CutUp(Flushed(s, h)) && Separated(s) && i < |s.seps|
    ensures SepOk(Flushed(s, h), i)
  {
    hide Splits, KeyLess, CutUp, From;
    SepIsOk(s, i);
    BlockLast(s, i);
  }

  lemma EarlierBlock(s: Spec, file: Bytes, interval: nat, block: Bytes, i: nat)
    requires interval >= 1 && CutUp(s) && CutUp(Flushed(s, BlockHandle(|file|, |block|))) && i < |s.ends|
    requires BlockStored(file, s, interval, i)
    ensures BlockStored(file + block + Trailer(block), Flushed(s, BlockHandle(|file|, |block|)), interval, i)
  {
    hide StoredAt, BytesOf, Trailer;
    assert BlockOf(Flushed(s, BlockHandle(|file|, |block|)), i) == BlockOf(s, i);
    StoredStays(file, block + Trailer(block), s.handles[i], BytesOf(BlockOf(s, i), interval));
    assert file + (block + Trailer(block)) == file + block + Trailer(block);
  }

  lemma LastBlock(s: Spec, file: Bytes, interval: nat)
    requires interval >= 1 && CutUp(s) && From(s, |s.ends|) < |s.entries|
    ensures var block := BytesOf(s.entries[From(s, |s.ends|)..], interval);
            && CutUp(Flushed(s, BlockHandle(|file|, |block|)))
            && BlockStored(file + block + Trailer(block), Flushed(s, BlockHandle(|file|, |block|)), interval, |s.ends|)
  {
    hide StoredAt, BytesOf, Trailer;
    var block := BytesOf(s.entries[From(s, |s.ends|)..], interval);
    FlushCuts(s, BlockHandle(|file|, |block|));
    StoredLast(file, block);
    assert BlockOf(Flushed(s, BlockHandle(|file|, |block|)), |s.ends|) == s.entries[From(s, |s.ends|)..];
  }

  lemma FlushKeepsFilters(s: Spec, length: nat, filters: seq<seq<Bytes>>, pending: seq<Bytes>, h: BlockHandle,
                          length1: nat, filters1: seq<seq<Bytes>>, pending1: seq<Bytes>)
    requires FiltersKept(s, length, filters, pending) && From(s, |s.ends|) < |s.entries| && h.offset == length
    requires |filters1| == length1 / FILTER_BASE
    requires if |filters1| == |filters| then filters1 == filters && pending1 == pending
             else pending1 == [] && filters + [pending] <= filters1
    ensures FiltersKept(Flushed(s, h), length1, filters1, pending1)
  {
    hide UserPart, InFilter, From;
    var t := Flushed(s, h);
    FlushCuts(s, h);
    forall i, j | 0 <= i < |t.ends| && From(t, i) <= j < t.ends[i] ensures EntryFiltered(t, filters1, pending1, i, j) {
      if |t.entries[j].key| >= 8 {
        if i < |s.ends| {
          assert EntryFiltered(s, filters, pending, i, j);
        } else {
          InPending(filters, pending, length, UserPart(t.entries[j].key));
        }
        InLater(filters, pending, filters1, pending1, t.handles[i].offset, UserPart(t.entries[j].key));
      }
    }
  }

  lemma InPending(filters: seq<seq<Bytes>>, pending: seq<Bytes>, offset: nat, user: Bytes)
    requires |filters| == offset / FILTER_BASE && user in pending
    ensures InFilter(filters, pending, offset, user)
  {
  }

  lemma InLater(filters: seq<seq<Bytes>>, pending: seq<Bytes>, filters1: seq<seq<Bytes>>, pending1: seq<Bytes>,
                offset: nat, user: Bytes)
    requires InFilter(filters, pending, offset, user)
    requires if |filters1| == |filters| then filters1 == filters && pending1 == pending
             else pending1 == [] && filters + [pending] <= filters1
    ensures InFilter(filters1, pending1, offset, user)
  {
    var index := offset / FILTER_BASE;
    if |filters1| != |filters| {
      assert (filters + [pending])[index] == filters1[index];
    }
  }

  // --- The finished file ---

  datatype FilterPart = FilterPart(handle: BlockHandle, contents: Bytes)

  /** Where the parts of the file besides the data blocks are. */
  datatype Parts = Parts(index: BlockHandle, metaindex: BlockHandle, filter: Option<FilterPart>)

  function MetaEntries(filterName: Bytes, filter: Option<FilterPart>): seq<Pair> {
    if filter.Some? then [Pair(filterName, EncodeHandle(filter.value.handle))] else []
  }

  /** All entries are in blocks, and all blocks but perhaps the last have index keys. */
  ghost predicate Settled(s: Spec, waiting: bool)
    ensures Settled(s, waiting) ==> CutUp(s)
  {
    && CutUp(s) && KeysAscend(s.entries) && Separated(s) && From(s, |s.ends|) == |s.entries|
    && |s.seps| + (if waiting then 1 else 0) == |s.ends|
  }

  ghost predicate IsTable(file: Bytes, s: Spec, interval: nat, filterName: Bytes, parts: Parts) {
    && interval >= 1 && Settled(s, false) && BlocksStored(file, s, interval)
    && StoredAt(file, parts.index, BytesOf(IndexEntries(s.seps, s.handles), 1))
    && StoredAt(file, parts.metaindex, BytesOf(MetaEntries(filterName, parts.filter), interval))
    && (parts.filter.Some? ==> StoredAt(file, parts.filter.value.handle, parts.filter.value.contents))
    && |file| >= FOOTER_LENGTH && file[|file| - FOOTER_LENGTH..] == Footer(parts.metaindex, parts.index)
  }

  /** The filter block matches every entry's user key at the offset of its block. */
  ghost predicate FilterGood(contents: Bytes, s: Spec, hash: Bytes -> nat) {
    CutUp(s) && (|contents| < LIMIT32 ==>
      forall i, j :: 0 <= i < |s.ends| && From(s, i) <= j < s.ends[i] ==> EntryMayMatch(contents, s, hash, i, j))
  }

  ghost predicate EntryMayMatch(contents: Bytes, s: Spec, hash: Bytes -> nat, i: nat, j: nat)
    requires i < |s.handles| && j < |s.entries|
  {
    |s.entries[j].key| >= 8 ==> FilterMayMatch(contents, s.handles[i].offset, UserPart(s.entries[j].key), hash)
  }

  lemma FiltersAreGood(s: Spec, length: nat, filters: seq<seq<Bytes>>, pending: seq<Bytes>, filters1: seq<seq<Bytes>>,
                       contents: Bytes, hash: Bytes -> nat)
    requires FiltersKept(s, length, filters, pending)
    requires filters1 == if pending == [] then filters else filters + [pending]
    requires |contents| < LIMIT32 ==>
             forall b: nat, key :: b / FILTER_BASE < |filters1| && key in filters1[b / FILTER_BASE] ==>
               FilterMayMatch(contents, b, key, hash)
    ensures FilterGood(contents, s, hash)
  {
    hide FilterMayMatch, UserPart, From;
    if |contents| < LIMIT32 {
      forall i, j | 0 <= i < |s.ends| && From(s, i) <= j < s.ends[i] ensures EntryMayMatch(contents, s, hash, i, j) {
        assert EntryFiltered(s, filters, pending, i, j);
      }
    }
  }

  lemma AllFlushed(s: Spec, file: Bytes, interval: nat, waiting: bool)
    requires Consistent(s, file, interval, waiting) && From(s, |s.ends|) == |s.entries|
    ensures interval >= 1 && Settled(s, waiting) && BlocksStored(file, s, interval)
  {
    hide KeysAscend, Separated, BlocksStored;
  }

  lemma LastSep(s: Spec)
    requires Settled(s, true)
    ensures |LastKeyOf(s)| >= 8
    ensures Settled(s.(seps := s.seps + [Shortened(LastKeyOf(s), Successor(UserPart(LastKeyOf(s))))]), false)
  {
    hide Shortened, SepOk, KeyLess, UserPart, Successor, KeysAscend, CutUp, From;
    LastIsLong(s);
    var sep := Shortened(LastKeyOf(s), Successor(UserPart(LastKeyOf(s))));
    var t := s.(seps := s.seps + [sep]);
    OneMoreSep(s, sep);
    forall i | 0 <= i < |t.seps| ensures SepOk(t, i) {
      if i < |s.seps| {
        SepBefore(s, sep, i);
      } else {
        SuccessorSep(s);
      }
    }
  }

  lemma SepBefore(s: Spec, sep: Bytes, i: nat)
    requires CutUp(s) && Separated(s) && i < |s.seps| && CutUp(s.(seps := s.seps + [sep]))
    ensures SepOk(s.(seps := s.seps + [sep]), i)
  {
    hide Splits, KeyLess, CutUp, From;
    SepIsOk(s, i);
    BlockLast(s, i);
  }

  lemma SuccessorSep(s: Spec)
    requires CutUp(s) && |s.ends| > 0 && From(s, |s.ends|) == |s.entries| && |LastKeyOf(s)| >= 8
    requires |s.seps| + 1 == |s.ends|
    ensures var t := s.(seps := s.seps + [Shortened(LastKeyOf(s), Successor(UserPart(LastKeyOf(s))))]);
            CutUp(t) && SepOk(t, |s.seps|)
  {
    hide Shortened, Splits, InternalLess, UserPart, Successor, CutUp, From;
    var sep := Shortened(LastKeyOf(s), Successor(UserPart(LastKeyOf(s))));
    InternalSuccessorIsAbove(LastKeyOf(s));
    OneMoreSep(s, sep);
    BlockLast(s, |s.ends| - 1);
    FromIs(s, |s.ends|);
    assert LastKeyOf(s) == s.entries[s.ends[|s.seps|] - 1].key;
  }

  lemma OneMoreSep(s: Spec, sep: Bytes)
    requires CutUp(s) && |s.seps| < |s.ends|
    ensures CutUp(s.(seps := s.seps + [sep]))
    ensures From(s.(seps := s.seps + [sep]), |s.ends|) == From(s, |s.ends|)
  {
  }

  lemma LastIsLong(s: Spec)
    requires Settled(s, true)
    ensures |s.ends| > 0 && |s.entries| > 0 && |LastKeyOf(s)| >= 8
  {
    hide Separated, InternalLess;
    BlockLast(s, |s.ends| - 1);
  }

  lemma BlocksStay(s: Spec, file: Bytes, more: Bytes, interval: nat)
    requires interval >= 1 && CutUp(s) && BlocksStored(file, s, interval)
    ensures BlocksStored(file + more, s, interval)
  {
    hide StoredAt, BytesOf;
    forall i | 0 <= i < |s.ends| ensures BlockStored(file + more, s, interval, i) {
      assert BlockStored(file, s, interval, i);
      StoredStays(file, more, s.handles[i], BytesOf(BlockOf(s, i), interval));
    }
  }

  lemma IndexAgrees(s: Spec, data: seq<Pair>, index: seq<Pair>, lastKey: Bytes, waiting: bool, handle: BlockHandle)
    requires Agrees(s, data, index, lastKey, waiting, handle)
    ensures CutUp(s) && index == IndexEntries(s.seps, s.handles) && lastKey == LastKeyOf(s)
    ensures waiting ==> s.handles != [] && handle == s.handles[|s.handles| - 1]
  {
  }

  /** The last index key changes neither the blocks nor what the filter matches. */
  lemma SameBlocks(s: Spec, t: Spec, file: Bytes, interval: nat)
    requires interval >= 1 && CutUp(s) && CutUp(t) && BlocksStored(file, s, interval) && t == s.(seps := t.seps)
    ensures BlocksStored(file, t, interval)
  {
    hide StoredAt, BytesOf;
    forall i | 0 <= i < |t.ends| ensures BlockStored(file, t, interval, i) {
      assert BlockStored(file, s, interval, i) && BlockOf(t, i) == BlockOf(s, i);
    }
  }

  lemma SameFilter(s: Spec, t: Spec, contents: Bytes, hash: Bytes -> nat)
    requires FilterGood(contents, s, hash) && CutUp(t) && t == s.(seps := t.seps)
    ensures FilterGood(contents, t, hash)
  {
    hide FilterMayMatch, UserPart;
    if |contents| < LIMIT32 {
      forall i, j | 0 <= i < |t.ends| && From(t, i) <= j < t.ends[i] ensures EntryMayMatch(contents, t, hash, i, j) {
        assert EntryMayMatch(contents, s, hash, i, j);
      }
    }
  }

  /** The pieces of the file, each written after the one before. */
  lemma Assembled(s: Spec, data: Bytes, filtered: Bytes, described: Bytes, indexed: Bytes, file: Bytes, interval: nat,
                  filterName: Bytes, parts: Parts, index: seq<Pair>)
    requires interval >= 1 && Settled(s, false) && BlocksStored(data, s, interval)
    requires index == IndexEntries(s.seps, s.handles)
    requires data <= filtered <= described <= indexed && file == indexed + Footer(parts.metaindex, parts.index)
    requires parts.filter.Some? ==> StoredAt(filtered, parts.filter.value.handle, parts.filter.value.contents)
    requires StoredAt(described, parts.metaindex, BytesOf(MetaEntries(filterName, parts.filter), interval))
    requires StoredAt(indexed, parts.index, BytesOf(index, 1))
    ensures IsTable(file, s, interval, filterName, parts)
  {
    hide StoredAt, BytesOf, BlocksStored, Settled, EncodeHandle;
    var footer := Footer(parts.metaindex, parts.index);
    FooterLength(parts.metaindex, parts.index);
    Tails(data, filtered, file);
    Tails(filtered, described, file);
    Tails(described, indexed, file);
    assert file == indexed + footer && file[|file| - FOOTER_LENGTH..] == footer;
    BlocksStay(s, data, file[|data|..], interval);
    if parts.filter.Some? {
      StoredStays(filtered, file[|filtered|..], parts.filter.value.handle, parts.filter.value.contents);
    }
    StoredStays(described, file[|described|..], parts.metaindex,
                BytesOf(MetaEntries(filterName, parts.filter), interval));
    StoredStays(indexed, footer, parts.index, BytesOf(index, 1));
  }

  lemma Tails(a: Bytes, b: Bytes, all: Bytes)
    requires a <= b <= all
    ensures a <= all && all == a + all[|a|..] && all == b + all[|b|..]
  {
  }

  lemma FooterLength(m: BlockHandle, i: BlockHandle)
    ensures |Footer(m, i)| == FOOTER_LENGTH
  {
    hide EncodeHandle, Fixed;
  }

  // --- TableBuilder ---

  /** What the builders, the last key and the pending handle hold. */
  ghost predicate Agrees(s: Spec, data: seq<Pair>, index: seq<Pair>, lastKey: Bytes, waiting: bool,
                         handle: BlockHandle) {
    && CutUp(s) && From(s, |s.ends|) <= |s.entries|
    && data == s.entries[From(s, |s.ends|)..] && index == IndexEntries(s.seps, s.handles)
    && lastKey == LastKeyOf(s) && (waiting ==> s.handles != [] && handle == s.handles[|s.handles| - 1])
  }

  lemma AddAgrees(s: Spec, data: seq<Pair>, index: seq<Pair>, lastKey: Bytes, waiting: bool, handle: BlockHandle,
                  e: Pair, sep: Option<Bytes>, index1: seq<Pair>)
    requires Agrees(s, data, index, lastKey, waiting, handle) && (sep.Some? <==> waiting)
    requires |s.seps| + (if waiting then 1 else 0) == |s.ends|
    requires index1 == if sep.Some? then index + [Pair(sep.value, EncodeHandle(handle))] else index
    ensures Agrees(Added(s, e, sep), data + [e], index1, e.key, false, handle)
    ensures Added(s, e, sep).entries == s.entries + [e]
  {
    hide EncodeHandle;
    AddedParts(s, e, sep);
    if sep.Some? {
      IndexGrows(s, sep.value);
    }
  }

  lemma FlushAgrees(s: Spec, data: seq<Pair>, index: seq<Pair>, lastKey: Bytes, handle: BlockHandle, h: BlockHandle)
    requires Agrees(s, data, index, lastKey, false, handle) && data != []
    requires |s.seps| == |s.ends|
    ensures From(s, |s.ends|) < |s.entries| && data == s.entries[From(s, |s.ends|)..]
    ensures Agrees(Flushed(s, h), [], index, lastKey, true, h)
    ensures From(Flushed(s, h), |Flushed(s, h).ends|) == |s.entries|
  {
    FlushCuts(s, h);
  }

  lemma LastKeyAgrees(s: Spec, data: seq<Pair>, index: seq<Pair>, lastKey: Bytes, waiting: bool, handle: BlockHandle)
    requires Agrees(s, data, index, lastKey, waiting, handle)
    ensures lastKey == LastKeyOf(s)
  {
  }

  lemma DataAgreesWith(s: Spec, data: seq<Pair>, index: seq<Pair>, lastKey: Bytes, waiting: bool, handle: BlockHandle)
    requires Agrees(s, data, index, lastKey, waiting, handle)
    ensures CutUp(s) && From(s, |s.ends|) <= |s.entries| && data == s.entries[From(s, |s.ends|)..]
    ensures data == [] <==> From(s, |s.ends|) == |s.entries|
  {
  }

  lemma NothingYet(interval: nat)
    requires interval >= 1
    ensures Consistent(Spec([], [], [], []), [], interval, false)
    ensures Agrees(Spec([], [], [], []), [], [], [], false, BlockHandle(0, 0))
    ensures FiltersKept(Spec([], [], [], []), 0, [], [])
  {
  }

  lemma FiltersShape(s: Spec, length: nat, filters: seq<seq<Bytes>>, pending: seq<Bytes>)
    requires FiltersKept(s, length, filters, pending)
    ensures |filters| == length / FILTER_BASE
  {
  }

  class TableBuilder {
    const blockSize: nat
    const interval: nat
    const useFilter: bool                    // whether a filter policy is set
    const dataBlock: BlockBuilder
    const indexBlock: BlockBuilder
    const filterBlock: FilterBlockBuilder
    var file: Bytes                          // what has been written; its length is offset
    var lastKey: Bytes
    var closed: bool
    var pendingIndexEntry: bool
    var pendingHandle: BlockHandle
    ghost var spec: Spec

    ghost predicate Filled()
      reads this, dataBlock, indexBlock
    {
      && dataBlock != indexBlock && dataBlock.Valid() && indexBlock.Valid()
      && dataBlock.interval == interval && indexBlock.interval == 1
      && Consistent(spec, file, interval, pendingIndexEntry)
      && Agrees(spec, dataBlock.entries, indexBlock.entries, lastKey, pendingIndexEntry, pendingHandle)
    }

    /** While entries may still be added. */
    ghost predicate Valid()
      reads this, dataBlock, indexBlock, filterBlock
    {
      && Filled() && !closed && !dataBlock.finished && !indexBlock.finished && filterBlock.Valid()
      && (useFilter ==> FiltersKept(spec, |file|, filterBlock.filters, filterBlock.pending))
    }

    constructor (blockSize: nat, interval: nat, useFilter: bool, bitsPerKey: nat, probes: nat, hash: Bytes -> nat)
      requires interval >= 1 && 1 <= probes <= 30
      ensures Valid() && spec.entries == [] && fresh(dataBlock) && fresh(indexBlock) && fresh(filterBlock)
      ensures this.interval == interval && this.useFilter == useFilter && filterBlock.hash == hash
    {
      hide Consistent, Agrees, FiltersKept, BlockBuilder.Valid, FilterBlockBuilder.Valid;
      this.blockSize, this.interval, this.useFilter := blockSize, interval, useFilter;
      dataBlock := new BlockBuilder(interval);
      indexBlock := new BlockBuilder(1);
      filterBlock := new FilterBlockBuilder(bitsPerKey, probes, hash);
      file, lastKey, closed, pendingIndexEntry, pendingHandle := [], [], false, false, BlockHandle(0, 0);
      spec := Spec([], [], [], []);
      new;
      if useFilter {
        filterBlock.StartBlock(0);
      }
      NothingYet(interval);
    }

    /** The index key between the last block and the next key. */
    method AddIndexEntry(key: Bytes) returns (sep: Bytes)
      requires Valid() && pendingIndexEntry && |key| >= 8 && |lastKey| >= 8
      modifies indexBlock
      ensures sep == Shortened(lastKey, Separator(UserPart(lastKey), UserPart(key)))
      ensures indexBlock.Valid() && !indexBlock.finished
      ensures indexBlock.entries == old(indexBlock.entries) + [Pair(sep, EncodeHandle(pendingHandle))]
    {
      hide Consistent, FiltersKept, BlockBuilder.Valid, FilterBlockBuilder.Valid, EncodeHandle;
      sep := FindInternalSeparator(lastKey, key);
      indexBlock.Add(sep, EncodeHandle(pendingHandle));
    }

    method Add(key: Bytes, value: Bytes)
      requires Valid() && |key| >= 8 && (spec.entries != [] ==> KeyLess(lastKey, key))
      modifies this, dataBlock, indexBlock, filterBlock
      ensures Valid() && spec.entries == old(spec.entries) + [Pair(key, value)]
    {
      hide Consistent, FiltersKept, BlockBuilder.Valid, FilterBlockBuilder.Valid, Agrees;
      AddToBlock(key, value);
      var estimatedBlockSize := |dataBlock.buffer| + 4 * |dataBlock.restarts| + 4;
      if estimatedBlockSize >= blockSize {
        Flush();
      }
    }

    /** Everything Add does before it may flush. */
    method AddToBlock(key: Bytes, value: Bytes)
      requires Valid() && |key| >= 8 && (spec.entries != [] ==> KeyLess(lastKey, key))
      modifies this, dataBlock, indexBlock, filterBlock
      ensures Valid() && spec.entries == old(spec.entries) + [Pair(key, value)]
    {
      hide Consistent, FiltersKept, BlockBuilder.Valid, FilterBlockBuilder.Valid, EncodeHandle, Added, KeyLess, Agrees,
           From;
      ghost var e := Pair(key, value);
      ghost var sep: Option<Bytes> := None;
      SpecShape(spec, file, interval, pendingIndexEntry);
      LastKeyAgrees(spec, dataBlock.entries, indexBlock.entries, lastKey, pendingIndexEntry, pendingHandle);
      ghost var index := indexBlock.entries;
      if pendingIndexEntry {
        LastKeyIsLong(spec, file, interval);
        var s := AddIndexEntry(key);
        sep := Some(s);
      }
      AddKeeps(spec, file, interval, pendingIndexEntry, e, sep);
      AddAgrees(spec, dataBlock.entries, index, lastKey, pendingIndexEntry, pendingHandle, e, sep, indexBlock.entries);
      pendingIndexEntry := false;
      if useFilter {
        AddKeepsFilters(spec, |file|, filterBlock.filters, filterBlock.pending, e, sep);
        filterBlock.AddKey(UserPart(key));   // the filter policy looks at user keys only
      }
      lastKey := key;
      dataBlock.Add(key, value);
      spec := Added(spec, e, sep);
    }

    method Flush()
      requires Valid()
      modifies this, dataBlock, filterBlock
      ensures Valid() && spec.entries == old(spec.entries)
      ensures From(spec, |spec.ends|) == |spec.entries|
    {
      hide Consistent, FiltersKept, BlockBuilder.Valid, FilterBlockBuilder.Valid, BytesOf, Agrees, From;
      SpecShape(spec, file, interval, pendingIndexEntry);
      EmptyBuilder(dataBlock);
      DataAgreesWith(spec, dataBlock.entries, indexBlock.entries, lastKey, pendingIndexEntry, pendingHandle);
      if |dataBlock.buffer| == 0 {
        return;
      }
      FlushToFile();
      if useFilter {
        filterBlock.StartBlock(|file|);
        FlushKeepsFilters(old(spec), |old(file)|, old(filterBlock.filters), old(filterBlock.pending), pendingHandle,
                          |file|,
                          filterBlock.filters, filterBlock.pending);
      }
    }

    /** The block goes to the file. */
    method FlushToFile()
      requires Valid() && dataBlock.entries != []
      modifies this, dataBlock
      ensures Filled() && !closed && !dataBlock.finished
      ensures pendingHandle.offset == |old(file)| && spec == Flushed(old(spec), pendingHandle) && |file| >= |old(file)|
      ensures CutUp(old(spec)) && From(old(spec), |old(spec).ends|) < |old(spec).entries|
      ensures From(spec, |spec.ends|) == |spec.entries|
      ensures useFilter ==> |filterBlock.filters| <= |file| / FILTER_BASE
    {
      hide Consistent, FiltersKept, BlockBuilder.Valid, FilterBlockBuilder.Valid, BytesOf, Agrees, From, Trailer;
      SpecShape(spec, file, interval, pendingIndexEntry);
      DataAgreesWith(spec, dataBlock.entries, indexBlock.entries, lastKey, pendingIndexEntry, pendingHandle);
      ghost var data, length, handle := dataBlock.entries, |file|, pendingHandle;
      FlushKeeps(spec, file, interval);
      pendingHandle := WriteBlock(dataBlock);
      FlushAgrees(spec, data, indexBlock.entries, lastKey, handle, pendingHandle);
      spec := Flushed(spec, pendingHandle);
      pendingIndexEntry := true;
      if useFilter {
        FiltersShape(old(spec), length, filterBlock.filters, filterBlock.pending);
        FilterRoom(length, |file|);
      }
    }

    /** The rest of the file: filter block, metaindex block, index block, footer. */
    method Finish(filterName: Bytes) returns (ghost parts: Parts)
      requires Valid()
      modifies this, dataBlock, indexBlock, filterBlock
      ensures closed && spec.entries == old(spec.entries)
      ensures IsTable(file, spec, interval, filterName, parts)
      ensures parts.filter.Some? <==> useFilter
      ensures useFilter ==> FilterGood(parts.filter.value.contents, spec, filterBlock.hash)
    {
      hide Consistent, FiltersKept, BlockBuilder.Valid, FilterBlockBuilder.Valid, BytesOf, Agrees, From, BlocksStored,
           FilterGood, StoredAt, EncodeHandle, Footer, Separated, KeysAscend, Settled, Trailer, MetaEntries;
      Flush();
      closed := true;
      AllFlushed(spec, file, interval, pendingIndexEntry);
      IndexAgrees(spec, dataBlock.entries, indexBlock.entries, lastKey, pendingIndexEntry, pendingHandle);
      ghost var flushed := spec;
      ghost var data := file;
      var metaEntries, filter := WriteFilter(filterName);
      ghost var filtered := file;
      var metaindexHandle := WriteMetaindex(metaEntries);
      ghost var described := file;
      StoredLast(filtered, BytesOf(metaEntries, interval));
      if pendingIndexEntry {
        AddLastIndexEntry();
      }
      ghost var index := indexBlock.entries;
      var indexHandle := WriteBlock(indexBlock);
      StoredLast(described, BytesOf(index, 1));
      ghost var indexed := file;
      file := file + Footer(metaindexHandle, indexHandle);
      parts := Parts(indexHandle, metaindexHandle, filter);
      SameBlocks(flushed, spec, data, interval);
      if useFilter {
        SameFilter(flushed, spec, filter.value.contents, filterBlock.hash);
      }
      Assembled(spec, data, filtered, described, indexed, file, interval, filterName, parts, index);
    }

    method WriteFilter(filterName: Bytes) returns (metaEntries: seq<Pair>, ghost filter: Option<FilterPart>)
      requires filterBlock.Valid()
      requires (useFilter ==> FiltersKept(spec, |file|, filterBlock.filters, filterBlock.pending))
      modifies `file, filterBlock
      ensures metaEntries == MetaEntries(filterName, filter) && old(file) <= file && (filter.Some? <==> useFilter)
      ensures useFilter ==> && StoredAt(file, filter.value.handle, filter.value.contents)
                            && FilterGood(filter.value.contents, spec, filterBlock.hash)
    {
      hide FiltersKept, FilterBlockBuilder.Valid, FilterGood, StoredAt, EncodeHandle, Trailer;
      filter := None;
      metaEntries := [];
      if useFilter {
        ghost var before, filters, pending := file, filterBlock.filters, filterBlock.pending;
        var contents := filterBlock.Finish();
        FiltersAreGood(spec, |file|, filters, pending, filterBlock.filters, contents, filterBlock.hash);
        var filterHandle := WriteRawBlock(contents);
        StoredLast(before, contents);
        filter := Some(FilterPart(filterHandle, contents));
        metaEntries := [Pair(filterName, EncodeHandle(filterHandle))];
      }
    }

    /** The block that names the filter block, if there is one. */
    method WriteMetaindex(metaEntries: seq<Pair>) returns (handle: BlockHandle)
      requires interval >= 1
      modifies `file
      ensures var bytes := BytesOf(metaEntries, interval);
              && handle == BlockHandle(|old(file)|, |bytes|) && file == old(file) + bytes + Trailer(bytes)
    {
      hide BytesOf, Trailer, BlockBuilder.Valid;
      var metaIndexBlock := new BlockBuilder(interval);
      for i := 0 to |metaEntries|
        invariant metaIndexBlock.Valid() && !metaIndexBlock.finished && metaIndexBlock.interval == interval
        invariant fresh(metaIndexBlock) && metaIndexBlock.entries == metaEntries[..i] && file == old(file)
      {
        metaIndexBlock.Add(metaEntries[i].key, metaEntries[i].value);
      }
      assert metaEntries[..|metaEntries|] == metaEntries;
      handle := WriteBlock(metaIndexBlock);
    }

    /** Nothing follows the last block: its index key is a short successor of its last key. */
    method AddLastIndexEntry()
      requires indexBlock.Valid() && !indexBlock.finished && pendingIndexEntry && interval >= 1
      requires Settled(spec, true) && indexBlock.entries == IndexEntries(spec.seps, spec.handles)
      requires lastKey == LastKeyOf(spec) && spec.handles != [] && pendingHandle == spec.handles[|spec.handles| - 1]
      modifies `lastKey, `pendingIndexEntry, `spec, indexBlock
      ensures indexBlock.Valid()
      ensures Settled(spec, false) && indexBlock.entries == IndexEntries(spec.seps, spec.handles)
      ensures spec == old(spec).(seps := spec.seps)
    {
      hide BlockBuilder.Valid, EncodeHandle;
      LastSep(spec);
      lastKey := FindInternalSuccessor(lastKey);
      indexBlock.Add(lastKey, EncodeHandle(pendingHandle));
      IndexGrows(spec, lastKey);
      spec := spec.(seps := spec.seps + [lastKey]);
      pendingIndexEntry := false;
    }

    /** Writes a finished block with its trailer, and empties the builder. */
    method WriteBlock(block: BlockBuilder) returns (handle: BlockHandle)
      requires block.Valid()
      modifies `file, block
      ensures block.Valid() && block.entries == [] && !block.finished
      ensures var bytes := BytesOf(old(block.entries), block.interval);
              && handle == BlockHandle(|old(file)|, |bytes|) && file == old(file) + bytes + Trailer(bytes)
    {
      hide Trailer, BlockBytes;
      var raw := block.Finish();
      handle := WriteRawBlock(raw);
      block.Reset();
    }

    method WriteRawBlock(contents: Bytes) returns (handle: BlockHandle)
      modifies `file
      ensures handle == BlockHandle(|old(file)|, |contents|) && file == old(file) + contents + Trailer(contents)
    {
      hide Crc.Crc, Crc.Mask, Crc.Fixed32;
      handle := BlockHandle(|file|, |contents|);
      file := file + contents;
      var crc := Crc.Extend(0, contents, 0);
      crc := Crc.Extend(crc, [NO_COMPRESSION], 0);   // cover the block type
      file := file + ([NO_COMPRESSION] + Crc.Fixed32(Crc.Mask(crc)));
    }
  }

  lemma SpecShape(s: Spec, file: Bytes, interval: nat, waiting: bool)
    requires Consistent(s, file, interval, waiting)
    ensures interval >= 1 && CutUp(s) && From(s, |s.ends|) <= |s.entries|
    ensures |s.seps| + (if waiting then 1 else 0) == |s.ends|
    ensures waiting ==> From(s, |s.ends|) == |s.entries| && |s.entries| > 0
  {
    hide KeysAscend, BlocksStored, Separated;
  }

  lemma LastKeyIsLong(s: Spec, file: Bytes, interval: nat)
    requires Consistent(s, file, interval, true)
    ensures |LastKeyOf(s)| >= 8
  {
    hide BlocksStored, Separated;
  }

  lemma IndexGrows(s: Spec, sep: Bytes)
    requires |s.seps| + 1 == |s.handles|
    ensures IndexEntries(s.seps + [sep], s.handles) ==
            IndexEntries(s.seps, s.handles) + [Pair(sep, EncodeHandle(s.handles[|s.handles| - 1]))]
  {
    hide EncodeHandle;
  }

  lemma AddedParts(s: Spec, e: Pair, sep: Option<Bytes>)
    requires CutUp(s) && From(s, |s.ends|) <= |s.entries| && (sep.Some? ==> |s.seps| < |s.ends|)
    ensures var t := Added(s, e, sep);
            && t.entries == s.entries + [e] && LastKeyOf(t) == e.key && |t.ends| == |s.ends| && CutUp(t)
            && t.entries[From(t, |t.ends|)..] == s.entries[From(s, |s.ends|)..] + [e]
            && t.handles == s.handles && t.seps == (if sep.Some? then s.seps + [sep.value] else s.seps)
            && From(t, |t.ends|) == From(s, |s.ends|)
  {
    StillCutUp(s, e, sep);
  }

  lemma EmptyBuilder(b: BlockBuilder)
    requires b.Valid()
    ensures |b.buffer| == 0 <==> b.entries == []
  {
    hide EncodeEntry, SharesOf, RestartsOf, Counter, Sound;
    DataPrefix(Built(b.entries, b.interval), 0, |b.entries|);
  }

  lemma FilterRoom(length: nat, length1: nat)
    requires length <= length1
    ensures length / FILTER_BASE <= length1 / FILTER_BASE
  {
  }
}
