/** db/memtable.cc: entries as byte buffers in a skip list, and lookups in it. The list is taken as what
    `SkipLists` shows it to be: the buffers in the comparator's order. */
module MemTables {
  import opened Bytes
  import opened Coding
  import opened Comparator
  import opened DbFormat
  import Lsm

  datatype Entry = Entry(user: Bytes, sequence: nat, kind: Lsm.Kind, value: Bytes)

  /** What Get tells its caller: nothing about the key, that it is deleted, or its value. */
  datatype Answer = Unknown | Deleted | Value(value: Bytes)

  function InternalKey(e: Entry): (r: Bytes)
    ensures |r| == |e.user| + 8
  {
    Encode(e.user, e.sequence, e.kind)
  }

  function Buffer(e: Entry): Bytes {
    Prefixed(InternalKey(e)) + Prefixed(e.value)
  }

  /** Sizes that the length prefixes can hold. */
  ghost predicate Small(e: Entry) {
    |e.user| + 8 < LIMIT32 && |e.value| < LIMIT32 && e.sequence <= Lsm.MAX_SEQUENCE
  }

  /** MemTable::KeyComparator: the length-prefixed keys that the buffers begin with. */
  predicate BufferLess(a: Bytes, b: Bytes) {
    var x, y := UnPrefixed(a), UnPrefixed(b);
    x.Got? && y.Got? && KeyLess(x.value, y.value)
  }

  lemma BufferParses(e: Entry)
    requires Small(e)
    ensures UnPrefixed(Buffer(e)) == Got(InternalKey(e), Prefixed(e.value))
    ensures UnVarint32(Buffer(e)) == Got(|e.user| + 8, InternalKey(e) + Prefixed(e.value))
    ensures UnPrefixed(Prefixed(e.value)) == Got(e.value, [])
  {
    hide UnVarint32, Varint, Encode;
    var key, tail := InternalKey(e), Prefixed(e.value);
    Varint32RoundTrip(|key|, key + tail);
    assert Buffer(e) == Varint(|key|) + (key + tail);
    PrefixedRoundTrip(key, tail);
    PrefixedRoundTrip(e.value, []);
    assert Prefixed(e.value) + [] == Prefixed(e.value);
  }

  /** Buffers compare as the internal keys in them. */
  lemma BufferOrder(e: Entry, f: Entry)
    requires Small(e) && Small(f)
    ensures BufferLess(Buffer(e), Buffer(f)) <==> InternalLess(InternalKey(e), InternalKey(f))
  {
    hide Buffer, UnPrefixed, InternalKey, InternalLess;
    BufferParses(e);
    BufferParses(f);
  }

  lemma LookupOrder(e: Entry, user: Bytes, snapshot: nat)
    requires Small(e) && |user| + 8 < LIMIT32
    ensures BufferLess(Buffer(e), LookupBuffer(user, snapshot)) <==>
            InternalLess(InternalKey(e), Encode(user, snapshot, Lsm.Put))
  {
    hide Buffer, UnPrefixed, InternalKey, Encode, InternalLess, LookupBuffer;
    BufferParses(e);
    LookupBufferParses(user, snapshot, []);
    assert LookupBuffer(user, snapshot) + [] == LookupBuffer(user, snapshot);
  }

  ghost predicate Ordered(es: seq<Entry>) {
    && (forall i :: 0 <= i < |es| ==> Small(es[i]))
    && (forall i, j :: 0 <= i < j < |es| ==> InternalLess(InternalKey(es[i]), InternalKey(es[j])))
  }

  /** Entry `i` is what a reader of `user` at `snapshot` sees: no other visible entry is newer. */
  ghost predicate Newest(es: seq<Entry>, user: Bytes, snapshot: nat, i: nat) {
    && i < |es| && Sees(es[i], user, snapshot)
    && forall j :: 0 <= j < |es| && Sees(es[j], user, snapshot) ==> es[j].sequence <= es[i].sequence
  }

  function Shows(e: Entry): Answer {
    if e.kind.Put? then Value(e.value) else Deleted
  }

  ghost predicate Sees(e: Entry, user: Bytes, snapshot: nat) {
    e.user == user && e.sequence <= snapshot
  }

  /** Index `p` is where a search for a lookup key ends. */
  ghost predicate Lands(es: seq<Entry>, user: Bytes, snapshot: nat, p: nat) {
    && p <= |es|
    && (forall i :: 0 <= i < p ==> InternalLess(InternalKey(es[i]), Encode(user, snapshot, Lsm.Put)))
    && (p < |es| ==> !InternalLess(InternalKey(es[p]), Encode(user, snapshot, Lsm.Put)))
  }

  lemma SameUserOrder(e: Entry, f: Entry)
    requires Small(e) && Small(f) && InternalLess(InternalKey(e), InternalKey(f))
    ensures e.user == f.user ==> e.sequence >= f.sequence
    ensures e.user == f.user || Less(e.user, f.user)
  {
    hide Encode, UserPart, TagPart;
    Parts(e.user, e.sequence, e.kind);
    Parts(f.user, f.sequence, f.kind);
    LessIsStrict(e.user, f.user);
  }

  lemma AtOrAfterLookup(e: Entry, user: Bytes, snapshot: nat)
    requires Small(e) && snapshot <= Lsm.MAX_SEQUENCE && !InternalLess(InternalKey(e), Encode(user, snapshot, Lsm.Put))
    ensures e.user == user || Less(user, e.user)
    ensures e.user == user ==> e.sequence <= snapshot
  {
    hide Encode, UserPart, TagPart;
    Parts(e.user, e.sequence, e.kind);
    Parts(user, snapshot, Lsm.Put);
    LessIsTotal(e.user, user);
    if e.user == user {
      LookupKeySplits(user, snapshot, e.sequence, e.kind);
    }
  }

  /** The search ends on the newest visible entry of the user key, or on no entry of it at all. */
  lemma LandsOnNewest(es: seq<Entry>, user: Bytes, snapshot: nat, p: nat)
    requires Ordered(es) && snapshot <= Lsm.MAX_SEQUENCE && Lands(es, user, snapshot, p)
    ensures p < |es| && es[p].user == user ==> Newest(es, user, snapshot, p)
    ensures !(p < |es| && es[p].user == user) ==> forall i :: 0 <= i < |es| ==> !Sees(es[i], user, snapshot)
  {
    hide InternalKey, InternalLess, Small, Encode, Less;
    if p < |es| {
      AtOrAfterLookup(es[p], user, snapshot);
    }
    forall i | 0 <= i < |es| && Sees(es[i], user, snapshot)
      ensures p < |es| && es[p].user == user && es[i].sequence <= es[p].sequence
    {
      if i < p {
        SmallSequence(es[i]);
        LookupKeySplits(user, snapshot, es[i].sequence, es[i].kind);
        InternalKeyOf(es[i]);
      } else if i > p {
        SameUserOrder(es[p], es[i]);
        LessIsStrict(user, es[p].user);
      }
    }
  }

  lemma InternalKeyOf(e: Entry)
    ensures InternalKey(e) == Encode(e.user, e.sequence, e.kind)
  {
  }

  lemma SmallSequence(e: Entry)
    requires Small(e)
    ensures e.sequence <= Lsm.MAX_SEQUENCE
  {
  }

  class MemTable {
    var table: seq<Bytes>             // the skip list, in order
    ghost var entries: seq<Entry>

    ghost predicate Valid()
      reads this
    {
      Ordered(entries) && |table| == |entries| && forall i :: 0 <= i < |table| ==> table[i] == Buffer(entries[i])
    }

    constructor ()
      ensures Valid() && entries == []
    {
      table, entries := [], [];
    }

    /** No two entries have the same internal key, as every operation has its own sequence number. */
    method Add(sequence: nat, kind: Lsm.Kind, key: Bytes, value: Bytes)
      requires Valid() && Small(Entry(key, sequence, kind, value))
      requires forall i :: 0 <= i < |entries| ==> InternalKey(entries[i]) != Encode(key, sequence, kind)
      modifies this
      ensures Valid()
      ensures exists p: nat ::
                p <= |old(entries)| &&
                entries == old(entries)[..p] + [Entry(key, sequence, kind, value)] + old(entries)[p..]
    {
      hide Encode, Varint, InternalLess, Small, BufferLess, Buffer, Ordered, Fixed;
      assert |key| + 8 < LIMIT32 && |value| < LIMIT32 by { SmallSizes(Entry(key, sequence, kind, value)); }
      var length := EncodeVarint32(|key| + 8);
      var valueLength := EncodeVarint32(|value|);
      var buf := length + key + Fixed(sequence * 256 + TypeCode(kind), 8) + valueLength + value;
      ghost var e := Entry(key, sequence, kind, value);
      BufferIs(e, length, valueLength);
      var p := 0;
      while p < |table| && BufferLess(table[p], buf)
        invariant p <= |table| && Valid() && table == old(table) && entries == old(entries)
        invariant forall i :: 0 <= i < p ==> InternalLess(InternalKey(entries[i]), InternalKey(e))
      {
        SmallAt(p);
        BufferOrder(entries[p], e);
        p := p + 1;
      }
      if p < |table| {
        SmallAt(p);
        BufferOrder(entries[p], e);
      }
      StaysOrdered(entries, p, e);
      table := table[..p] + [buf] + table[p..];
      entries := entries[..p] + [e] + entries[p..];
    }

    lemma SmallSizes(e: Entry)
      requires Small(e)
      ensures |e.user| + 8 < LIMIT32 && |e.value| < LIMIT32
    {
    }

    lemma BufferIs(e: Entry, length: Bytes, valueLength: Bytes)
      requires length == Varint(|e.user| + 8) && valueLength == Varint(|e.value|)
      ensures length + e.user + Fixed(e.sequence * 256 + TypeCode(e.kind), 8) + valueLength + e.value == Buffer(e)
    {
      hide Varint, Fixed;
    }

    lemma StaysOrdered(es: seq<Entry>, p: nat, e: Entry)
      requires Ordered(es) && Small(e) && p <= |es|
      requires forall i :: 0 <= i < p ==> InternalLess(InternalKey(es[i]), InternalKey(e))
      requires p < |es| ==> !InternalLess(InternalKey(es[p]), InternalKey(e)) && InternalKey(es[p]) != InternalKey(e)
      ensures Ordered(es[..p] + [e] + es[p..])
    {
      hide InternalKey, InternalLess, Small;
      var next := es[..p] + [e] + es[p..];
      forall i | p <= i < |es| ensures InternalLess(InternalKey(e), InternalKey(es[i])) {
        InternalLessIsTotal(InternalKey(es[p]), InternalKey(e));
        if i > p {
          InternalLessIsTransitive(InternalKey(e), InternalKey(es[p]), InternalKey(es[i]));
        }
      }
      assert forall i :: 0 <= i < |next| ==> next[i] == if i < p then es[i] else if i == p then e else es[i - 1];
    }

    /** The newest entry of the user key at or below the snapshot decides, and only that one. */
    method Get(user: Bytes, snapshot: nat) returns (r: Answer)
      requires Valid() && |user| + 8 < LIMIT32 && snapshot <= Lsm.MAX_SEQUENCE
      ensures r.Unknown? <==> forall i :: 0 <= i < |entries| ==> !Sees(entries[i], user, snapshot)
      ensures !r.Unknown? ==> exists i: nat :: Newest(entries, user, snapshot, i) && r == Shows(entries[i])
    {
      hide Encode, Varint, InternalLess, Small, BufferLess, Buffer, LookupBuffer, UnVarint32, UnPrefixed, Newest, Sees,
           Ordered;
      var memkey := LookupBuffer(user, snapshot);
      var p: nat := 0;
      while p < |table| && BufferLess(table[p], memkey)
        invariant p <= |table|
        invariant forall i :: 0 <= i < p ==> InternalLess(InternalKey(entries[i]), Encode(user, snapshot, Lsm.Put))
      {
        SmallAt(p);
        LookupOrder(entries[p], user, snapshot);
        p := p + 1;
      }
      if p < |table| {
        SmallAt(p);
        LookupOrder(entries[p], user, snapshot);
      }
      LandsOnNewest(entries, user, snapshot, p);
      if p == |table| {
        return Unknown;
      }
      ghost var e := entries[p];
      var entry := table[p];
      BufferParses(e);
      EntryParts(e);
      var keyLength := UnVarint32(entry).value;
      var rest := UnVarint32(entry).rest;
      if rest[..keyLength - 8] != user {
        return Unknown;
      }
      NewestIsSeen(entries, user, snapshot, p);
      var tag := UnFixed(rest[keyLength - 8..keyLength]);
      if tag % 256 == 1 {
        r := Value(UnPrefixed(rest[keyLength..]).value);
      } else {
        r := Deleted;
      }
    }

    lemma SmallAt(p: nat)
      requires Valid() && p < |entries|
      ensures Small(entries[p]) && table[p] == Buffer(entries[p])
    {
    }

    lemma NewestIsSeen(es: seq<Entry>, user: Bytes, snapshot: nat, p: nat)
      requires Newest(es, user, snapshot, p)
      ensures p < |es| && Sees(es[p], user, snapshot)
    {
    }

    lemma EntryParts(e: Entry)
      requires Small(e)
      ensures var rest, n := InternalKey(e) + Prefixed(e.value), |e.user| + 8;
              && rest[..n - 8] == e.user && rest[n..] == Prefixed(e.value)
              && UnFixed(rest[n - 8..n]) % 256 == TypeCode(e.kind)
    {
      hide Fixed, UnFixed, Prefixed;
      var rest, n := InternalKey(e) + Prefixed(e.value), |e.user| + 8;
      Parts(e.user, e.sequence, e.kind);
      assert rest[n - 8..n] == InternalKey(e)[n - 8..];
    }
  }
}
