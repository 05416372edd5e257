/** db/dbformat.cc: internal keys as bytes, and their comparator. */
module DbFormat {
  import opened Bytes
  import opened Coding
  import opened Comparator
  import Lsm

  /** kTypeDeletion and kTypeValue. */
  function TypeCode(kind: Lsm.Kind): nat {
    if kind.Put? then 1 else 0
  }

  /** AppendInternalKey: the user key, then sequence and type packed into eight bytes. */
  function Encode(user: Bytes, sequence: nat, kind: Lsm.Kind): (r: Bytes)
    ensures |r| == |user| + 8
  {
    user + Fixed(sequence * 256 + TypeCode(kind), 8)
  }

  /** ExtractUserKey. */
  function UserPart(key: Bytes): Bytes
    requires |key| >= 8
  {
    key[..|key| - 8]
  }

  function TagPart(key: Bytes): nat
    requires |key| >= 8
  {
    UnFixed(key[|key| - 8..])
  }

  /** InternalKeyComparator::Compare: user key increasing, then tag decreasing. */
  predicate InternalLess(a: Bytes, b: Bytes)
    requires |a| >= 8 && |b| >= 8
  {
    Less(UserPart(a), UserPart(b)) || (UserPart(a) == UserPart(b) && TagPart(a) > TagPart(b))
  }

  /** The comparator on all byte strings: those too short to be internal keys are not ordered. */
  predicate KeyLess(a: Bytes, b: Bytes) {
    |a| >= 8 && |b| >= 8 && InternalLess(a, b)
  }

  lemma Parts(user: Bytes, sequence: nat, kind: Lsm.Kind)
    requires sequence <= Lsm.MAX_SEQUENCE
    ensures UserPart(Encode(user, sequence, kind)) == user
    ensures TagPart(Encode(user, sequence, kind)) == sequence * 256 + TypeCode(kind)
  {
    hide Fixed, UnFixed;
    var tag := sequence * 256 + TypeCode(kind);
    assert Power256(8) == 0x1_0000_0000_0000_0000 by {
      assert Power256(4) == 0x1_0000_0000 == 256 * 256 * 256 * 256 * Power256(0);
      assert Power256(8) == 256 * 256 * 256 * 256 * Power256(4);
    }
    FixedRoundTrip(tag, 8);
    assert Encode(user, sequence, kind)[|user|..] == Fixed(tag, 8);
  }

  lemma InternalLessIsStrict(a: Bytes, b: Bytes)
    requires |a| >= 8 && |b| >= 8
    ensures !InternalLess(a, a) && !(InternalLess(a, b) && InternalLess(b, a))
  {
    hide UnFixed;
    LessIsStrict(UserPart(a), UserPart(b));
  }

  lemma InternalLessIsTotal(a: Bytes, b: Bytes)
    requires |a| >= 8 && |b| >= 8
    ensures a == b || InternalLess(a, b) || InternalLess(b, a)
  {
    hide UnFixed;
    LessIsTotal(UserPart(a), UserPart(b));
    if UserPart(a) == UserPart(b) && TagPart(a) == TagPart(b) {
      UnFixedInjective(a[|a| - 8..], b[|b| - 8..]);
      assert a == UserPart(a) + a[|a| - 8..] && b == UserPart(b) + b[|b| - 8..];
    }
  }

  lemma InternalLessIsTransitive(a: Bytes, b: Bytes, c: Bytes)
    requires |a| >= 8 && |b| >= 8 && |c| >= 8 && InternalLess(a, b) && InternalLess(b, c)
    ensures InternalLess(a, c)
  {
    hide UnFixed;
    if Less(UserPart(a), UserPart(b)) && Less(UserPart(b), UserPart(c)) {
      LessIsTransitive(UserPart(a), UserPart(b), UserPart(c));
    }
  }

  /** The abstract key that stands for an internal key everywhere else in this project. */
  ghost function Abstract(user: Bytes, sequence: nat, kind: Lsm.Kind): Lsm.Key {
    Lsm.Key(Rank(user), sequence, kind)
  }

  /** The comparator on encoded keys is the abstract order on the keys they stand for. */
  lemma EncodedOrder(u: Bytes, m: nat, j: Lsm.Kind, v: Bytes, n: nat, k: Lsm.Kind)
    requires m <= Lsm.MAX_SEQUENCE && n <= Lsm.MAX_SEQUENCE
    ensures InternalLess(Encode(u, m, j), Encode(v, n, k)) <==> Lsm.Before(Abstract(u, m, j), Abstract(v, n, k))
    ensures Encode(u, m, j) == Encode(v, n, k) <==> Abstract(u, m, j) == Abstract(v, n, k)
  {
    hide Rank, Encode, UserPart, TagPart, Less;
    Parts(u, m, j);
    Parts(v, n, k);
    RankEmbeds(u, v);
  }

  /** The largest tag: a key with it precedes every other key of its user key. */
  function Earliest(): (r: Bytes)
    ensures |r| == 8
  {
    Fixed(Lsm.MAX_SEQUENCE * 256 + 1, 8)
  }

  /** What InternalKeyComparator makes of a shortened user key: kept if it really is shorter and larger. */
  function Shortened(key: Bytes, user: Bytes): (r: Bytes)
    requires |key| >= 8
    ensures |r| >= 8
  {
    if |user| < |UserPart(key)| && Less(UserPart(key), user) then user + Earliest() else key
  }

  /** InternalKeyComparator::FindShortestSeparator. */
  method FindInternalSeparator(start: Bytes, limit: Bytes) returns (r: Bytes)
    requires |start| >= 8 && |limit| >= 8
    ensures r == Shortened(start, Separator(UserPart(start), UserPart(limit)))
  {
    var tmp := FindShortestSeparator(UserPart(start), UserPart(limit));
    if |tmp| < |UserPart(start)| && Less(UserPart(start), tmp) {
      r := tmp + Fixed(Lsm.MAX_SEQUENCE * 256 + 1, 8);
    } else {
      r := start;
    }
  }

  /** InternalKeyComparator::FindShortSuccessor. */
  method FindInternalSuccessor(key: Bytes) returns (r: Bytes)
    requires |key| >= 8
    ensures r == Shortened(key, Successor(UserPart(key)))
  {
    var tmp := FindShortSuccessor(UserPart(key));
    if |tmp| < |UserPart(key)| && Less(UserPart(key), tmp) {
      r := tmp + Fixed(Lsm.MAX_SEQUENCE * 256 + 1, 8);
    } else {
      r := key;
    }
  }

  lemma ShortenedParts(user: Bytes)
    ensures UserPart(user + Earliest()) == user
  {
  }

  /** An index key made up between two adjacent keys separates them. */
  lemma InternalSeparatorSeparates(start: Bytes, limit: Bytes)
    requires |start| >= 8 && |limit| >= 8 && InternalLess(start, limit)
    ensures var r := Shortened(start, Separator(UserPart(start), UserPart(limit)));
            !InternalLess(r, start) && InternalLess(r, limit)
  {
    hide Less, Separator, Earliest, TagPart;
    var u, v := UserPart(start), UserPart(limit);
    var s := Separator(u, v);
    InternalLessIsStrict(start, start);
    ShortenedParts(s);
    LessIsStrict(u, s);
    if |s| < |u| && Less(u, s) {
      if u == v {
        SeparatorOfSame(u);
      } else {
        SeparatorSeparates(u, v);
      }
    }
  }

  lemma {:induction false} SeparatorOfSame(u: Bytes)
    ensures Separator(u, u) == u
    decreases |u|
  {
    if u != [] {
      SeparatorOfSame(u[1..]);
    }
  }

  /** The index key after the last block is at or above the last key. */
  lemma InternalSuccessorIsAbove(key: Bytes)
    requires |key| >= 8
    ensures !InternalLess(Shortened(key, Successor(UserPart(key))), key)
  {
    hide Less, Successor, Earliest, TagPart;
    var s := Successor(UserPart(key));
    ShortenedParts(s);
    LessIsStrict(UserPart(key), s);
    InternalLessIsStrict(key, key);
  }

  /** LookupKey: length, user key and tag in one buffer; its last part is an internal key. */
  function LookupBuffer(user: Bytes, snapshot: nat): Bytes {
    Varint(|user| + 8) + Encode(user, snapshot, Lsm.Put)
  }

  /** In a memtable the buffer parses back as a length-prefixed internal key. */
  lemma LookupBufferParses(user: Bytes, snapshot: nat, rest: Bytes)
    requires |user| + 8 < LIMIT32
    ensures UnPrefixed(LookupBuffer(user, snapshot) + rest) == Got(Encode(user, snapshot, Lsm.Put), rest)
  {
    hide Encode, Varint, UnPrefixed;
    PrefixedRoundTrip(Encode(user, snapshot, Lsm.Put), rest);
  }

  /** A lookup key stands exactly before the entries of its user key that its snapshot may see. */
  lemma LookupKeySplits(user: Bytes, snapshot: nat, sequence: nat, kind: Lsm.Kind)
    requires snapshot <= Lsm.MAX_SEQUENCE && sequence <= Lsm.MAX_SEQUENCE
    ensures !InternalLess(Encode(user, sequence, kind), Encode(user, snapshot, Lsm.Put)) <==> sequence <= snapshot
  {
    hide Encode, UserPart, TagPart;
    Parts(user, sequence, kind);
    Parts(user, snapshot, Lsm.Put);
    LessIsStrict(user, user);
  }
}
