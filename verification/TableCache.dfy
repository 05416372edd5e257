/** db/table_cache.cc and SaveValue of db/version_set.cc: what a lookup in a table file means for the version that holds
    the file, and the table as an index over sorted runs. */
module TableCaches {
  import opened Wrappers
  import opened Lsm
  import opened Bytes
  import opened Comparator
  import opened DbFormat
  import opened BlockFormat
  import opened Blocks
  import opened TableBuilders
  import opened Tables
  import EditedVersions
  import TwoLevelIterators
  import Versions

  function Text(b: Bytes): string {
    seq(|b|, i requires 0 <= i < |b| => (b[i] as int) as char)
  }

  ghost predicate AllParse(es: seq<Pair>) {
    forall i :: 0 <= i < |es| ==> EditedVersions.Parses(es[i].key)
  }

  ghost function EntryOf(p: Pair): Entry
    requires EditedVersions.Parses(p.key)
  {
    Entry(EditedVersions.KeyOf(p.key), Text(p.value))
  }

  /** The entries of a table as the version set sees them. */
  ghost function EntriesOf(es: seq<Pair>): (r: seq<Entry>)
    requires AllParse(es)
    ensures |r| == |es| && forall i :: 0 <= i < |es| ==> r[i] == EntryOf(es[i])
  {
    seq(|es|, i requires 0 <= i < |es| => EntryOf(es[i]))
  }

  lemma EntriesSorted(es: seq<Pair>)
    requires AllParse(es) && KeysAscend(es)
    ensures Sorted(EntriesOf(es))
  {
    hide EditedVersions.KeyOf, EditedVersions.Parses, InternalLess, Before;
    var r := EntriesOf(es);
    forall i, j | 0 <= i < j < |r| ensures Before(r[i].key, r[j].key) {
      EditedVersions.KeyOrder(es[i].key, es[j].key);
    }
  }

  lemma LookupKey(user: Bytes, snapshot: nat)
    requires snapshot <= MAX_SEQUENCE
    ensures var k := Encode(user, snapshot, Kind.Put);
            EditedVersions.Parses(k) && EditedVersions.KeyOf(k) == Key(Rank(user), snapshot, Kind.Put) &&
              UserPart(k) == user
  {
    hide Encode, UserPart, TagPart;
    DbFormat.Parts(user, snapshot, Kind.Put);
  }

  /** The first entry at or after a lookup key, found on the bytes, is the one that answers the read. */
  lemma FirstAnswers(es: seq<Pair>, user: Bytes, snapshot: nat, p: nat)
    requires AllParse(es) && KeysAscend(es) && snapshot <= MAX_SEQUENCE
    requires FirstAtOrAfter(es, KeyLess, Encode(user, snapshot, Kind.Put), p)
    ensures Versions.Answers(EntriesOf(es), Rank(user), snapshot, if p < |es| then Some(EntriesOf(es)[p]) else None)
  {
    hide EditedVersions.KeyOf, EditedVersions.Parses, InternalLess, Encode, Before, Versions.Answers, Rank;
    var r, k := EntriesOf(es), Encode(user, snapshot, Kind.Put);
    LookupKey(user, snapshot);
    EntriesSorted(es);
    forall i | 0 <= i < |es| ensures KeyLess(es[i].key, k) <==> Before(r[i].key, Key(Rank(user), snapshot, Kind.Put)) {
      EditedVersions.KeyOrder(es[i].key, k);
      EditedVersions.ParsedLength(es[i].key);
    }
    Versions.FirstAtOrAfter(r, Rank(user), snapshot, p);
  }

  /** What a lookup hands over, filter or not, is an answer of the kind Version::Get works with. */
  lemma HandedAnswers(es: seq<Pair>, user: Bytes, snapshot: nat, p: nat, r: Option<Pair>)
    requires AllParse(es) && KeysAscend(es) && snapshot <= MAX_SEQUENCE
    requires FirstAtOrAfter(es, KeyLess, Encode(user, snapshot, Kind.Put), p)
    requires Handed(es, Encode(user, snapshot, Kind.Put), p, r)
    ensures r.Some? ==> p < |es|
    ensures Versions.Answers(EntriesOf(es), Rank(user), snapshot, if r.Some? then Some(EntriesOf(es)[p]) else None)
  {
    hide InternalLess, Encode, Before, KeysAscend, FirstAtOrAfter, Newest, Candidate;
    LookupKey(user, snapshot);
    FirstAnswers(es, user, snapshot, p);
    if p < |es| {
      EditedVersions.ParsedLength(es[p].key);
      RankEmbeds(UserPart(es[p].key), user);
      assert EntriesOf(es)[p] == EntryOf(es[p]);
    }
  }

  /** SaverState, with the value if there is one. */
  datatype Saver = NotFound | Found(value: Bytes) | Deleted | Corrupt

  /** SaveValue: an entry of another user key is ignored. */
  function SaveValue(entry: Pair, user: Bytes): Saver {
    if !EditedVersions.Parses(entry.key) then Corrupt
    else if UserPart(entry.key) != user then NotFound
    else if TagPart(entry.key) % 256 == 1 then Found(entry.value)
    else Deleted
  }

  /** What the saver's state means for a read of the table's entries. */
  ghost predicate Tells(es: seq<Entry>, user: UserKey, snapshot: nat, saver: Saver) {
    match saver
    case NotFound => Versions.Answers(es, user, snapshot, None)
    case Found(value) => exists e :: Newest(Elements(es), user, snapshot, e) && Visible(e) == Some(Text(value))
    case Deleted => exists e :: Newest(Elements(es), user, snapshot, e) && Visible(e) == None
    case Corrupt => false
  }

  lemma SavedTells(es: seq<Pair>, user: Bytes, snapshot: nat, p: nat, r: Option<Pair>)
    requires AllParse(es) && KeysAscend(es) && snapshot <= MAX_SEQUENCE
    requires FirstAtOrAfter(es, KeyLess, Encode(user, snapshot, Kind.Put), p)
    requires Handed(es, Encode(user, snapshot, Kind.Put), p, r)
    ensures Tells(EntriesOf(es), Rank(user), snapshot, if r.Some? then SaveValue(r.value, user) else NotFound)
  {
    hide InternalLess, Encode, Before, KeysAscend, FirstAtOrAfter, Newest, Candidate, Rank, UserPart, TagPart;
    HandedAnswers(es, user, snapshot, p, r);
    if r.Some? {
      EditedVersions.ParsedLength(es[p].key);
      RankEmbeds(UserPart(es[p].key), user);
      assert EntriesOf(es)[p] == EntryOf(es[p]);
    }
  }

  /** TableCache::Get with SaveValue, on the bytes of a table a builder finished: the saver ends up with the newest
      entry of the user key at or below the snapshot, or rightly with nothing. */
  method Get(t: Table, user: Bytes, snapshot: nat, verifyChecksums: bool) returns (saver: Saver)
    requires t.Valid() && AllParse(t.s.entries) && snapshot <= MAX_SEQUENCE
    ensures Tells(EntriesOf(t.s.entries), Rank(user), snapshot, saver)
  {
    hide Tells, Small, EntriesOf, AllParse, IsTable, FilterGood, BytesOf, KeysAscend, InternalLess, FirstAtOrAfter,
         Handed, Encode;
    TableParts(t.file, t.s, t.interval, t.filterName, t.parts);
    EncodeLength(user, snapshot);
    var r := t.InternalGet(Encode(user, snapshot, Kind.Put), verifyChecksums);
    ghost var p := FirstExists(t.s.entries, Encode(user, snapshot, Kind.Put));
    SavedTells(t.s.entries, user, snapshot, p, r);
    saver := if r.Some? then SaveValue(r.value, user) else NotFound;
  }

  lemma EncodeLength(user: Bytes, snapshot: nat)
    ensures |Encode(user, snapshot, Kind.Put)| >= 8
  {
  }

  // --- A table as an index over sorted runs ---

  /** Any internal key as an abstract key, in the same order: the whole tag takes the place of the sequence number. */
  ghost function Ranked(key: Bytes): Key
    requires |key| >= 8
  {
    Key(Rank(UserPart(key)), TagPart(key), Kind.Deletion)
  }

  lemma RankedOrder(a: Bytes, b: Bytes)
    requires |a| >= 8 && |b| >= 8
    ensures KeyLess(a, b) <==> Before(Ranked(a), Ranked(b))
  {
    hide Rank, UserPart, TagPart, Less;
    RankEmbeds(UserPart(a), UserPart(b));
  }

  ghost predicate AllLong(es: seq<Pair>) {
    forall i :: 0 <= i < |es| ==> |es[i].key| >= 8
  }

  ghost function RankedEntries(es: seq<Pair>): (r: seq<Entry>)
    requires AllLong(es)
    ensures |r| == |es| && forall i :: 0 <= i < |es| ==> r[i] == Entry(Ranked(es[i].key), Text(es[i].value))
  {
    seq(|es|, i requires 0 <= i < |es| => Entry(Ranked(es[i].key), Text(es[i].value)))
  }

  lemma RankedSorted(es: seq<Pair>)
    requires KeysAscend(es)
    ensures AllLong(es) && Sorted(RankedEntries(es))
  {
    hide InternalLess, Before, Ranked;
    var r := RankedEntries(es);
    forall i, j | 0 <= i < j < |r| ensures Before(r[i].key, r[j].key) {
      RankedOrder(es[i].key, es[j].key);
    }
  }

  /** The blocks of a table, as runs. */
  ghost function RunsOf(s: Spec): (runs: seq<seq<Entry>>)
    requires CutUp(s) && AllLong(s.entries)
    ensures |runs| == |s.ends|
    ensures forall i :: 0 <= i < |runs| ==>
      s.ends[i] <= |s.entries| && From(s, i) < s.ends[i] && runs[i] == RankedEntries(s.entries)[From(s, i)..s.ends[i]]
  {
    seq(|s.ends|, i requires 0 <= i < |s.ends| => RankedEntries(s.entries)[From(s, i)..s.ends[i]])
  }

  lemma FlatSteps(runs: seq<seq<Entry>>, n: nat)
    requires n <= |runs|
    ensures TwoLevelIterators.Flat(runs[..0]) == []
    ensures n > 0 ==> TwoLevelIterators.Flat(runs[..n]) == TwoLevelIterators.Flat(runs[..n - 1]) + runs[n - 1]
  {
    if n > 0 {
      assert runs[..n][..n - 1] == runs[..n - 1];
    }
  }

  lemma Rejoined(all: seq<Entry>, a: nat, b: nat)
    requires a <= b <= |all|
    ensures all[..a] + all[a..b] == all[..b]
  {
  }

  lemma {:induction false} RunsFlatten(s: Spec, n: nat)
    requires CutUp(s) && AllLong(s.entries) && n <= |s.ends|
    ensures From(s, n) <= |s.entries|
    ensures TwoLevelIterators.Flat(RunsOf(s)[..n]) == RankedEntries(s.entries)[..From(s, n)]
  {
    hide From, CutUp, RankedEntries, TwoLevelIterators.Flat;
    var all, runs := RankedEntries(s.entries), RunsOf(s);
    FromIs(s, n);
    FlatSteps(runs, n);
    if n > 0 {
      RunsFlatten(s, n - 1);
      BlockLast(s, n - 1);
      Rejoined(all, From(s, n - 1), s.ends[n - 1]);
    }
  }

  /** The keys of the index, from FindShortestSeparator and FindShortSuccessor, keep the blocks of a finished table
      apart, and the blocks together are its entries: what the two-level iterator asks of an index holds of every
      table. */
  lemma IndexSeparates(s: Spec)
    requires Settled(s, false)
    ensures KeysAscend(IndexEntries(s.seps, s.handles)) && KeysAscend(s.entries)
    ensures TwoLevelIterators.Separates(RankedEntries(IndexEntries(s.seps, s.handles)), RunsOf(s))
    ensures TwoLevelIterators.Flat(RunsOf(s)) == RankedEntries(s.entries)
  {
    hide Settled, InternalLess, Ranked, CutUp, From, Before, Text, TwoLevelIterators.Flat;
    SettledParts(s);
    IndexAscends(s);
    var index, all := RankedEntries(IndexEntries(s.seps, s.handles)), RankedEntries(s.entries);
    var runs: seq<seq<Entry>> := RunsOf(s);
    RankedSorted(IndexEntries(s.seps, s.handles));
    RankedSorted(s.entries);
    RunsFlatten(s, |s.ends|);
    assert runs[..|s.ends|] == runs && all[..From(s, |s.ends|)] == all;
    forall i: nat, k: nat | 0 <= i < |runs| && 0 <= k < |runs[i]| ensures !Before(index[i].key, runs[i][k].key) {
      AtOrBeforeSep(s, i, From(s, i) + k);
    }
    forall i: nat, j: nat, k: nat | 0 <= i < j < |runs| && 0 <= k < |runs[j]|
      ensures Before(index[i].key, runs[j][k].key) {
      AfterSep(s, i, j, From(s, j) + k);
    }
  }

  lemma AtOrBeforeSep(s: Spec, i: nat, p: nat)
    requires Settled(s, false) && i < |s.ends| && i < |s.seps| && p < s.ends[i] && p < |s.entries|
    ensures |s.seps[i]| >= 8 && |s.entries[p].key| >= 8 && !Before(Ranked(s.seps[i]), Ranked(s.entries[p].key))
  {
    hide Settled, KeyLess, KeysAscend, Ranked, Before, CutUp, From, Splits;
    SettledParts(s);
    BlockLast(s, i);
    LastIsBelowSep(s, i);
    var key, last := s.entries[p].key, s.entries[s.ends[i] - 1].key;
    if KeyLess(s.seps[i], key) && p < s.ends[i] - 1 {
      KeyOrder(s, p, s.ends[i] - 1);
      Chain(s.seps[i], key, last);
    }
    LongKeys(s.entries, p);
    RankedOrder(s.seps[i], key);
  }

  lemma AfterSep(s: Spec, i: nat, j: nat, p: nat)
    requires Settled(s, false) && i < j < |s.ends| && i < |s.seps| && From(s, j) <= p < |s.entries|
    ensures |s.seps[i]| >= 8 && |s.entries[p].key| >= 8 && Before(Ranked(s.seps[i]), Ranked(s.entries[p].key))
  {
    hide Settled, KeyLess, KeysAscend, Ranked, Before, CutUp, From, Splits;
    SettledParts(s);
    BlockLast(s, i);
    LastIsBelowSep(s, i);
    EndsAscend(s, i, j);
    if s.ends[i] < p {
      KeyOrder(s, s.ends[i], p);
      Chain(s.seps[i], s.entries[s.ends[i]].key, s.entries[p].key);
    }
    LongKeys(s.entries, p);
    RankedOrder(s.seps[i], s.entries[p].key);
  }

  lemma LongKeys(es: seq<Pair>, p: nat)
    requires KeysAscend(es) && p < |es|
    ensures |es[p].key| >= 8
  {
  }

  lemma {:induction false} EndsAscend(s: Spec, i: nat, j: nat)
    requires CutUp(s) && i < j < |s.ends|
    ensures s.ends[i] <= From(s, j)
    decreases j
  {
    hide From, CutUp;
    NextStarts(s, j - 1);
    if i < j - 1 {
      EndsAscend(s, i, j - 1);
      BlockLast(s, j - 1);
    }
  }
}
