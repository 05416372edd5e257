/** Point lookups: Version::Get and its binary search in db/version_set.cc, MemTable::Get and DBImpl::Get. */
module Versions {
  import opened Lsm
  import opened Wrappers
  import opened Files

  /** The entries of `upper` are newer than those of `lower` for every user key they share. */
  ghost predicate NewerPerKey(upper: set<Entry>, lower: set<Entry>) {
    forall e, d :: e in upper && d in lower && e.key.user == d.key.user ==> e.key.sequence > d.key.sequence
  }

  ghost predicate LevelZeroOrder(fs: seq<File>) {
    forall f, g :: f in fs && g in fs && f.number > g.number ==> NewerPerKey(Elements(f.entries), Elements(g.entries))
  }

  /** What every installed version satisfies. */
  ghost predicate Shape(v: seq<seq<File>>) {
    |v| == NUM_LEVELS &&
    (forall l :: 0 <= l < |v| ==> AllWellFormed(v[l])) &&
    (forall l :: 1 <= l < |v| ==> Disjoint(v[l])) &&
    (forall i, j :: 0 <= i < j < |v[0]| ==> v[0][i].number != v[0][j].number) &&
    LevelZeroOrder(v[0]) &&
    (forall l, m :: 0 <= l < m < |v| ==> NewerPerKey(Contents(v[l]), Contents(v[m])))
  }

  ghost function All(v: seq<seq<File>>): set<Entry> {
    set l, e | 0 <= l < |v| && e in Contents(v[l]) :: e
  }

  /** The first entry at or after the lookup key, provided it belongs to the user key; a table may answer anything
      else only when it holds no entry of that key at or below the snapshot. */
  ghost predicate Answers(es: seq<Entry>, user: UserKey, snap: nat, r: Option<Entry>) {
    if r.Some? && r.value.key.user == user then Newest(Elements(es), user, snap, r.value)
    else forall e :: !Candidate(Elements(es), user, snap, e)
  }

  lemma FirstAtOrAfter(es: seq<Entry>, user: UserKey, snap: nat, at: nat)
    requires Sorted(es) && at <= |es|
    requires forall j :: 0 <= j < at ==> Before(es[j].key, Key(user, snap, Put))
    requires at < |es| ==> !Before(es[at].key, Key(user, snap, Put))
    ensures Answers(es, user, snap, if at < |es| then Some(es[at]) else None)
  {
    forall e | Candidate(Elements(es), user, snap, e)
      ensures at < |es| && es[at].key.user == user && e.key.sequence <= es[at].key.sequence
    {
      var j :| 0 <= j < |es| && es[j] == e;
      assert j >= at;
      assert j > at ==> Before(es[at].key, es[j].key);
    }
  }

  /** What a version asks of TableCache::Get; module TableCaches meets it on the bytes of a table, through the index,
      the filter and the block. */
  method TableGet(f: File, user: UserKey, snap: nat) returns (r: Option<Entry>)
    requires WellFormed(f)
    ensures Answers(f.entries, user, snap, r)
  {
    r := SearchRun(f.entries, user, snap);
  }

  method SearchRun(es: seq<Entry>, user: UserKey, snap: nat) returns (r: Option<Entry>)
    requires Sorted(es)
    ensures Answers(es, user, snap, r)
  {
    var at := 0;
    while at < |es| && Before(es[at].key, Key(user, snap, Put))
      invariant at <= |es|
      invariant forall j :: 0 <= j < at ==> Before(es[j].key, Key(user, snap, Put))
    {
      at := at + 1;
    }
    FirstAtOrAfter(es, user, snap, at);
    r := if at < |es| then Some(es[at]) else None;
  }

  /** FindFile: the first file whose largest key is at or after `key`. */
  method FindFile(files: seq<File>, key: Key) returns (index: nat)
    requires AllWellFormed(files) && Disjoint(files)
    ensures index <= |files|
    ensures forall i :: 0 <= i < index ==> Before(files[i].largest, key)
    ensures forall i :: index <= i < |files| ==> !Before(files[i].largest, key)
  {
    LargestAscend(files);
    var left, right := 0, |files|;
    while left < right
      invariant 0 <= left <= right <= |files|
      invariant forall i :: 0 <= i < left ==> Before(files[i].largest, key)
      invariant forall i :: right <= i < |files| ==> !Before(files[i].largest, key)
    {
      var mid := (left + right) / 2;
      if Before(files[mid].largest, key) {
        left := mid + 1;
      } else {
        right := mid;
      }
    }
    index := right;
  }

  lemma LargestAscend(files: seq<File>)
    requires AllWellFormed(files) && Disjoint(files)
    ensures forall i, j :: 0 <= i < j < |files| ==> Before(files[i].largest, files[j].largest)
  {
    forall i, j | 0 <= i < j < |files| ensures Before(files[i].largest, files[j].largest) {
      InRange(files[j], files[j].entries[0]);
    }
  }

  /** Level-0 files that may hold the key, newest first. */
  method OverlappingNewestFirst(files: seq<File>, user: UserKey) returns (tmp: seq<File>)
    ensures forall f :: f in tmp <==> f in files && Covers(f, user)
    ensures forall i, j :: 0 <= i < j < |tmp| ==> tmp[i].number >= tmp[j].number
  {
    tmp := [];
    for i := 0 to |files|
      invariant forall f :: f in tmp <==> f in files[..i] && Covers(f, user)
    {
      assert files[..i + 1] == files[..i] + [files[i]];
      if files[i].smallest.user <= user && user <= files[i].largest.user {
        tmp := tmp + [files[i]];
      }
    }
    assert files[..|files|] == files;
    tmp := SortNewestFirst(tmp);
  }

  function SortNewestFirst(fs: seq<File>): (r: seq<File>)
    ensures forall f :: f in r <==> f in fs
    ensures forall i, j :: 0 <= i < j < |r| ==> r[i].number >= r[j].number
  {
    if fs == [] then [] else InsertByNumber(SortNewestFirst(fs[1..]), fs[0])
  }

  function InsertByNumber(fs: seq<File>, f: File): (r: seq<File>)
    requires forall i, j :: 0 <= i < j < |fs| ==> fs[i].number >= fs[j].number
    ensures forall g :: g in r <==> g in fs || g == f
    ensures forall i, j :: 0 <= i < j < |r| ==> r[i].number >= r[j].number
  {
    if fs == [] || f.number >= fs[0].number then [f] + fs
    else
      var rest := InsertByNumber(fs[1..], f);
      assert forall g :: g in fs[1..] ==> g in fs && g.number <= fs[0].number by {
        assert forall i :: 1 <= i < |fs| ==> fs[i].number <= fs[0].number;
      }
      assert forall i :: 0 <= i < |rest| ==> rest[i] in rest;
      [fs[0]] + rest
  }

  /** In a sorted, disjoint level only the file FindFile picks can hold the newest entry at or below the snapshot,
      even when the user key spans two adjacent files. */
  lemma OnlyOneFile(files: seq<File>, user: UserKey, snap: nat, index: nat, r: Option<Entry>)
    requires AllWellFormed(files) && Disjoint(files) && index <= |files|
    requires forall i :: 0 <= i < index ==> Before(files[i].largest, Key(user, snap, Put))
    requires index < |files| ==> !Before(files[index].largest, Key(user, snap, Put))
    requires if index < |files| && files[index].smallest.user <= user then Answers(files[index].entries, user, snap, r)
             else r == None
    ensures if r.Some? && r.value.key.user == user then Newest(Contents(files), user, snap, r.value)
            else forall e :: !Candidate(Contents(files), user, snap, e)
  {
    hide Sorted;
    forall e | Candidate(Contents(files), user, snap, e)
      ensures r.Some? && r.value.key.user == user && e.key.sequence <= r.value.key.sequence
    {
      var f :| f in files && e in f.entries;
      var i :| 0 <= i < |files| && files[i] == f;
      InRange(f, e);
      assert i >= index;
      var g := files[index];
      var last := g.entries[|g.entries| - 1];
      InRange(g, last);
      if i == index {
        assert Candidate(Elements(g.entries), user, snap, e);
      } else {
        assert Before(g.largest, f.smallest);
        assert last.key.user == user;
        assert Candidate(Elements(g.entries), user, snap, last);
      }
    }
    if r.Some? && r.value.key.user == user {
      assert r.value in files[index].entries;
    }
  }

  /** Nothing in the first `n` levels is a candidate. */
  ghost predicate NoneAbove(v: seq<seq<File>>, n: nat, user: UserKey, snap: nat) {
    forall l, e :: 0 <= l < n && l < |v| ==> !Candidate(Contents(v[l]), user, snap, e)
  }

  lemma NewestOfLevelIsNewest(v: seq<seq<File>>, l: nat, user: UserKey, snap: nat, e: Entry)
    requires Shape(v) && l < |v| && Distinct(All(v)) && NoneAbove(v, l, user, snap)
    requires Newest(Contents(v[l]), user, snap, e)
    ensures Lookup(All(v), user, snap) == Visible(e)
  {
    hide AllWellFormed, Disjoint, LevelZeroOrder, Contents, Distinct, Lookup;
    assert e in All(v);
    forall f | Candidate(All(v), user, snap, f) ensures f.key.sequence <= e.key.sequence {
      var m :| 0 <= m < |v| && f in Contents(v[m]);
      assert Candidate(Contents(v[m]), user, snap, f);
      assert m >= l;
    }
    LookupNewest(All(v), user, snap, e);
  }

  lemma NothingAnywhere(v: seq<seq<File>>, user: UserKey, snap: nat)
    requires NoneAbove(v, |v|, user, snap)
    ensures Lookup(All(v), user, snap) == None
  {
    forall e ensures !Candidate(All(v), user, snap, e) {
      if e in All(v) {
        var l :| 0 <= l < |v| && e in Contents(v[l]);
        assert !Candidate(Contents(v[l]), user, snap, e);
      }
    }
  }

  /** Among overlapping level-0 files searched newest first, the first hit is the newest entry of the level. */
  lemma FirstHitIsNewest(files: seq<File>, tmp: seq<File>, i: nat, user: UserKey, snap: nat, e: Entry)
    requires AllWellFormed(files) && LevelZeroOrder(files)
    requires forall j, k :: 0 <= j < k < |files| ==> files[j].number != files[k].number
    requires forall f :: f in tmp <==> f in files && Covers(f, user)
    requires forall j, k :: 0 <= j < k < |tmp| ==> tmp[j].number >= tmp[k].number
    requires i < |tmp| && forall j, d :: 0 <= j < i ==> !Candidate(Elements(tmp[j].entries), user, snap, d)
    requires Newest(Elements(tmp[i].entries), user, snap, e)
    ensures Newest(Contents(files), user, snap, e)
  {
    hide WellFormed, AllWellFormed;
    assert tmp[i] in files;
    forall d | Candidate(Contents(files), user, snap, d) ensures d.key.sequence <= e.key.sequence {
      var f :| f in files && d in f.entries;
      MemberWellFormed(files, f);
      InRange(f, d);
      var k :| 0 <= k < |tmp| && tmp[k] == f;
      assert Candidate(Elements(f.entries), user, snap, d);
      assert k >= i;
      if f.number != tmp[i].number {
        assert NewerPerKey(Elements(tmp[i].entries), Elements(f.entries));
      }
    }
  }

  /** Level 0: search every overlapping file, newest first. */
  method GetFromLevelZero(files: seq<File>, user: UserKey, snap: nat) returns (r: Option<Entry>)
    requires AllWellFormed(files) && LevelZeroOrder(files)
    requires forall j, k :: 0 <= j < k < |files| ==> files[j].number != files[k].number
    ensures if r.Some? then Newest(Contents(files), user, snap, r.value)
            else forall e :: !Candidate(Contents(files), user, snap, e)
  {
    hide WellFormed, AllWellFormed, LevelZeroOrder, Contents, Elements, Candidate;
    var tmp := OverlappingNewestFirst(files, user);
    for i := 0 to |tmp|
      invariant forall j, d :: 0 <= j < i ==> !Candidate(Elements(tmp[j].entries), user, snap, d)
    {
      assert tmp[i] in files;
      MemberWellFormed(files, tmp[i]);
      var a := TableGet(tmp[i], user, snap);
      if a.Some? && a.value.key.user == user {
        FirstHitIsNewest(files, tmp, i, user, snap, a.value);
        return a;
      }
    }
    NoHitMeansNone(files, tmp, user, snap);
    r := None;
  }

  lemma NoHitMeansNone(files: seq<File>, tmp: seq<File>, user: UserKey, snap: nat)
    requires AllWellFormed(files) && forall f :: f in files && Covers(f, user) ==> f in tmp
    requires forall j, d :: 0 <= j < |tmp| ==> !Candidate(Elements(tmp[j].entries), user, snap, d)
    ensures forall e :: !Candidate(Contents(files), user, snap, e)
  {
    hide WellFormed, AllWellFormed;
    forall e | e in Contents(files) ensures !Candidate(Contents(files), user, snap, e) {
      var f :| f in files && e in f.entries;
      MemberWellFormed(files, f);
      InRange(f, e);
      if e.key.user == user {
        var k :| 0 <= k < |tmp| && tmp[k] == f;
        assert e in Elements(tmp[k].entries) && !Candidate(Elements(tmp[k].entries), user, snap, e);
      }
    }
  }

  /** A level above 0: at most one file can matter. */
  method GetFromLevel(files: seq<File>, user: UserKey, snap: nat) returns (r: Option<Entry>)
    requires AllWellFormed(files) && Disjoint(files)
    ensures if r.Some? then Newest(Contents(files), user, snap, r.value)
            else forall e :: !Candidate(Contents(files), user, snap, e)
  {
    var index := FindFile(files, Key(user, snap, Put));
    r := None;
    if index < |files| {
      if user < files[index].smallest.user {
        // All of the file is past any data for the user key
      } else {
        r := TableGet(files[index], user, snap);
      }
    }
    OnlyOneFile(files, user, snap, index, r);
    if r.Some? && r.value.key.user != user {
      r := None;
    }
  }

  /** Version::Get returns the newest entry at or below the snapshot over the union of all files. */
  method Get(v: seq<seq<File>>, user: UserKey, snap: nat) returns (r: Option<Value>)
    requires Shape(v) && Distinct(All(v))
    ensures r == Lookup(All(v), user, snap)
  {
    for level := 0 to NUM_LEVELS
      invariant NoneAbove(v, level, user, snap)
    {
      var hit;
      if level == 0 {
        hit := GetFromLevelZero(v[0], user, snap);
      } else {
        hit := GetFromLevel(v[level], user, snap);
      }
      if hit.Some? {
        NewestOfLevelIsNewest(v, level, user, snap, hit.value);
        return Visible(hit.value);   // kFound or kDeleted
      }
    }
    NothingAnywhere(v, user, snap);
    return None;
  }

  /** What a reader pins under the mutex: the memtable, the one being flushed, and the current version. */
  datatype View = View(mem: seq<Entry>, imm: Option<seq<Entry>>, version: seq<seq<File>>)

  ghost function ImmContent(w: View): set<Entry> {
    if w.imm.Some? then Elements(w.imm.value) else {}
  }

  ghost function ViewContent(w: View): set<Entry> {
    Elements(w.mem) + ImmContent(w) + All(w.version)
  }

  ghost predicate ViewShape(w: View) {
    Sorted(w.mem) && (w.imm.Some? ==> Sorted(w.imm.value)) && Shape(w.version) && Distinct(ViewContent(w)) &&
    NewerPerKey(Elements(w.mem), ImmContent(w) + All(w.version)) && NewerPerKey(ImmContent(w), All(w.version))
  }

  lemma LayeredLookup(upper: set<Entry>, lower: set<Entry>, user: UserKey, snap: nat, r: Option<Entry>)
    requires Distinct(upper + lower) && NewerPerKey(upper, lower)
    requires if r.Some? then Newest(upper, user, snap, r.value) else forall e :: !Candidate(upper, user, snap, e)
    ensures Lookup(upper + lower, user, snap) == if r.Some? then Visible(r.value) else Lookup(lower, user, snap)
  {
    if r.Some? {
      assert Newest(upper + lower, user, snap, r.value) by {
        forall f | Candidate(upper + lower, user, snap, f) ensures f.key.sequence <= r.value.key.sequence {
          assert f in upper ==> Candidate(upper, user, snap, f);
        }
      }
      LookupNewest(upper + lower, user, snap, r.value);
    } else {
      forall e ensures Candidate(upper + lower, user, snap, e) <==> Candidate(lower, user, snap, e) {
        assert !Candidate(upper, user, snap, e);
      }
      LookupByCandidates(upper + lower, snap, lower, snap, user);
    }
  }

  /** MemTable::Get: the skip-list seek skips entries that are too new; only the user key is compared. */
  method MemTableGet(mem: seq<Entry>, user: UserKey, snap: nat) returns (r: Option<Entry>)
    requires Sorted(mem)
    ensures if r.Some? then Newest(Elements(mem), user, snap, r.value)
            else forall e :: !Candidate(Elements(mem), user, snap, e)
  {
    var first := SearchRun(mem, user, snap);
    r := if first.Some? && first.value.key.user == user then first else None;
  }

  /** DBImpl::Get: memtable, then immutable memtable, then files. */
  method DbGet(w: View, user: UserKey, snap: nat) returns (r: Option<Value>)
    requires ViewShape(w)
    ensures r == Lookup(ViewContent(w), user, snap)
  {
    ghost var files, imm := All(w.version), ImmContent(w);
    assert Elements(w.mem) + (imm + files) == ViewContent(w);
    var hit := MemTableGet(w.mem, user, snap);
    LayeredLookup(Elements(w.mem), imm + files, user, snap, hit);
    if hit.Some? {
      return Visible(hit.value);
    }
    if w.imm.Some? {
      hit := MemTableGet(w.imm.value, user, snap);
      LayeredLookup(imm, files, user, snap, hit);
      if hit.Some? {
        return Visible(hit.value);
      }
    } else {
      assert imm + files == files;
    }
    r := Get(w.version, user, snap);
  }
}
