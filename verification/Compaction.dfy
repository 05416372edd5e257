/** The compaction loop of db/db_impl.cc and the two scans of db/version_set.cc it calls. */
module Compactions {
  import opened Lsm
  import opened Wrappers
  import opened Files
  import opened MergingIterators

  /** No file below the two compacted levels covers the user key. */
  ghost predicate BaseLevel(version: seq<seq<File>>, level: nat, user: UserKey) {
    forall l, f :: level + 2 <= l < |version| && f in version[l] ==> !Covers(f, user)
  }

  ghost function BaseUsers(version: seq<seq<File>>, level: nat): iset<UserKey> {
    iset u: UserKey | BaseLevel(version, level, u)
  }

  /** Rule (A): a newer entry of the same user key is itself at or below the smallest snapshot. */
  ghost predicate Hidden(es: seq<Entry>, snap: nat, i: nat)
    requires i < |es|
  {
    exists j :: 0 <= j < i && es[j].key.user == es[i].key.user && es[j].key.sequence <= snap
  }

  /** A deletion marker with nothing below it left to delete. */
  ghost predicate Obsolete(e: Entry, snap: nat, base: iset<UserKey>) {
    e.key.kind.Deletion? && e.key.sequence <= snap && e.key.user in base
  }

  /** The entries among the first `n` that the compaction keeps, in order. */
  ghost function Kept(es: seq<Entry>, snap: nat, base: iset<UserKey>, n: nat): seq<Entry>
    requires n <= |es|
  {
    if n == 0 then []
    else if Hidden(es, snap, n - 1) || Obsolete(es[n - 1], snap, base) then Kept(es, snap, base, n - 1)
    else Kept(es, snap, base, n - 1) + [es[n - 1]]
  }

  lemma {:induction false} KeptMembers(es: seq<Entry>, snap: nat, base: iset<UserKey>, n: nat, e: Entry)
    requires n <= |es|
    ensures e in Kept(es, snap, base, n) <==>
            exists i :: 0 <= i < n && es[i] == e && !Hidden(es, snap, i) && !Obsolete(e, snap, base)
  {
    if n > 0 {
      KeptMembers(es, snap, base, n - 1, e);
    }
  }

  lemma {:induction false} KeptSorted(es: seq<Entry>, snap: nat, base: iset<UserKey>, n: nat)
    requires n <= |es| && Sorted(es)
    ensures Sorted(Kept(es, snap, base, n))
  {
    if n > 0 {
      KeptSorted(es, snap, base, n - 1);
      forall e | e in Kept(es, snap, base, n - 1) ensures Before(e.key, es[n - 1].key) {
        KeptMembers(es, snap, base, n - 1, e);
      }
    }
  }

  /** At most one entry per user key at or below the smallest snapshot survives. */
  lemma AtMostOneSurvives(es: seq<Entry>, snap: nat, base: iset<UserKey>, e: Entry, f: Entry)
    requires Sorted(es)
    requires e in Kept(es, snap, base, |es|) && f in Kept(es, snap, base, |es|)
    requires e.key.user == f.key.user && e.key.sequence <= snap && f.key.sequence <= snap
    ensures e == f
  {
    KeptMembers(es, snap, base, |es|, e);
    KeptMembers(es, snap, base, |es|, f);
  }

  /** Dropping an obsolete deletion uncovers nothing: whenever the marker is what a read at the smallest snapshot
      finds, a read of the entries outside the compaction just below it finds nothing either. */
  ghost predicate UncoversNothing(es: seq<Entry>, snap: nat, base: iset<UserKey>, outside: set<Entry>) {
    forall e :: e in es && Obsolete(e, snap, base) && Newest(Elements(es) + outside, e.key.user, snap, e) ==>
      Lookup(outside, e.key.user, e.key.sequence) == None
  }

  ghost predicate SameReads(s: set<Entry>, t: set<Entry>, snap: nat) {
    forall u, n: nat :: n >= snap ==> Lookup(s, u, n) == Lookup(t, u, n)
  }

  ghost function After(es: seq<Entry>, snap: nat, base: iset<UserKey>, outside: set<Entry>): set<Entry> {
    Elements(Kept(es, snap, base, |es|)) + outside
  }

  lemma AfterIsSmaller(es: seq<Entry>, snap: nat, base: iset<UserKey>, outside: set<Entry>)
    ensures After(es, snap, base, outside) <= Elements(es) + outside
  {
    forall e | e in Kept(es, snap, base, |es|) ensures e in es {
      KeptMembers(es, snap, base, |es|, e);
    }
  }

  /** The newest entry at a live snapshot is never dropped by rule (A). */
  lemma NewestIsNotHidden(es: seq<Entry>, snap: nat, base: iset<UserKey>, outside: set<Entry>, n: nat, m: Entry)
    requires Sorted(es) && Distinct(Elements(es) + outside) && n >= snap
    requires m in es && Newest(Elements(es) + outside, m.key.user, n, m)
    ensures m in Kept(es, snap, base, |es|) || Obsolete(m, snap, base)
  {
    KeptMembers(es, snap, base, |es|, m);
    var i :| 0 <= i < |es| && es[i] == m;
    assert forall j :: 0 <= j < i && es[j].key.user == m.key.user ==>
           Before(es[j].key, m.key) && es[j] in Elements(es) + outside;
  }

  /** Once the marker `m` is gone, its user key reads as the outside entries below `m` say. */
  lemma ReadWithoutMarker(es: seq<Entry>, snap: nat, base: iset<UserKey>, outside: set<Entry>, n: nat, m: Entry)
    requires Sorted(es) && Distinct(Elements(es) + outside) && n >= snap
    requires m in es && Obsolete(m, snap, base) && m !in outside
    requires Newest(Elements(es) + outside, m.key.user, n, m)
    ensures Lookup(After(es, snap, base, outside), m.key.user, n) == Lookup(outside, m.key.user, m.key.sequence)
  {
    var u, a := m.key.user, After(es, snap, base, outside);
    AfterIsSmaller(es, snap, base, outside);
    forall c ensures Candidate(a, u, n, c) <==> Candidate(outside, u, m.key.sequence, c) {
      if Candidate(a, u, n, c) {
        assert Candidate(Elements(es) + outside, u, n, c);
        KeptMembers(es, snap, base, |es|, c);
      }
    }
    LookupByCandidates(a, n, outside, m.key.sequence, u);
  }

  lemma ReadKept(es: seq<Entry>, snap: nat, base: iset<UserKey>, outside: set<Entry>, u: UserKey, n: nat)
    requires Sorted(es) && Distinct(Elements(es) + outside) && n >= snap
    requires UncoversNothing(es, snap, base, outside)
    ensures Lookup(Elements(es) + outside, u, n) == Lookup(After(es, snap, base, outside), u, n)
  {
    var b, a := Elements(es) + outside, After(es, snap, base, outside);
    AfterIsSmaller(es, snap, base, outside);
    if c :| Candidate(b, u, n, c) {
      NewestExists(b, u, n, c);
      var m :| Newest(b, u, n, m);
      LookupNewest(b, u, n, m);
      if m in a {
        assert Newest(a, u, n, m) by {
          forall f | Candidate(a, u, n, f) ensures f.key.sequence <= m.key.sequence {
            assert Candidate(b, u, n, f);
          }
        }
        LookupNewest(a, u, n, m);
      } else {
        NewestIsNotHidden(es, snap, base, outside, n, m);
        ReadWithoutMarker(es, snap, base, outside, n, m);
        assert Newest(b, u, snap, m) by {
          forall f | Candidate(b, u, snap, f) ensures f.key.sequence <= m.key.sequence {
            assert Candidate(b, u, n, f);
          }
        }
      }
    } else {
      forall c ensures !Candidate(a, u, n, c) {
        assert !Candidate(b, u, n, c);
      }
    }
  }

  /** Reads at every snapshot that can still be taken survive the compaction exactly when dropping the
      obsolete deletions uncovers nothing. */
  lemma CompactionKeepsReadsIff(es: seq<Entry>, snap: nat, base: iset<UserKey>, outside: set<Entry>)
    requires Sorted(es) && Distinct(Elements(es) + outside) && Elements(es) !! outside
    ensures SameReads(Elements(es) + outside, After(es, snap, base, outside), snap)
            <==> UncoversNothing(es, snap, base, outside)
  {
    var b, a := Elements(es) + outside, After(es, snap, base, outside);
    if UncoversNothing(es, snap, base, outside) {
      forall u, n: nat | n >= snap ensures Lookup(b, u, n) == Lookup(a, u, n) {
        ReadKept(es, snap, base, outside, u, n);
      }
    }
    if SameReads(b, a, snap) {
      forall m | m in es && Obsolete(m, snap, base) && Newest(b, m.key.user, snap, m)
        ensures Lookup(outside, m.key.user, m.key.sequence) == None
      {
        ReadWithoutMarker(es, snap, base, outside, snap, m);
        LookupNewest(b, m.key.user, snap, m);
      }
    }
  }

  /** What the version set's shape guarantees: newer entries above, nothing of a base-level key below. */
  lemma OlderLevelsUncoverNothing(es: seq<Entry>, snap: nat, base: iset<UserKey>, upper: set<Entry>, lower: set<Entry>)
    requires forall e, o :: e in es && o in upper && o.key.user == e.key.user ==> o.key.sequence > e.key.sequence
    requires forall o :: o in lower ==> o.key.user !in base
    ensures UncoversNothing(es, snap, base, upper + lower)
  {
  }

  function Flatten(fs: seq<File>): seq<Entry> {
    if fs == [] then [] else Flatten(fs[..|fs| - 1]) + fs[|fs| - 1].entries
  }

  /** Each output names the first and last of its entries as its range. */
  ghost predicate Shaped(fs: seq<File>) {
    forall i :: 0 <= i < |fs| ==> NamesItsRange(fs[i])
  }

  ghost predicate NamesItsRange(f: File) {
    |f.entries| > 0 && f.smallest == f.entries[0].key && f.largest == f.entries[|f.entries| - 1].key
  }

  /** Outputs are numbered as they are opened. */
  ghost predicate NumberedFrom(fs: seq<File>, first: nat) {
    forall i :: 0 <= i < |fs| ==> fs[i].number == first + i
  }

  lemma {:induction false} FlattenMembers(fs: seq<File>, e: Entry)
    ensures e in Flatten(fs) <==> e in Contents(fs)
  {
    if fs != [] {
      FlattenMembers(fs[..|fs| - 1], e);
    }
  }

  /** Cutting a sorted sequence into files gives well-formed files in increasing, disjoint ranges. */
  lemma {:induction false} CutsAreDisjoint(fs: seq<File>)
    requires Sorted(Flatten(fs)) && Shaped(fs)
    ensures AllWellFormed(fs) && Disjoint(fs)
  {
    hide Sorted, Before, Flatten;
    if fs != [] {
      var init, last := fs[..|fs| - 1], fs[|fs| - 1];
      FlattenLast(fs);
      SortedParts(Flatten(init), last.entries);
      CutsAreDisjoint(init);
      forall i | 0 <= i < |init| ensures Before(init[i].largest, last.smallest) {
        assert NamesItsRange(fs[i]) && fs[i] == init[i] && init[i] in init;
        var e := init[i].entries[|init[i].entries| - 1];
        assert e in init[i].entries && e in Contents(init);
        FlattenMembers(init, e);
      }
    }
  }

  lemma FlattenLast(fs: seq<File>)
    requires fs != []
    ensures Flatten(fs) == Flatten(fs[..|fs| - 1]) + fs[|fs| - 1].entries
  {
  }

  lemma SortedParts(a: seq<Entry>, b: seq<Entry>)
    requires Sorted(a + b)
    ensures Sorted(a) && Sorted(b)
    ensures b != [] ==> forall e :: e in a ==> Before(e.key, b[0].key)
  {
    hide Before;
    var c := a + b;
    forall i, j | 0 <= i < j < |a| ensures Before(a[i].key, a[j].key) {
      assert c[i] == a[i] && c[j] == a[j];
    }
    forall i, j | 0 <= i < j < |b| ensures Before(b[i].key, b[j].key) {
      assert c[|a| + i] == b[i] && c[|a| + j] == b[j];
    }
    forall e | e in a && b != [] ensures Before(e.key, b[0].key) {
      var k :| 0 <= k < |a| && a[k] == e;
      assert c[k] == e && c[|a|] == b[0];
    }
  }

  /** In a sorted run, an entry is hidden exactly when the entry just before it says so. */
  lemma HiddenByPrevious(es: seq<Entry>, snap: nat, i: nat)
    requires Sorted(es) && i < |es|
    ensures Hidden(es, snap, i) <==>
            i > 0 && es[i - 1].key.user == es[i].key.user && es[i - 1].key.sequence <= snap
  {
  }

  class Compaction {
    const level: nat
    const version: seq<seq<File>>
    const grandparents: seq<File>
    const maxGrandParentOverlap: nat
    const levelPtrs: array<nat>
    var grandparentIndex: nat
    var seenKey: bool
    var overlappedBytes: nat

    ghost predicate Shape() {
      |version| == NUM_LEVELS && level + 1 < NUM_LEVELS && levelPtrs.Length == NUM_LEVELS &&
      forall l :: 1 <= l < NUM_LEVELS ==> AllWellFormed(version[l]) && Disjoint(version[l])
    }

    /** The scan pointers only passed files that end before `user`. */
    ghost predicate PtrsBehind(user: UserKey)
      requires Shape()
      reads levelPtrs
    {
      forall l :: level + 2 <= l < NUM_LEVELS ==>
        levelPtrs[l] <= |version[l]| &&
        forall i :: 0 <= i < levelPtrs[l] ==> version[l][i].largest.user < user
    }

    constructor (level: nat, version: seq<seq<File>>, grandparents: seq<File>, maxGrandParentOverlap: nat)
      requires |version| == NUM_LEVELS && level + 1 < NUM_LEVELS
      requires forall l :: 1 <= l < NUM_LEVELS ==> AllWellFormed(version[l]) && Disjoint(version[l])
      ensures Shape() && fresh(levelPtrs) && (forall l :: 0 <= l < NUM_LEVELS ==> levelPtrs[l] == 0)
      ensures this.level == level && this.version == version && this.grandparents == grandparents
      ensures this.maxGrandParentOverlap == maxGrandParentOverlap
      ensures grandparentIndex == 0 && !seenKey && overlappedBytes == 0
    {
      this.level, this.version, this.grandparents := level, version, grandparents;
      this.maxGrandParentOverlap := maxGrandParentOverlap;
      levelPtrs := new nat[NUM_LEVELS](_ => 0);
      grandparentIndex, seenKey, overlappedBytes := 0, false, 0;
    }

    /** Called with non-decreasing user keys, the moving pointers still answer for the whole level. */
    method IsBaseLevelForKey(user: UserKey) returns (base: bool)
      requires Shape() && PtrsBehind(user)
      modifies levelPtrs
      ensures PtrsBehind(user)
      ensures base <==> BaseLevel(version, level, user)
    {
      for lvl := level + 2 to NUM_LEVELS
        invariant PtrsBehind(user)
        invariant forall l, f :: level + 2 <= l < lvl && f in version[l] ==> !Covers(f, user)
      {
        var files := version[lvl];
        while levelPtrs[lvl] < |files|
          invariant PtrsBehind(user)
          decreases |files| - levelPtrs[lvl]
        {
          var f := files[levelPtrs[lvl]];
          if user <= f.largest.user {
            if f.smallest.user <= user {
              assert f in version[lvl] && Covers(f, user);
              return false;
            }
            break;
          }
          levelPtrs[lvl] := levelPtrs[lvl] + 1;
        }
        FirstAhead(files, levelPtrs[lvl], user);
      }
      return true;
    }

    /** Ends an output that would overlap too much of the level after next. The sum counts the grandparent files
        passed since the last stop. */
    method ShouldStopBefore(key: Key) returns (stop: bool)
      requires grandparentIndex <= |grandparents|
      modifies this
      ensures old(grandparentIndex) <= grandparentIndex <= |grandparents|
      ensures forall i :: old(grandparentIndex) <= i < grandparentIndex ==> Before(grandparents[i].largest, key)
      ensures grandparentIndex < |grandparents| ==> !Before(grandparents[grandparentIndex].largest, key)
      ensures seenKey
      ensures var passed := old(overlappedBytes) +
                (if old(seenKey) then TotalSize(grandparents[old(grandparentIndex)..grandparentIndex]) else 0);
              stop == (passed > maxGrandParentOverlap) && overlappedBytes == if stop then 0 else passed
    {
      ghost var from := grandparentIndex;
      while grandparentIndex < |grandparents| && Before(grandparents[grandparentIndex].largest, key)
        invariant from <= grandparentIndex <= |grandparents| && seenKey == old(seenKey)
        invariant forall i :: from <= i < grandparentIndex ==> Before(grandparents[i].largest, key)
        invariant overlappedBytes == old(overlappedBytes) +
                    if seenKey then TotalSize(grandparents[from..grandparentIndex]) else 0
      {
        if seenKey {
          overlappedBytes := overlappedBytes + grandparents[grandparentIndex].size;
        }
        grandparentIndex := grandparentIndex + 1;
        var span := grandparents[from..grandparentIndex];
        assert span[..|span| - 1] == grandparents[from..grandparentIndex - 1];
      }
      seenKey := true;
      if overlappedBytes > maxGrandParentOverlap {
        overlappedBytes := 0;
        stop := true;
      } else {
        stop := false;
      }
    }

    /** The compaction loop: reads the merged inputs once, drops what no live snapshot needs and cuts the rest
        into output files. Writing a file may fail at any point. */
    method DoCompactionWork(input: MergingIterator, smallestSnapshot: nat, firstNumber: nat)
      returns (ok: bool, outputs: seq<File>)
      requires Shape() && input.Ok() && (forall l :: 0 <= l < NUM_LEVELS ==> levelPtrs[l] == 0)
      requires grandparentIndex <= |grandparents| && smallestSnapshot < MAX_SEQUENCE
      modifies this, levelPtrs, input, input.children
      ensures ok ==> Flatten(outputs) == Kept(input.merged, smallestSnapshot, Base(), |input.merged|)
      ensures ok ==> AllWellFormed(outputs) && Disjoint(outputs)
      ensures ok ==> NumberedFrom(outputs, firstNumber)
    {
      hide MergingIterator.Ok, Sorted, Kept, Hidden, BaseLevel, Flatten, Shaped;
      ghost var es := input.merged;
      outputs := [];
      var building := false;
      input.SeekToFirst();
      KeptNone(es, smallestSnapshot, Base());
      var hasCurrentUserKey, currentUserKey, lastSequenceForKey := false, EMPTY_KEY, MAX_SEQUENCE;
      while input.Valid()
        invariant input.Ok() && Shape() && grandparentIndex <= |grandparents|
        invariant hasCurrentUserKey <==> input.pos > 0
        invariant input.pos > 0 ==> currentUserKey == es[input.pos - 1].key.user &&
                                    lastSequenceForKey == es[input.pos - 1].key.sequence
        invariant if input.pos == 0 then forall l :: 0 <= l < NUM_LEVELS ==> levelPtrs[l] == 0
                  else PtrsBehind(currentUserKey)
        invariant building ==> outputs != []
        invariant Shaped(outputs) && Flatten(outputs) == Kept(es, smallestSnapshot, Base(), input.pos)
        invariant NumberedFrom(outputs, firstNumber)
        decreases |es| - input.pos
      {
        var e := input.Top();
        UserKeysAscend(es, input.pos);
        assert PtrsBehind(e.key.user);
        var stop := ShouldStopBefore(e.key);
        if stop && building {
          var finished := *;
          if !finished { return false, []; }
          building := false;
        }

        var drop := false;
        if !hasCurrentUserKey || e.key.user != currentUserKey {
          // First occurrence of this user key
          currentUserKey := e.key.user;
          hasCurrentUserKey := true;
          lastSequenceForKey := MAX_SEQUENCE;
        }
        HiddenByPrevious(es, smallestSnapshot, input.pos);
        if lastSequenceForKey <= smallestSnapshot {
          drop := true;
        } else if e.key.kind == Deletion && e.key.sequence <= smallestSnapshot {
          var base := IsBaseLevelForKey(e.key.user);
          drop := base;
        }
        lastSequenceForKey := e.key.sequence;

        KeptStep(es, smallestSnapshot, Base(), input.pos, drop);
        if !drop {
          ok, outputs, building := Emit(outputs, building, e, firstNumber);
          if !ok { return false, []; }
        }
        input.Next();
      }
      KeptSorted(es, smallestSnapshot, Base(), |es|);
      CutsAreDisjoint(outputs);
      ok := *;
    }

    /** Append a kept entry to the open output, opening one if necessary and closing it when it is big enough. */
    static method Emit(outputs: seq<File>, building: bool, e: Entry, firstNumber: nat)
      returns (ok: bool, more: seq<File>, stillBuilding: bool)
      requires Shaped(outputs) && (building ==> outputs != [])
      requires NumberedFrom(outputs, firstNumber)
      ensures ok ==> Shaped(more) && Flatten(more) == Flatten(outputs) + [e] && (stillBuilding ==> more != [])
      ensures ok ==> NumberedFrom(more, firstNumber)
    {
      hide Shaped, NumberedFrom, Flatten, AddToLast;
      if building {
        ShapedFront(outputs);
      }
      more, stillBuilding := outputs, building;
      if !building {
        var created := *;
        if !created { return false, [], false; }
        more := outputs + [File(firstNumber + |outputs|, 0, e.key, e.key, [])];
        stillBuilding := true;
        OpensOutput(outputs, more[|outputs|], firstNumber);
      }
      AddedKeeps(more, e, firstNumber);
      more := AddToLast(more, e);
      // The builder's file size depends on the encoded blocks
      var full := *;
      if full {
        var finished := *;
        if !finished { return false, [], false; }
        stillBuilding := false;
      }
      ok := true;
    }

    ghost function Base(): iset<UserKey> {
      BaseUsers(version, level)
    }
  }

  lemma KeptStep(es: seq<Entry>, snap: nat, base: iset<UserKey>, i: nat, drop: bool)
    requires i < |es| && (drop <==> Hidden(es, snap, i) || Obsolete(es[i], snap, base))
    ensures Kept(es, snap, base, i + 1) == Kept(es, snap, base, i) + if drop then [] else [es[i]]
  {
  }

  lemma UserKeysAscend(es: seq<Entry>, i: nat)
    requires Sorted(es) && i < |es|
    ensures i > 0 ==> es[i - 1].key.user <= es[i].key.user
  {
  }

  lemma KeptNone(es: seq<Entry>, snap: nat, base: iset<UserKey>)
    ensures Kept(es, snap, base, 0) == Flatten([]) && Shaped([])
  {
  }

  function AddToLast(fs: seq<File>, e: Entry): (r: seq<File>)
    requires fs != []
    ensures Flatten(r) == Flatten(fs) + [e]
  {
    var last := fs[|fs| - 1];
    var r := fs[..|fs| - 1] + [last.(smallest := if last.entries == [] then e.key else last.smallest,
                                     largest := e.key, entries := last.entries + [e])];
    assert r[..|r| - 1] == fs[..|fs| - 1];
    r
  }

  /** All outputs but the last name their range, and the last does if it holds anything. */
  ghost predicate ShapedSoFar(fs: seq<File>) {
    fs != [] && Shaped(fs[..|fs| - 1]) && (fs[|fs| - 1].entries == [] || NamesItsRange(fs[|fs| - 1]))
  }

  lemma ShapedFront(fs: seq<File>)
    requires Shaped(fs) && fs != []
    ensures ShapedSoFar(fs)
  {
    hide NamesItsRange;
  }

  lemma OpensOutput(fs: seq<File>, f: File, first: nat)
    requires Shaped(fs) && NumberedFrom(fs, first) && f.entries == [] && f.number == first + |fs|
    ensures ShapedSoFar(fs + [f]) && NumberedFrom(fs + [f], first) && Flatten(fs + [f]) == Flatten(fs)
  {
    hide NamesItsRange;
    assert (fs + [f])[..|fs|] == fs;
  }

  lemma AddedKeeps(fs: seq<File>, e: Entry, first: nat)
    requires ShapedSoFar(fs) && NumberedFrom(fs, first)
    ensures AddToLast(fs, e) != [] && Shaped(AddToLast(fs, e)) && NumberedFrom(AddToLast(fs, e), first)
  {
    hide Flatten;
    var r := AddToLast(fs, e);
    var n := |fs| - 1;
    forall i | 0 <= i < |r| ensures NamesItsRange(r[i]) {
      if i < n {
        assert r[i] == fs[..n][i];
      }
    }
  }

  /** Past the files that end before `user`, only the first one can cover it. */
  lemma FirstAhead(files: seq<File>, p: nat, user: UserKey)
    requires AllWellFormed(files) && Disjoint(files) && p <= |files|
    requires forall i :: 0 <= i < p ==> files[i].largest.user < user
    requires p < |files| ==> user < files[p].smallest.user
    ensures forall f :: f in files ==> !Covers(f, user)
  {
    forall f | f in files ensures !Covers(f, user) {
      var i :| 0 <= i < |files| && files[i] == f;
      if i > p {
        assert Before(files[p].largest, files[i].smallest);
        InRange(files[p], files[p].entries[0]);
      }
    }
  }
}
