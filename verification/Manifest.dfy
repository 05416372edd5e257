/** VersionSet of db/version_set.cc: logging edits, applying them, and recovering from the log. */
module Manifests {
  import opened Wrappers
  import opened Bytes
  import opened Files
  import opened VersionEdits
  import opened Builders
  import opened LogReader

  type Version = seq<seq<FileMeta>>

  function NoFiles(): (r: Version)
    ensures |r| == NUM_LEVELS
  {
    seq(NUM_LEVELS, i => [])
  }

  /** The next version, built from the current one and a single edit. */
  function Step(v: Version, e: VersionEdit): (r: Version)
    requires |v| == NUM_LEVELS
    ensures |r| == NUM_LEVELS
  {
    Saved(v, ApplyEdit(EmptyLevels(), e))
  }

  /** One edit at a time. */
  function Replay(v: Version, es: seq<VersionEdit>): (r: Version)
    requires |v| == NUM_LEVELS
    ensures |r| == NUM_LEVELS
    decreases |es|
  {
    if es == [] then v else Replay(Step(v, es[0]), es[1..])
  }

  /** All edits into one builder. */
  function ApplyEdits(b: seq<LevelState>, es: seq<VersionEdit>): (r: seq<LevelState>)
    ensures |r| == |b|
    decreases |es|
  {
    if es == [] then b else ApplyEdits(ApplyEdit(b, es[0]), es[1..])
  }

  // --- File numbers are fresh: no level ever gets the same number twice ---

  type Placed = (nat, nat)   // level and file number

  function Placements(fs: seq<(nat, FileMeta)>): set<Placed> {
    set i | 0 <= i < |fs| :: (fs[i].0, fs[i].1.number)
  }

  /** Proper files at existing levels, under numbers new to those levels. */
  ghost predicate FreshFiles(used: set<Placed>, fs: seq<(nat, FileMeta)>) {
    && (forall i :: 0 <= i < |fs| ==> fs[i].0 < NUM_LEVELS && Proper(fs[i].1) && (fs[i].0, fs[i].1.number) !in used)
    && (forall i, j :: 0 <= i < j < |fs| ==> fs[i].0 != fs[j].0 || fs[i].1.number != fs[j].1.number)
  }

  ghost predicate FreshRun(used: set<Placed>, es: seq<VersionEdit>)
    decreases |es|
  {
    es == [] || (FreshFiles(used, es[0].newFiles) && FreshRun(used + Placements(es[0].newFiles), es[1..]))
  }

  /** What one edit adds to, and deletes from, one level. */
  function AddedAt(fs: seq<(nat, FileMeta)>, level: nat): set<FileMeta> {
    set i | 0 <= i < |fs| && fs[i].0 == level :: fs[i].1
  }

  function DeletedAt(ds: seq<Deleted>, level: nat): set<nat> {
    set i | 0 <= i < |ds| && ds[i].0 == level :: ds[i].1
  }

  ghost function Numbers(fs: set<FileMeta>): set<nat> {
    set f | f in fs :: f.number
  }

  /** A list of files kept in order, under distinct numbers all of which are used at its level. */
  ghost predicate Kept(fs: seq<FileMeta>, level: nat, used: set<Placed>) {
    && MetaSorted(fs) && AllProper(fs)
    && (forall f :: f in fs ==> (level, f.number) in used)
    && (forall f, g :: f in fs && g in fs && f.number == g.number ==> f == g)
  }

  lemma {:induction false} DeletedState(b: seq<LevelState>, ds: seq<Deleted>, level: nat)
    requires level < |b|
    ensures ApplyDeleted(b, ds)[level] == b[level].(deleted := b[level].deleted + DeletedAt(ds, level))
    decreases |ds|
  {
    if ds == [] {
      assert b[level].deleted + DeletedAt(ds, level) == b[level].deleted;
    } else {
      var d := ds[0];
      var b1 := if d.0 < |b| then b[d.0 := DeleteNumber(b[d.0], d.1)] else b;
      DeletedState(b1, ds[1..], level);
      assert b1[level].deleted + DeletedAt(ds[1..], level) == b[level].deleted + DeletedAt(ds, level) by {
        assert ds == [d] + ds[1..];
        forall n ensures n in b1[level].deleted + DeletedAt(ds[1..], level) <==>
          n in b[level].deleted + DeletedAt(ds, level) {
          if n in DeletedAt(ds, level) {
            var i :| 0 <= i < |ds| && ds[i].0 == level && ds[i].1 == n;
            if i > 0 { assert ds[1..][i - 1] == ds[i]; }
          }
        }
      }
    }
  }

  lemma {:induction false} InsertKeepsOrder(s: seq<FileMeta>, f: FileMeta)
    requires MetaSorted(s) && AllProper(s) && Proper(f)
    requires forall g :: g in s ==> g.number != f.number
    ensures MetaSorted(InsertMeta(s, f)) && AllProper(InsertMeta(s, f))
    ensures forall g :: g in InsertMeta(s, f) <==> g in s || g == f
  {
    hide MetaLess, Proper;
    if s != [] {
      MetaLessIsTotal(s[0], f);
      if MetaLess(s[0], f) {
        InsertKeepsOrder(s[1..], f);
        SortedConcat([s[0]], InsertMeta(s[1..], f));
      } else {
        forall g | g in s ensures MetaLess(f, g) {
          if g != s[0] { MetaLessIsTransitive(f, s[0], g); }
        }
        SortedConcat([f], s);
      }
    }
  }

  /** Adding fresh files to a level: the set grows by them, in order, and their numbers are undeleted. */
  lemma {:induction false} AddedState(b: seq<LevelState>, fs: seq<(nat, FileMeta)>, level: nat, used: set<Placed>)
    requires level < |b| == NUM_LEVELS && Kept(b[level].added, level, used) && FreshFiles(used, fs)
    ensures var r := ApplyNew(b, fs)[level];
            && MetaSorted(r.added) && AllProper(r.added)
            && (forall f :: f in r.added <==> f in b[level].added || f in AddedAt(fs, level))
            && r.deleted == b[level].deleted - Numbers(AddedAt(fs, level))
    decreases |fs|
  {
    hide MetaSorted, Proper, InsertMeta;
    if fs != [] {
      var l, f := fs[0].0, fs[0].1;
      var b1 := b[l := AddMeta(b[l], f)];
      if l == level {
        InsertKeepsOrder(b[level].added, f);
      }
      AddedState(b1, fs[1..], level, used + {(l, f.number)});
      AddedFirst(fs, level);
    }
  }

  lemma AddedFirst(fs: seq<(nat, FileMeta)>, level: nat)
    requires fs != []
    ensures AddedAt(fs, level) == AddedAt(fs[1..], level) + if fs[0].0 == level then {fs[0].1} else {}
  {
    forall f ensures f in AddedAt(fs, level) <==>
      f in AddedAt(fs[1..], level) + if fs[0].0 == level then {fs[0].1} else {} {
      if f in AddedAt(fs, level) {
        var i :| 0 <= i < |fs| && fs[i].0 == level && fs[i].1 == f;
        if i > 0 { assert fs[1..][i - 1] == fs[i]; }
      }
      if f in AddedAt(fs[1..], level) {
        var i :| 0 <= i < |fs[1..]| && fs[1..][i].0 == level && fs[1..][i].1 == f;
        assert fs[i + 1] == fs[1..][i];
      }
    }
  }

  lemma AddedIsFresh(fs: seq<(nat, FileMeta)>, level: nat, used: set<Placed>)
    requires FreshFiles(used, fs)
    ensures forall f :: f in AddedAt(fs, level) ==> (level, f.number) !in used && (level, f.number) in Placements(fs)
    ensures forall f, g :: f in AddedAt(fs, level) && g in AddedAt(fs, level) && f.number == g.number ==> f == g
  {
    hide Proper;
  }

  /** One level after one more edit, built in one batch. */
  lemma LevelState1(b: seq<LevelState>, e: VersionEdit, level: nat, used: set<Placed>)
    requires level < |b| == NUM_LEVELS && Kept(b[level].added, level, used) && FreshFiles(used, e.newFiles)
    ensures var r := ApplyEdit(b, e)[level];
            && Kept(r.added, level, used + Placements(e.newFiles))
            && (forall f :: f in r.added <==> f in b[level].added || f in AddedAt(e.newFiles, level))
            && r.deleted == b[level].deleted + DeletedAt(e.deletedFiles, level) - Numbers(AddedAt(e.newFiles, level))
  {
    hide MetaSorted, AllProper, ApplyNew, ApplyDeleted, FreshFiles;
    DeletedState(b, e.deletedFiles, level);
    AddedState(ApplyDeleted(b, e.deletedFiles), e.newFiles, level, used);
    AddedIsFresh(e.newFiles, level, used);
  }

  function MergeState(base: seq<FileMeta>, ls: LevelState): seq<FileMeta> {
    Merge(base, ls.added, ls.deleted)
  }

  lemma MergeKept(base: seq<FileMeta>, ls: LevelState, level: nat, used: set<Placed>)
    requires Kept(base, level, used) && Kept(ls.added, level, used) && NoSharedNumbers(base, ls.added)
    ensures Kept(MergeState(base, ls), level, used)
    ensures forall f :: f in MergeState(base, ls) <==> (f in base || f in ls.added) && f.number !in ls.deleted
  {
    hide MetaSorted, Merge, Proper;
    MergeMembers(base, ls.added, ls.deleted);
    MergeSorted(base, ls.added, ls.deleted);
    forall i | 0 <= i < |MergeState(base, ls)| ensures Proper(MergeState(base, ls)[i]) {
      assert MergeState(base, ls)[i] in base || MergeState(base, ls)[i] in ls.added;
    }
  }

  /** The heart of replay: an edit may join the batch, or be applied to what the batch has saved. */
  lemma LevelStep(base: Version, b: seq<LevelState>, e: VersionEdit, level: nat, used: set<Placed>)
    requires level < |base| == |b| == NUM_LEVELS && FreshFiles(used, e.newFiles)
    requires Kept(base[level], level, used) && Kept(b[level].added, level, used)
    requires NoSharedNumbers(base[level], b[level].added)
    ensures NoSharedNumbers(base[level], ApplyEdit(b, e)[level].added)
    ensures Kept(base[level], level, used + Placements(e.newFiles))
    ensures MergeState(base[level], ApplyEdit(b, e)[level]) ==
            MergeState(MergeState(base[level], b[level]), ApplyEdit(EmptyLevels(), e)[level])
  {
    hide MetaSorted, AllProper, ApplyEdit, MergeState, FreshFiles;
    var v := MergeState(base[level], b[level]);
    var used1 := used + Placements(e.newFiles);
    MergeKept(base[level], b[level], level, used);
    LevelState1(b, e, level, used);
    EmptyIsKept(level, used);
    LevelState1(EmptyLevels(), e, level, used);
    AddedIsFresh(e.newFiles, level, used);
    var batch, one := ApplyEdit(b, e)[level], ApplyEdit(EmptyLevels(), e)[level];
    assert NoSharedNumbers(base[level], batch.added) && NoSharedNumbers(v, one.added);
    assert Kept(v, level, used1);
    MergeKept(base[level], batch, level, used1);
    MergeKept(v, one, level, used1);
    forall f ensures f in MergeState(base[level], batch) <==> f in MergeState(v, one) {
      SameFate(base[level], b[level], e, level, used, f);
    }
    SortedUnique(MergeState(base[level], batch), MergeState(v, one));
  }

  lemma EmptyIsKept(level: nat, used: set<Placed>)
    requires level < NUM_LEVELS
    ensures Kept(EmptyLevels()[level].added, level, used) && EmptyLevels()[level] == NOTHING
  {
  }

  lemma SameFate(base: seq<FileMeta>, ls: LevelState, e: VersionEdit, level: nat, used: set<Placed>, f: FileMeta)
    requires Kept(base, level, used) && Kept(ls.added, level, used) && FreshFiles(used, e.newFiles)
    ensures var a, d := AddedAt(e.newFiles, level), DeletedAt(e.deletedFiles, level);
            (f in base || f in ls.added || f in a) && f.number !in ls.deleted + d - Numbers(a) <==>
            (((f in base || f in ls.added) && f.number !in ls.deleted) || f in a) && f.number !in {} + d - Numbers(a)
  {
    hide MetaSorted, AllProper, FreshFiles;
    AddedIsFresh(e.newFiles, level, used);
  }

  ghost predicate BatchReady(base: Version, b: seq<LevelState>, used: set<Placed>)
    requires |base| == |b| == NUM_LEVELS
  {
    forall l :: 0 <= l < NUM_LEVELS ==>
      Kept(base[l], l, used) && Kept(b[l].added, l, used) && NoSharedNumbers(base[l], b[l].added)
  }

  /** Applying edits in one batch gives the version that applying them one at a time gives. */
  lemma {:induction false} BatchIsReplay(base: Version, b: seq<LevelState>, es: seq<VersionEdit>, used: set<Placed>)
    requires |base| == |b| == NUM_LEVELS && BatchReady(base, b, used) && FreshRun(used, es)
    ensures Saved(base, ApplyEdits(b, es)) == Replay(Saved(base, b), es)
    decreases |es|
  {
    hide Kept, NoSharedNumbers, FreshFiles, ApplyEdit, Saved;
    if es != [] {
      var used1 := used + Placements(es[0].newFiles);
      BatchStep(base, b, es[0], used);
      BatchIsReplay(base, ApplyEdit(b, es[0]), es[1..], used1);
    }
  }

  lemma BatchStep(base: Version, b: seq<LevelState>, e: VersionEdit, used: set<Placed>)
    requires |base| == |b| == NUM_LEVELS && BatchReady(base, b, used) && FreshFiles(used, e.newFiles)
    ensures BatchReady(base, ApplyEdit(b, e), used + Placements(e.newFiles))
    ensures Saved(base, ApplyEdit(b, e)) == Step(Saved(base, b), e)
  {
    hide Kept, NoSharedNumbers, FreshFiles, ApplyEdit;
    forall l | 0 <= l < NUM_LEVELS
      ensures Kept(base[l], l, used + Placements(e.newFiles))
      ensures Kept(ApplyEdit(b, e)[l].added, l, used + Placements(e.newFiles))
      ensures NoSharedNumbers(base[l], ApplyEdit(b, e)[l].added)
      ensures MergeState(base[l], ApplyEdit(b, e)[l]) ==
              MergeState(MergeState(base[l], b[l]), ApplyEdit(EmptyLevels(), e)[l])
    {
      LevelStep(base, b, e, l, used);
      LevelState1(b, e, l, used);
    }
    SavedLevels(base, b);
    SavedLevels(base, ApplyEdit(b, e));
    SavedLevels(Saved(base, b), ApplyEdit(EmptyLevels(), e));
  }

  lemma SavedLevels(base: Version, b: seq<LevelState>)
    requires |base| == |b| == NUM_LEVELS
    ensures forall l :: 0 <= l < NUM_LEVELS ==> Saved(base, b)[l] == MergeState(base[l], b[l])
  {
    hide Merge;
  }

  /** Every version along a run stays in order, under used numbers. */
  ghost predicate KeptVersion(v: Version, used: set<Placed>)
    requires |v| == NUM_LEVELS
  {
    forall l :: 0 <= l < NUM_LEVELS ==> Kept(v[l], l, used)
  }

  lemma StepKeeps(v: Version, e: VersionEdit, used: set<Placed>)
    requires |v| == NUM_LEVELS && KeptVersion(v, used) && FreshFiles(used, e.newFiles)
    ensures KeptVersion(Step(v, e), used + Placements(e.newFiles))
  {
    hide Kept, FreshFiles, ApplyEdit, Saved, MergeState;
    var used1 := used + Placements(e.newFiles);
    SavedLevels(v, ApplyEdit(EmptyLevels(), e));
    forall l | 0 <= l < NUM_LEVELS ensures Kept(Step(v, e)[l], l, used1) {
      StepKeepsLevel(v, e, used, l);
    }
  }

  lemma StepKeepsLevel(v: Version, e: VersionEdit, used: set<Placed>, l: nat)
    requires l < |v| == NUM_LEVELS && Kept(v[l], l, used) && FreshFiles(used, e.newFiles)
    ensures Kept(MergeState(v[l], ApplyEdit(EmptyLevels(), e)[l]), l, used + Placements(e.newFiles))
  {
    hide MetaSorted, AllProper, ApplyEdit, MergeState, FreshFiles;
    EmptyIsKept(l, used);
    LevelState1(EmptyLevels(), e, l, used);
    AddedIsFresh(e.newFiles, l, used);
    MergeKept(v[l], ApplyEdit(EmptyLevels(), e)[l], l, used + Placements(e.newFiles));
  }

  // --- The snapshot record ---

  function LevelFiles(level: nat, fs: seq<FileMeta>): (r: seq<(nat, FileMeta)>)
    ensures |r| == |fs| && forall i :: 0 <= i < |fs| ==> r[i] == (level, fs[i])
  {
    seq(|fs|, i requires 0 <= i < |fs| => (level, fs[i]))
  }

  function SnapshotFiles(v: Version, level: nat): seq<(nat, FileMeta)>
    requires level <= |v|
    decreases |v| - level
  {
    if level == |v| then [] else LevelFiles(level, v[level]) + SnapshotFiles(v, level + 1)
  }

  /** The edit that WriteSnapshot logs. */
  function SnapshotEdit(v: Version, name: Bytes): VersionEdit {
    EMPTY_EDIT.(comparator := Some(name), newFiles := SnapshotFiles(v, 0))
  }

  lemma {:induction false} SnapshotAt(v: Version, from: nat, level: nat)
    requires from <= |v| == NUM_LEVELS && level < |v|
    ensures forall f :: f in AddedAt(SnapshotFiles(v, from), level) <==> from <= level && f in v[level]
    decreases |v| - from
  {
    if from < |v| {
      SnapshotAt(v, from + 1, level);
      AddedConcat(LevelFiles(from, v[from]), SnapshotFiles(v, from + 1), level);
      forall f ensures f in AddedAt(LevelFiles(from, v[from]), level) <==> from == level && f in v[from] {
        if from == level && f in v[from] {
          var i :| 0 <= i < |v[from]| && v[from][i] == f;
          assert LevelFiles(from, v[from])[i] == (level, f);
        }
      }
    }
  }

  lemma AddedConcat(a: seq<(nat, FileMeta)>, b: seq<(nat, FileMeta)>, level: nat)
    ensures AddedAt(a + b, level) == AddedAt(a, level) + AddedAt(b, level)
  {
    forall f ensures f in AddedAt(a + b, level) <==> f in AddedAt(a, level) + AddedAt(b, level) {
      if f in AddedAt(a, level) {
        var i :| 0 <= i < |a| && a[i].0 == level && a[i].1 == f;
        assert (a + b)[i] == a[i];
      }
      if f in AddedAt(b, level) {
        var i :| 0 <= i < |b| && b[i].0 == level && b[i].1 == f;
        assert (a + b)[|a| + i] == b[i];
      }
    }
  }

  lemma {:induction false} SnapshotIsFresh(v: Version, from: nat, used: set<Placed>)
    requires from <= |v| == NUM_LEVELS && KeptVersion(v, used)
    ensures FreshFiles({}, SnapshotFiles(v, from))
    ensures forall i :: 0 <= i < |SnapshotFiles(v, from)| ==> SnapshotFiles(v, from)[i].0 >= from
    decreases |v| - from
  {
    hide Proper;
    if from < |v| {
      SnapshotIsFresh(v, from + 1, used);
      LevelIsFresh(v[from], from, used);
      var a, b := LevelFiles(from, v[from]), SnapshotFiles(v, from + 1);
      assert SnapshotFiles(v, from) == a + b;
    }
  }

  lemma LevelIsFresh(fs: seq<FileMeta>, level: nat, used: set<Placed>)
    requires level < NUM_LEVELS && Kept(fs, level, used)
    ensures FreshFiles({}, LevelFiles(level, fs))
  {
    hide Proper, MetaLess;
    forall i, j | 0 <= i < j < |fs| ensures fs[i].number != fs[j].number {
      MetaLessIsStrict(fs[i], fs[j]);
      assert MetaLess(fs[i], fs[j]);
    }
  }

  /** The snapshot record rebuilds the version it was taken of. */
  lemma SnapshotRestores(v: Version, name: Bytes, used: set<Placed>)
    requires |v| == NUM_LEVELS && KeptVersion(v, used)
    ensures FreshFiles({}, SnapshotEdit(v, name).newFiles)
    ensures Step(NoFiles(), SnapshotEdit(v, name)) == v
  {
    hide Kept, FreshFiles, ApplyEdit, Saved, MergeState, SnapshotFiles;
    var e := SnapshotEdit(v, name);
    SnapshotIsFresh(v, 0, used);
    SavedLevels(NoFiles(), ApplyEdit(EmptyLevels(), e));
    forall l | 0 <= l < NUM_LEVELS ensures MergeState([], ApplyEdit(EmptyLevels(), e)[l]) == v[l] {
      SnapshotLevel(v, e, used, l);
    }
  }

  lemma SnapshotLevel(v: Version, e: VersionEdit, used: set<Placed>, l: nat)
    requires l < |v| == NUM_LEVELS && Kept(v[l], l, used)
    requires e.newFiles == SnapshotFiles(v, 0) && e.deletedFiles == [] && FreshFiles({}, e.newFiles)
    ensures MergeState([], ApplyEdit(EmptyLevels(), e)[l]) == v[l]
  {
    hide MetaSorted, AllProper, ApplyEdit, MergeState, FreshFiles, SnapshotFiles, EmptyLevels;
    EmptyIsKept(l, {});
    LevelState1(EmptyLevels(), e, l, {});
    SnapshotAt(v, 0, l);
    var ls := ApplyEdit(EmptyLevels(), e)[l];
    NothingKept(l, {} + Placements(e.newFiles));
    MergeKept([], ls, l, {} + Placements(e.newFiles));
    SortedUnique(MergeState([], ls), v[l]);
  }

  lemma NothingKept(l: nat, used: set<Placed>)
    ensures Kept([], l, used)
  {
  }
}
