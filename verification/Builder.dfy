/** VersionSet::Builder of db/version_set.cc: a batch of edits applied to a version at once. */
module Builders {
  import opened DbFormat
  import opened Files
  import opened VersionEdits

  /** BySmallestKey: ties broken by file number. */
  predicate MetaLess(f: FileMeta, g: FileMeta) {
    KeyLess(f.smallest, g.smallest) || (f.smallest == g.smallest && f.number < g.number)
  }

  ghost predicate MetaSorted(s: seq<FileMeta>) {
    forall i, j :: 0 <= i < j < |s| ==> MetaLess(s[i], s[j])
  }

  /** The range of a real file holds internal keys. */
  predicate Proper(f: FileMeta) {
    |f.smallest| >= 8 && |f.largest| >= 8
  }

  ghost predicate AllProper(s: seq<FileMeta>) {
    forall i :: 0 <= i < |s| ==> Proper(s[i])
  }

  lemma MetaLessIsStrict(f: FileMeta, g: FileMeta)
    ensures !MetaLess(f, f) && !(MetaLess(f, g) && MetaLess(g, f))
  {
    hide InternalLess;
    if |f.smallest| >= 8 && |g.smallest| >= 8 {
      InternalLessIsStrict(f.smallest, g.smallest);
    }
    if |f.smallest| >= 8 {
      InternalLessIsStrict(f.smallest, f.smallest);
    }
  }

  lemma MetaLessIsTotal(f: FileMeta, g: FileMeta)
    requires Proper(f) && Proper(g) && f.number != g.number
    ensures MetaLess(f, g) || MetaLess(g, f)
  {
    hide InternalLess;
    InternalLessIsTotal(f.smallest, g.smallest);
  }

  lemma MetaLessIsTransitive(f: FileMeta, g: FileMeta, h: FileMeta)
    requires MetaLess(f, g) && MetaLess(g, h)
    ensures MetaLess(f, h)
  {
    hide InternalLess;
    if KeyLess(f.smallest, g.smallest) && KeyLess(g.smallest, h.smallest) {
      InternalLessIsTransitive(f.smallest, g.smallest, h.smallest);
    }
  }

  /** Insertion into the ordered set of added files: an equivalent element is kept. */
  function InsertMeta(s: seq<FileMeta>, f: FileMeta): seq<FileMeta> {
    if s == [] then [f]
    else if MetaLess(s[0], f) then [s[0]] + InsertMeta(s[1..], f)
    else if MetaLess(f, s[0]) then [f] + s
    else s
  }

  datatype LevelState = LevelState(deleted: set<nat>, added: seq<FileMeta>)

  const NOTHING := LevelState({}, [])

  function EmptyLevels(): (r: seq<LevelState>)
    ensures |r| == NUM_LEVELS
  {
    seq(NUM_LEVELS, i => NOTHING)
  }

  function DeleteNumber(ls: LevelState, number: nat): LevelState {
    ls.(deleted := ls.deleted + {number})
  }

  function AddMeta(ls: LevelState, f: FileMeta): LevelState {
    LevelState(ls.deleted - {f.number}, InsertMeta(ls.added, f))
  }

  function ApplyDeleted(b: seq<LevelState>, ds: seq<Deleted>): (r: seq<LevelState>)
    ensures |r| == |b|
    decreases |ds|
  {
    if ds == [] then b
    else ApplyDeleted(if ds[0].0 < |b| then b[ds[0].0 := DeleteNumber(b[ds[0].0], ds[0].1)] else b, ds[1..])
  }

  function ApplyNew(b: seq<LevelState>, fs: seq<(nat, FileMeta)>): (r: seq<LevelState>)
    ensures |r| == |b|
    decreases |fs|
  {
    if fs == [] then b
    else ApplyNew(if fs[0].0 < |b| then b[fs[0].0 := AddMeta(b[fs[0].0], fs[0].1)] else b, fs[1..])
  }

  function ApplyEdit(b: seq<LevelState>, e: VersionEdit): (r: seq<LevelState>)
    ensures |r| == |b|
  {
    ApplyNew(ApplyDeleted(b, e.deletedFiles), e.newFiles)
  }

  /** std::upper_bound: the first file that sorts after `f`. */
  function UpperBound(base: seq<FileMeta>, f: FileMeta): (k: nat)
    ensures k <= |base|
    ensures forall i :: 0 <= i < k ==> !MetaLess(f, base[i])
    ensures k < |base| ==> MetaLess(f, base[k])
  {
    if base == [] || MetaLess(f, base[0]) then 0
    else
      var k := UpperBound(base[1..], f);
      assert forall i :: 0 < i < k + 1 ==> base[i] == base[1..][i - 1];
      k + 1
  }

  function Undeleted(fs: seq<FileMeta>, deleted: set<nat>): seq<FileMeta> {
    if fs == [] then []
    else (if fs[0].number in deleted then [] else [fs[0]]) + Undeleted(fs[1..], deleted)
  }

  /** One level of SaveTo: the base files and the added ones merged, less the deleted. */
  function Merge(base: seq<FileMeta>, added: seq<FileMeta>, deleted: set<nat>): seq<FileMeta>
    decreases |added|
  {
    if added == [] then Undeleted(base, deleted)
    else
      var k := UpperBound(base, added[0]);
      Undeleted(base[..k], deleted) + Undeleted([added[0]], deleted) + Merge(base[k..], added[1..], deleted)
  }

  class Builder {
    const base: seq<seq<FileMeta>>
    var levels: seq<LevelState>

    constructor (base: seq<seq<FileMeta>>)
      ensures this.base == base && levels == EmptyLevels()
    {
      this.base := base;
      levels := EmptyLevels();
    }

    method Apply(edit: VersionEdit)
      requires |levels| == NUM_LEVELS
      requires forall d :: d in edit.deletedFiles ==> d.0 < NUM_LEVELS
      requires forall f :: f in edit.newFiles ==> f.0 < NUM_LEVELS
      modifies this
      ensures levels == ApplyEdit(old(levels), edit)
    {
      hide InsertMeta;
      for i := 0 to |edit.deletedFiles|
        invariant |levels| == NUM_LEVELS
        invariant ApplyDeleted(old(levels), edit.deletedFiles) == ApplyDeleted(levels, edit.deletedFiles[i..])
      {
        assert edit.deletedFiles[i..][1..] == edit.deletedFiles[i + 1..];
        var level, number := edit.deletedFiles[i].0, edit.deletedFiles[i].1;
        assert edit.deletedFiles[i] in edit.deletedFiles;
        levels := levels[level := levels[level].(deleted := levels[level].deleted + {number})];
      }
      ghost var middle := levels;
      for i := 0 to |edit.newFiles|
        invariant |levels| == NUM_LEVELS
        invariant ApplyNew(middle, edit.newFiles) == ApplyNew(levels, edit.newFiles[i..])
      {
        assert edit.newFiles[i..][1..] == edit.newFiles[i + 1..];
        var level, f := edit.newFiles[i].0, edit.newFiles[i].1;
        assert edit.newFiles[i] in edit.newFiles;
        levels := levels[level := LevelState(levels[level].deleted - {f.number}, InsertMeta(levels[level].added, f))];
      }
    }

    method SaveTo() returns (v: seq<seq<FileMeta>>)
      requires |base| == |levels| == NUM_LEVELS
      ensures v == Saved(base, levels)
    {
      hide Merge;
      v := [];
      for level := 0 to NUM_LEVELS
        invariant |v| == level
        invariant forall l :: 0 <= l < level ==> v[l] == Merge(base[l], levels[l].added, levels[l].deleted)
      {
        var files := SaveLevel(base[level], levels[level].added, levels[level].deleted);
        v := v + [files];
      }
    }

    method SaveLevel(baseFiles: seq<FileMeta>, added: seq<FileMeta>, deleted: set<nat>) returns (files: seq<FileMeta>)
      ensures files == Merge(baseFiles, added, deleted)
      ensures forall f :: f in files <==> (f in baseFiles || f in added) && f.number !in deleted
      ensures Mergeable(baseFiles, added) ==> MetaSorted(files)
    {
      hide UpperBound, Undeleted, Merge, Mergeable, MetaSorted;
      files := [];
      var baseIter: nat := 0;
      assert baseFiles[0..] == baseFiles && added[0..] == added;
      for i := 0 to |added|
        invariant baseIter <= |baseFiles|
        invariant Merge(baseFiles, added, deleted) == files + Merge(baseFiles[baseIter..], added[i..], deleted)
      {
        var bpos := baseIter + UpperBound(baseFiles[baseIter..], added[i]);
        MergeStep(baseFiles, added, deleted, baseIter, i, bpos);
        files := AddFiles(files, baseFiles, baseIter, bpos, deleted);
        baseIter := bpos;
        files := MaybeAddFile(files, added[i], deleted);
      }
      assert baseFiles[baseIter..|baseFiles|] == baseFiles[baseIter..];
      MergeNothing(baseFiles[baseIter..], added[|added|..], deleted);
      files := AddFiles(files, baseFiles, baseIter, |baseFiles|, deleted);
      MergeMeans(baseFiles, added, deleted);
    }

    method AddFiles(files: seq<FileMeta>, baseFiles: seq<FileMeta>, from: nat, to: nat, deleted: set<nat>)
      returns (r: seq<FileMeta>)
      requires from <= to <= |baseFiles|
      ensures r == files + Undeleted(baseFiles[from..to], deleted)
    {
      r := files;
      for i := from to to
        invariant r + Undeleted(baseFiles[i..to], deleted) == files + Undeleted(baseFiles[from..to], deleted)
      {
        assert baseFiles[i..to][1..] == baseFiles[i + 1..to];
        r := MaybeAddFile(r, baseFiles[i], deleted);
      }
    }

    method MaybeAddFile(files: seq<FileMeta>, f: FileMeta, deleted: set<nat>) returns (r: seq<FileMeta>)
      ensures r == files + Undeleted([f], deleted)
    {
      if f.number in deleted {
        r := files;
      } else {
        r := files + [f];
      }
    }
  }

  function Saved(base: seq<seq<FileMeta>>, b: seq<LevelState>): (v: seq<seq<FileMeta>>)
    requires |base| == |b| == NUM_LEVELS
    ensures |v| == NUM_LEVELS
  {
    seq(NUM_LEVELS, l requires 0 <= l < NUM_LEVELS => Merge(base[l], b[l].added, b[l].deleted))
  }

  /** One added file: the base files before it, the file itself, and what is left of both lists. */
  lemma MergeStep(baseFiles: seq<FileMeta>, added: seq<FileMeta>, deleted: set<nat>, from: nat, i: nat, to: nat)
    requires from <= |baseFiles| && i < |added| && to == from + UpperBound(baseFiles[from..], added[i])
    ensures from <= to <= |baseFiles|
    ensures Merge(baseFiles[from..], added[i..], deleted) ==
            Undeleted(baseFiles[from..to], deleted) +
            Undeleted([added[i]], deleted) +
            Merge(baseFiles[to..], added[i + 1..], deleted)
  {
    hide UpperBound, Undeleted;
    assert added[i..][0] == added[i] && added[i..][1..] == added[i + 1..];
    assert baseFiles[from..][..to - from] == baseFiles[from..to];
    assert baseFiles[from..][to - from..] == baseFiles[to..];
  }

  lemma MergeNothing(base: seq<FileMeta>, added: seq<FileMeta>, deleted: set<nat>)
    requires added == []
    ensures Merge(base, added, deleted) == Undeleted(base, deleted)
  {
  }

  // --- What SaveTo means ---

  ghost predicate NoSharedNumbers(a: seq<FileMeta>, b: seq<FileMeta>) {
    forall f, g :: f in a && g in b ==> f.number != g.number
  }

  ghost predicate Mergeable(base: seq<FileMeta>, added: seq<FileMeta>) {
    MetaSorted(base) && MetaSorted(added) && AllProper(base) && AllProper(added) && NoSharedNumbers(base, added)
  }

  lemma {:induction false} UndeletedMembers(fs: seq<FileMeta>, deleted: set<nat>)
    ensures forall f :: f in Undeleted(fs, deleted) <==> f in fs && f.number !in deleted
  {
    if fs != [] {
      UndeletedMembers(fs[1..], deleted);
    }
  }

  lemma {:induction false} MergeMembers(base: seq<FileMeta>, added: seq<FileMeta>, deleted: set<nat>)
    ensures forall f :: f in Merge(base, added, deleted) <==> (f in base || f in added) && f.number !in deleted
    decreases |added|
  {
    hide UpperBound, Undeleted;
    if added == [] {
      UndeletedMembers(base, deleted);
    } else {
      var k := UpperBound(base, added[0]);
      UndeletedMembers(base[..k], deleted);
      UndeletedMembers([added[0]], deleted);
      MergeMembers(base[k..], added[1..], deleted);
    }
  }

  lemma {:induction false} UndeletedSorted(fs: seq<FileMeta>, deleted: set<nat>)
    requires MetaSorted(fs)
    ensures MetaSorted(Undeleted(fs, deleted))
  {
    hide MetaLess;
    if fs != [] {
      UndeletedSorted(fs[1..], deleted);
      UndeletedMembers(fs[1..], deleted);
      SortedConcat([fs[0]], Undeleted(fs[1..], deleted));
    }
  }

  /** Files sorted apart from each other merge into a sorted list. */
  lemma {:induction false} MergeSorted(base: seq<FileMeta>, added: seq<FileMeta>, deleted: set<nat>)
    requires Mergeable(base, added)
    ensures MetaSorted(Merge(base, added, deleted))
    decreases |added|
  {
    hide UpperBound, Undeleted, MetaLess, Proper;
    if added == [] {
      UndeletedSorted(base, deleted);
    } else {
      var a := added[0];
      var k := UpperBound(base, a);
      var low, one := Undeleted(base[..k], deleted), Undeleted([a], deleted);
      var rest := Merge(base[k..], added[1..], deleted);
      UndeletedSorted(base[..k], deleted);
      UndeletedSorted([a], deleted);
      MergeSorted(base[k..], added[1..], deleted);
      UndeletedMembers(base[..k], deleted);
      UndeletedMembers([a], deleted);
      MergeMembers(base[k..], added[1..], deleted);
      forall f | f in low ensures MetaLess(f, a) {
        var i :| 0 <= i < k && base[i] == f;
        assert f in base;
        MetaLessIsTotal(f, a);
      }
      forall g | g in rest ensures MetaLess(a, g) {
        AboveFirst(base, added, g);
      }
      forall f, g | f in low && g in rest ensures MetaLess(f, g) {
        MetaLessIsTransitive(f, a, g);
      }
      SortedConcat(low, one);
      SortedConcat(low + one, rest);
    }
  }

  lemma AboveFirst(base: seq<FileMeta>, added: seq<FileMeta>, g: FileMeta)
    requires MetaSorted(base) && MetaSorted(added) && added != []
    requires g in base[UpperBound(base, added[0])..] || g in added[1..]
    ensures MetaLess(added[0], g)
  {
    hide MetaLess;
    var k := UpperBound(base, added[0]);
    if g in base[k..] {
      var i :| k <= i < |base| && base[i] == g;
      if i > k {
        MetaLessIsTransitive(added[0], base[k], g);
      }
    }
  }

  lemma SortedConcat(s: seq<FileMeta>, t: seq<FileMeta>)
    requires MetaSorted(s) && MetaSorted(t)
    requires forall f, g :: f in s && g in t ==> MetaLess(f, g)
    ensures MetaSorted(s + t)
  {
    hide MetaLess;
  }

  lemma MergeMeans(base: seq<FileMeta>, added: seq<FileMeta>, deleted: set<nat>)
    ensures forall f :: f in Merge(base, added, deleted) <==> (f in base || f in added) && f.number !in deleted
    ensures Mergeable(base, added) ==> MetaSorted(Merge(base, added, deleted))
  {
    hide Merge, Mergeable, MetaSorted;
    MergeMembers(base, added, deleted);
    if Mergeable(base, added) {
      MergeSorted(base, added, deleted);
    }
  }

  /** A sorted list is determined by its members. */
  lemma {:induction false} SortedUnique(s: seq<FileMeta>, t: seq<FileMeta>)
    requires MetaSorted(s) && MetaSorted(t)
    requires forall f :: f in s <==> f in t
    ensures s == t
    decreases |s|
  {
    hide MetaLess;
    assert t != [] ==> t[0] in t;
    if s == [] {
    } else {
      assert s[0] in t;
      var j :| 0 <= j < |t| && t[j] == s[0];
      assert t[0] in s;
      var i :| 0 <= i < |s| && s[i] == t[0];
      MetaLessIsStrict(s[0], t[0]);
      assert s[0] == t[0];
      forall f ensures f in s[1..] <==> f in t[1..] {
        TailMembers(s, f);
        TailMembers(t, f);
      }
      SortedUnique(s[1..], t[1..]);
      assert s == [s[0]] + s[1..] && t == [t[0]] + t[1..];
    }
  }

  lemma TailMembers(s: seq<FileMeta>, f: FileMeta)
    requires MetaSorted(s) && s != []
    ensures f in s[1..] <==> f in s && f != s[0]
  {
    hide MetaLess;
    MetaLessIsStrict(s[0], s[0]);
    if f in s && f != s[0] {
      var i :| 0 <= i < |s| && s[i] == f;
      assert s[1..][i - 1] == f;
    }
  }
}
