/** One background compaction from the choice of its inputs to the version it installs: PickCompaction and
    MakeInputIterator of db/version_set.cc and BackgroundCompaction of db/db_impl.cc. */
module CompactionRuns {
  import opened Lsm
  import opened Wrappers
  import opened Files
  import opened MergingIterators
  import opened Versions
  import opened InputPicking
  import opened Compactions
  import opened Installs
  import opened StraddlingKeys
  import TwoLevelIterators

  // --- Lists of files taken from a level in its order ---

  ghost predicate NumbersDiffer(fs: seq<File>) {
    forall i, j :: 0 <= i < j < |fs| ==> fs[i].number != fs[j].number
  }

  lemma {:induction false} OverlappingInOrder(files: seq<File>, lo: Option<UserKey>, hi: Option<UserKey>)
    ensures Disjoint(files) ==> Disjoint(Overlapping(files, lo, hi))
    ensures NumbersDiffer(files) ==> NumbersDiffer(Overlapping(files, lo, hi))
  {
    hide Overlaps, Before;
    if files != [] {
      var init, last := files[..|files| - 1], files[|files| - 1];
      OverlappingInOrder(init, lo, hi);
      var r := Overlapping(init, lo, hi);
      forall i | 0 <= i < |r| ensures exists k :: 0 <= k < |files| - 1 && files[k] == r[i] {
        assert r[i] in init;
      }
    }
  }

  lemma OneInOrder(f: File)
    ensures Disjoint([f]) && NumbersDiffer([f])
  {
  }

  // --- PickCompaction ---

  /** What asks for a compaction: too much data in the level, or too many seeks into a file. */
  datatype Trigger = Size(pointer: Option<Key>) | Seek(file: File)

  ghost predicate Triggered(files: seq<File>, trigger: Trigger) {
    match trigger
    case Size(_) => files != []
    case Seek(f) => f in files
  }

  predicate EndsAfter(f: File, pointer: Option<Key>) {
    pointer.None? || Before(pointer.value, f.largest)
  }

  /** The first file that ends after the compaction pointer, or the first of all. */
  ghost predicate IsNext(files: seq<File>, pointer: Option<Key>, i: nat) {
    && i < |files|
    && if EndsAfter(files[i], pointer) then forall j :: 0 <= j < i ==> !EndsAfter(files[j], pointer)
       else i == 0 && forall j :: 0 <= j < |files| ==> !EndsAfter(files[j], pointer)
  }

  ghost predicate IsChosen(files: seq<File>, trigger: Trigger, f: File) {
    match trigger
    case Size(pointer) => exists i: nat :: IsNext(files, pointer, i) && files[i] == f
    case Seek(file) => f == file
  }

  method ChooseFile(files: seq<File>, trigger: Trigger) returns (f: File)
    requires Triggered(files, trigger)
    ensures f in files && IsChosen(files, trigger, f)
  {
    hide Before;
    if trigger.Seek? {
      return trigger.file;
    }
    for i := 0 to |files|
      invariant forall j :: 0 <= j < i ==> !EndsAfter(files[j], trigger.pointer)
    {
      if EndsAfter(files[i], trigger.pointer) {
        assert IsNext(files, trigger.pointer, i);
        return files[i];
      }
    }
    assert IsNext(files, trigger.pointer, 0);
    return files[0];
  }

  /** The inputs picked in a level are a run in its order: files numbered apart at level 0, apart by range below. */
  ghost predicate InOrder(level: nat, in0: seq<File>) {
    if level == 0 then NumbersDiffer(in0) else Disjoint(in0)
  }

  method PickCompaction(v: seq<seq<File>>, level: nat, trigger: Trigger, expandedLimit: nat)
    returns (in0: seq<File>, in1: seq<File>, grandparents: seq<File>, ghost chosen: File)
    requires Shape(v) && Distinct(All(v)) && level + 1 < NUM_LEVELS && Triggered(v[level], trigger)
    ensures Setting(v, level, in0, in1) && IsGrandparents(v, level, in0 + in1, grandparents)
    ensures chosen in in0 && IsChosen(v[level], trigger, chosen)
    ensures InOrder(level, in0) && Disjoint(in1)
  {
    hide *;
    hide Distinct, Setting, InOrder;
    ShapeParts(v, level);
    var inputs0;
    inputs0, chosen := PickInLevel(v[level], level, trigger);
    in0, in1, grandparents := SetupOtherInputs(v, level, inputs0, expandedLimit);
    SettingOf(v, level, in0, in1);
    if in0 != inputs0 {
      var lo, hi :| in0 == Overlapping(v[level], lo, hi);
      OverlappingInOrder(v[level], lo, hi);
      OrderOf(level, v[level], in0);
    }
    NextInOrder(v[level], v[level + 1], in0, in1);
  }

  /** The file chosen; at level 0 with all files it leads to by overlap. */
  method PickInLevel(files: seq<File>, level: nat, trigger: Trigger) returns (inputs: seq<File>, ghost chosen: File)
    requires AllWellFormed(files) && Triggered(files, trigger) && (level == 0 ==> NumbersDiffer(files))
    ensures inputs != [] && chosen in inputs && IsChosen(files, trigger, chosen)
    ensures forall f :: f in inputs ==> f in files
    ensures InOrder(level, inputs) && (level == 0 ==> SelfClosed(files, inputs))
  {
    hide Triggered, IsChosen, Inside, OverlapClosed, WellFormed, SelfClosed, Disjoint, NumbersDiffer, Overlapping;
    var f := ChooseFile(files, trigger);
    chosen := f;
    inputs := [f];
    OneInOrder(f);
    if level == 0 {
      var smallest, largest := GetRange(inputs);
      ghost var lo, hi;
      inputs, lo, hi := GetOverlappingInputs(files, true, Some(smallest.user), Some(largest.user));
      OverlappingInOrder(files, lo, hi);
      InsideMeansSelfClosed(files, lo, hi);
      ItsOwnRange(files, f, smallest, largest);
    }
  }

  lemma ItsOwnRange(files: seq<File>, f: File, smallest: Key, largest: Key)
    requires AllWellFormed(files) && f in files && IsRange([f], smallest, largest)
    ensures Overlaps(f, Some(smallest.user), Some(largest.user))
  {
    hide WellFormed;
    var i :| 0 <= i < |files| && files[i] == f;
    EndsInOrder(f);
  }

  lemma ShapeParts(v: seq<seq<File>>, level: nat)
    requires Shape(v) && level + 1 < NUM_LEVELS
    ensures |v| == NUM_LEVELS && forall l :: 0 <= l < |v| ==> AllWellFormed(v[l])
    ensures forall l :: 1 <= l < |v| ==> Disjoint(v[l])
    ensures NumbersDiffer(v[0]) && LevelZeroOrder(v[0]) && NewerPerKey(Contents(v[level]), Contents(v[level + 1]))
  {
    hide AllWellFormed, Disjoint, LevelZeroOrder, NewerPerKey, Contents;
  }

  lemma SettingOf(v: seq<seq<File>>, level: nat, in0: seq<File>, in1: seq<File>)
    requires Shape(v) && Distinct(All(v)) && level + 1 < NUM_LEVELS && Picked(v[level], v[level + 1], in0, in1)
    requires level == 0 ==> SelfClosed(v[0], in0)
    ensures Setting(v, level, in0, in1)
  {
    hide Shape, Distinct, All, Picked, SelfClosed;
  }

  lemma OrderOf(level: nat, files: seq<File>, in0: seq<File>)
    requires if level == 0 then NumbersDiffer(in0) else Disjoint(in0)
    ensures InOrder(level, in0)
  {
  }

  lemma NextInOrder(level: seq<File>, next: seq<File>, in0: seq<File>, in1: seq<File>)
    requires Picked(level, next, in0, in1) && Disjoint(next)
    ensures Disjoint(in1)
  {
    hide Disjoint, Overlapping;
    var s, l :| IsRange(in0, s, l) && in1 == Overlapping(next, Some(s.user), Some(l.user));
    OverlappingInOrder(next, Some(s.user), Some(l.user));
  }

  // --- MakeInputIterator ---

  /** The children so far are cursors over disjoint runs that hold `covered` together. */
  ghost predicate Wired(list: seq<Cursor>, covered: set<Entry>)
    reads list
  {
    && (forall i, j :: 0 <= i < j < |list| ==> list[i] != list[j])
    && (forall i :: 0 <= i < |list| ==> list[i].Ok())
    && (forall i, e :: 0 <= i < |list| && e in list[i].entries ==> e in covered)
    && (forall e :: e in covered ==> exists i :: 0 <= i < |list| && e in list[i].entries)
    && (forall i, j, e :: 0 <= i < j < |list| && e in list[i].entries ==> e !in list[j].entries)
  }

  method AddCursor(list: seq<Cursor>, run: seq<Entry>, ghost covered: set<Entry>) returns (more: seq<Cursor>)
    requires Wired(list, covered) && Sorted(run) && Elements(run) !! covered
    ensures Wired(more, covered + Elements(run)) && |more| == |list| + 1 && more[..|list|] == list
    ensures fresh(more[|list|])
  {
    hide Sorted;
    var c := new Cursor(run);
    more := list + [c];
    forall i, j, e | 0 <= i < j < |more| && e in more[i].entries ensures e !in more[j].entries {
      assert more[i] == list[i] && e in covered && e !in Elements(run);
    }
    forall e | e in covered + Elements(run) ensures exists i :: 0 <= i < |more| && e in more[i].entries {
      if e in covered {
        var i :| 0 <= i < |list| && e in list[i].entries;
        assert more[i] == list[i];
      } else {
        assert e in more[|list|].entries;
      }
    }
  }

  /** No entry is in two of the files. */
  ghost predicate Apart(fs: seq<File>) {
    forall i, j, e :: 0 <= i < j < |fs| && e in fs[i].entries ==> e !in fs[j].entries
  }

  /** One child for every level-0 file, one concatenating child for each other level: two-level iterators, which move
      like a cursor over the concatenation. */
  method MakeInputIterator(level: nat, in0: seq<File>, in1: seq<File>, ghost merged: seq<Entry>)
    returns (input: MergingIterator)
    requires AllWellFormed(in0) && AllWellFormed(in1) && Disjoint(in1)
    requires if level == 0 then Apart(in0) else Disjoint(in0)
    requires Contents(in0) !! Contents(in1) && Sorted(merged) && Elements(merged) == Contents(in0 + in1)
    ensures fresh(input) && fresh(input.children) && input.Ok() && input.merged == merged
  {
    hide Sorted, Wired, Contents, Elements, WellFormed, AllWellFormed, Disjoint, Apart, Flatten, MergingIterator.Ok;
    var list: seq<Cursor> := [];
    NothingWired();
    NoFilesNoEntries(in0);
    NoFilesNoEntries(in1);
    if level == 0 {
      list := AddFiles(in0);
    } else if in0 != [] {
      Concatenated(in0);
      list := AddCursor(list, Flatten(in0), {});
      assert {} + Contents(in0) == Contents(in0);
    }
    if in1 != [] {
      Concatenated(in1);
      list := AddCursor(list, Flatten(in1), Contents(in0));
    }
    assert Contents(in0) + {} == Contents(in0);
    ContentsOfBoth(in0, in1);
    WiredIsUnion(list, merged);
    input := new MergingIterator(list, merged);
  }

  method AddFiles(files: seq<File>) returns (list: seq<Cursor>)
    requires AllWellFormed(files) && Apart(files)
    ensures Wired(list, Contents(files)) && fresh(list)
  {
    hide Sorted, Wired, Contents, Elements, WellFormed;
    list := [];
    NothingWired();
    NoFilesNoEntries([]);
    for i := 0 to |files|
      invariant Wired(list, Contents(files[..i])) && fresh(list)
    {
      ContentsStep(files, i);
      assert Sorted(files[i].entries) by { FileIsSorted(files[i]); }
      list := AddCursor(list, files[i].entries, Contents(files[..i]));
    }
    assert files[..|files|] == files;
  }

  lemma FileIsSorted(f: File)
    requires WellFormed(f)
    ensures Sorted(f.entries)
  {
    hide Sorted;
  }

  lemma NothingWired()
    ensures Wired([], {})
  {
  }

  lemma NoFilesNoEntries(fs: seq<File>)
    ensures fs == [] ==> Contents(fs) == {}
  {
  }

  lemma ContentsStep(files: seq<File>, i: nat)
    requires Apart(files) && i < |files|
    ensures Contents(files[..i + 1]) == Contents(files[..i]) + Elements(files[i].entries)
    ensures Elements(files[i].entries) !! Contents(files[..i])
  {
    assert files[..i + 1] == files[..i] + [files[i]];
  }

  lemma Concatenated(fs: seq<File>)
    requires AllWellFormed(fs) && Disjoint(fs)
    ensures Sorted(Flatten(fs)) && Elements(Flatten(fs)) == Contents(fs)
  {
    hide Contents, Flatten, WellFormed, Sorted;
    forall e ensures e in Elements(Flatten(fs)) <==> e in Contents(fs) {
      FlattenMembers(fs, e);
    }
    FlattenSorted(fs);
  }

  lemma {:induction false} FlattenSorted(fs: seq<File>)
    requires AllWellFormed(fs) && Disjoint(fs)
    ensures Sorted(Flatten(fs))
  {
    if fs != [] {
      var init, last := fs[..|fs| - 1], fs[|fs| - 1];
      FlattenSorted(init);
      forall e | e in Flatten(init) ensures Before(e.key, last.smallest) {
        FlattenMembers(init, e);
        var f :| f in init && e in f.entries;
        InRange(f, e);
      }
      JoinSorted(Flatten(init), last.entries);
    }
  }

  lemma JoinSorted(a: seq<Entry>, b: seq<Entry>)
    requires Sorted(a) && Sorted(b) && (b != [] ==> forall e :: e in a ==> Before(e.key, b[0].key))
    ensures Sorted(a + b)
  {
    var c := a + b;
    forall i, j | 0 <= i < j < |c| ensures Before(c[i].key, c[j].key) {
      if i < |a| <= j {
        assert c[i] in a && (j == |a| || Before(b[0].key, c[j].key));
      }
    }
  }

  lemma ContentsOfBoth(in0: seq<File>, in1: seq<File>)
    ensures Contents(in0 + in1) == Contents(in0) + Contents(in1)
  {
  }

  lemma WiredIsUnion(list: seq<Cursor>, merged: seq<Entry>)
    requires Wired(list, Elements(merged)) && Sorted(merged)
    ensures IsUnion(merged, list)
    ensures forall i, j :: 0 <= i < j < |list| ==> list[i] != list[j]
    ensures forall i :: 0 <= i < |list| ==> list[i].Ok()
  {
    hide Sorted;
    forall e | e in merged ensures exists i :: 0 <= i < |list| && e in list[i].entries {
      assert e in Elements(merged);
    }
    forall i, e | 0 <= i < |list| && e in list[i].entries ensures e in merged {
      assert e in Elements(merged);
    }
  }

  /** The files of a sorted level, with their largest keys as index, are what a two-level iterator goes over. */
  lemma LevelIsIndex(fs: seq<File>, index: seq<Entry>)
    requires AllWellFormed(fs) && Disjoint(fs) && |index| == |fs|
    requires forall i :: 0 <= i < |fs| ==> index[i].key == fs[i].largest
    ensures TwoLevelIterators.Separates(index, RunsOf(fs)) && TwoLevelIterators.Flat(RunsOf(fs)) == Flatten(fs)
  {
    hide Flatten, TwoLevelIterators.Flat;
    var runs: seq<seq<Entry>> := RunsOf(fs);
    LargestAscend(fs);
    forall i, k | 0 <= i < |runs| && 0 <= k < |runs[i]| ensures !Before(index[i].key, runs[i][k].key) {
      InRange(fs[i], fs[i].entries[k]);
    }
    forall i, j, k | 0 <= i < j < |runs| && 0 <= k < |runs[j]| ensures Before(index[i].key, runs[j][k].key) {
      InRange(fs[j], fs[j].entries[k]);
    }
    FlatIsFlatten(fs);
  }

  ghost function RunsOf(fs: seq<File>): (runs: seq<seq<Entry>>)
    ensures |runs| == |fs| && forall i :: 0 <= i < |fs| ==> runs[i] == fs[i].entries
  {
    seq(|fs|, i requires 0 <= i < |fs| => fs[i].entries)
  }

  lemma {:induction false} FlatIsFlatten(fs: seq<File>)
    ensures TwoLevelIterators.Flat(RunsOf(fs)) == Flatten(fs)
  {
    if fs != [] {
      FlatIsFlatten(fs[..|fs| - 1]);
      assert RunsOf(fs)[..|fs| - 1] == RunsOf(fs[..|fs| - 1]);
    }
  }

  // --- What the merged inputs are ---

  lemma KeysDiffer(s: set<Entry>, e: Entry, f: Entry)
    requires Distinct(s) && e in s && f in s && e != f
    ensures Before(e.key, f.key) || Before(f.key, e.key)
  {
  }

  /** Entries without equal keys can be put in order. */
  lemma {:induction false} SortedExists(s: set<Entry>) returns (es: seq<Entry>)
    requires Distinct(s)
    ensures Sorted(es) && Elements(es) == s
    decreases |s|
  {
    if s == {} {
      es := [];
    } else {
      var e :| e in s;
      es := SortedExists(s - {e});
      forall f | f in es ensures Before(e.key, f.key) || Before(f.key, e.key) {
        assert f in Elements(es);
        KeysDiffer(s, e, f);
      }
      es := Placed(es, e);
    }
  }

  lemma {:induction false} Placed(es: seq<Entry>, e: Entry) returns (r: seq<Entry>)
    requires Sorted(es) && forall f :: f in es ==> Before(e.key, f.key) || Before(f.key, e.key)
    ensures Sorted(r) && Elements(r) == Elements(es) + {e}
    decreases |es|
  {
    hide Sorted, Before;
    if es == [] || Before(e.key, es[0].key) {
      Prepended(e, es);
      r := [e] + es;
    } else {
      Parted(es);
      var rest := Placed(es[1..], e);
      forall f | f in rest ensures Before(es[0].key, f.key) {
        assert f in Elements(es[1..]) + {e};
      }
      Prepended(es[0], rest);
      r := [es[0]] + rest;
    }
  }

  lemma Prepended(e: Entry, es: seq<Entry>)
    requires Sorted(es) && (es != [] ==> Before(e.key, es[0].key))
    ensures Sorted([e] + es) && Elements([e] + es) == {e} + Elements(es)
  {
    JoinSorted([e], es);
  }

  lemma Parted(es: seq<Entry>)
    requires Sorted(es) && es != []
    ensures Sorted(es[1..]) && Elements(es) == {es[0]} + Elements(es[1..])
    ensures forall f :: f in es[1..] ==> Before(es[0].key, f.key) && f in es
  {
    hide Before;
    assert es == [es[0]] + es[1..];
    forall f | f in es[1..] ensures Before(es[0].key, f.key) {
      var j :| 0 <= j < |es| - 1 && es[1..][j] == f;
      assert es[j + 1] == f;
    }
  }

  lemma InputsApart(v: seq<seq<File>>, level: nat, in0: seq<File>, in1: seq<File>)
    requires Setting(v, level, in0, in1) && (level == 0 ==> NumbersDiffer(in0))
    ensures level == 0 ==> Apart(in0)
    ensures Contents(in0) !! Contents(in1)
  {
    hide Distinct, All, Picked, SelfClosed, AllWellFormed, Disjoint, Contents, Shape;
    ShapeParts(v, level);
    Members(v, level, in0, in1);
    if level == 0 {
      ApartByNumber(v[0], in0);
    }
    forall e | e in Contents(in0) && e in Contents(in1) ensures false {
      var f := InContents(in0, e);
      var g := InContents(in1, e);
      HoldsEntry(v[level], f, e);
      HoldsEntry(v[level + 1], g, e);
    }
  }

  lemma ApartByNumber(files: seq<File>, in0: seq<File>)
    requires LevelZeroOrder(files) && NumbersDiffer(in0) && forall f :: f in in0 ==> f in files
    ensures Apart(in0)
  {
    forall i, j, e | 0 <= i < j < |in0| && e in in0[i].entries ensures e !in in0[j].entries {
      var f, g := in0[i], in0[j];
      assert f in files && g in files && f.number != g.number;
      assert NewerPerKey(Elements(f.entries), Elements(g.entries)) ||
             NewerPerKey(Elements(g.entries), Elements(f.entries));
      assert e in Elements(f.entries) && e !in Elements(g.entries);
    }
  }

  // --- The version that is installed ---

  ghost predicate Comparable(s: set<File>) {
    forall f, g :: f in s && g in s && f != g ==> SmallestFirst(f, g) || SmallestFirst(g, f)
  }

  /** The builder's order determines the list. */
  lemma {:induction false} OrderedUnique(a: seq<File>, b: seq<File>)
    requires BySmallest(a) && BySmallest(b) && FileSet(a) == FileSet(b)
    ensures a == b
  {
    hide Before;
    InFileSet(a);
    InFileSet(b);
    NoFiles(a);
    NoFiles(b);
    if a != [] && b != [] {
      FirstIsFirst(a, b);
      RestAgrees(a, b);
      OrderedUnique(a[1..], b[1..]);
      assert a == [a[0]] + a[1..] && b == [b[0]] + b[1..];
    }
  }

  lemma NoFiles(a: seq<File>)
    ensures a == [] <==> FileSet(a) == {}
  {
    if a != [] {
      assert a[0] in FileSet(a);
    }
  }

  lemma FirstIsFirst(a: seq<File>, b: seq<File>)
    requires BySmallest(a) && BySmallest(b) && FileSet(a) == FileSet(b) && a != [] && b != []
    ensures a[0] == b[0]
  {
    assert a[0] in FileSet(b) && b[0] in FileSet(a);
    var i :| 0 <= i < |b| && b[i] == a[0];
    var j :| 0 <= j < |a| && a[j] == b[0];
    assert i > 0 ==> SmallestFirst(b[0], a[0]);
    assert j > 0 ==> SmallestFirst(a[0], b[0]);
  }

  lemma RestAgrees(a: seq<File>, b: seq<File>)
    requires BySmallest(a) && BySmallest(b) && FileSet(a) == FileSet(b) && a != [] && b != [] && a[0] == b[0]
    ensures BySmallest(a[1..]) && BySmallest(b[1..]) && FileSet(a[1..]) == FileSet(b[1..])
  {
    RestOf(a);
    RestOf(b);
  }

  lemma RestOf(a: seq<File>)
    requires BySmallest(a) && a != []
    ensures BySmallest(a[1..]) && FileSet(a[1..]) == FileSet(a) - {a[0]}
  {
    assert a == [a[0]] + a[1..];
    forall f | f in a[1..] ensures f != a[0] {
      var i :| 0 <= i < |a| - 1 && a[1..][i] == f;
      assert SmallestFirst(a[0], a[i + 1]);
    }
  }

  /** So there is one version that an installation can lead to. */
  lemma InstalledUnique(v: seq<seq<File>>, v1: seq<seq<File>>, v2: seq<seq<File>>, level: nat, in0: seq<File>,
                        in1: seq<File>, outputs: seq<File>)
    requires Installed(v, v1, level, in0, in1, outputs) && Installed(v, v2, level, in0, in1, outputs)
    ensures v1 == v2
  {
    hide BySmallest, FileSet;
    OrderedUnique(v1[level], v2[level]);
    OrderedUnique(v1[level + 1], v2[level + 1]);
    forall l | 0 <= l < NUM_LEVELS ensures v1[l] == v2[l] {
    }
  }

  lemma {:induction false} OrderedExists(s: set<File>) returns (fs: seq<File>)
    requires Comparable(s)
    ensures BySmallest(fs) && FileSet(fs) == s
    decreases |s|
  {
    hide SmallestFirst;
    if s == {} {
      fs := [];
    } else {
      var f :| f in s;
      fs := OrderedExists(s - {f});
      forall g | g in fs ensures SmallestFirst(f, g) || SmallestFirst(g, f) {
        assert g in FileSet(fs);
      }
      fs := FilePlaced(fs, f);
    }
  }

  lemma {:induction false} FilePlaced(fs: seq<File>, f: File) returns (r: seq<File>)
    requires BySmallest(fs) && forall g :: g in fs ==> SmallestFirst(f, g) || SmallestFirst(g, f)
    ensures BySmallest(r) && FileSet(r) == FileSet(fs) + {f}
    decreases |fs|
  {
    if fs == [] || SmallestFirst(f, fs[0]) {
      r := [f] + fs;
    } else {
      RestOf(fs);
      assert fs == [fs[0]] + fs[1..];
      var rest := FilePlaced(fs[1..], f);
      forall g | g in rest ensures SmallestFirst(fs[0], g) {
        assert g in FileSet(fs[1..]) + {f};
        if g != f {
          var j :| 0 <= j < |fs| - 1 && fs[1..][j] == g;
          assert fs[j + 1] == g;
        }
      }
      r := [fs[0]] + rest;
    }
  }

  lemma DisjointIsComparable(fs: seq<File>)
    requires AllWellFormed(fs) && Disjoint(fs)
    ensures Comparable(FileSet(fs))
  {
    hide WellFormed, Before;
    forall f, g | f in FileSet(fs) && g in FileSet(fs) && f != g ensures SmallestFirst(f, g) || SmallestFirst(g, f) {
      var i :| 0 <= i < |fs| && fs[i] == f;
      var j :| 0 <= j < |fs| && fs[j] == g;
      if i < j {
        SmallestOfLater(f, g);
      } else {
        SmallestOfLater(g, f);
      }
    }
  }

  lemma SmallestOfLater(f: File, g: File)
    requires WellFormed(f) && Before(f.largest, g.smallest)
    ensures SmallestFirst(f, g)
  {
    InRange(f, f.entries[0]);
  }

  lemma NumberedIsComparable(fs: seq<File>)
    requires NumbersDiffer(fs)
    ensures Comparable(FileSet(fs))
  {
  }

  lemma InstalledExists(v: seq<seq<File>>, level: nat, in0: seq<File>, in1: seq<File>, outputs: seq<File>)
    returns (v1: seq<seq<File>>)
    requires Setting(v, level, in0, in1) && Compacted(v, level, in0, in1, outputs)
    ensures Installed(v, v1, level, in0, in1, outputs)
  {
    hide Shape, Distinct, All, Picked, SelfClosed, AllWellFormed, Disjoint, Contents, FileSet, Comparable, BySmallest;
    ShapeParts(v, level);
    var s := FileSet(v[level]) - FileSet(in0);
    var t := (FileSet(v[level + 1]) - FileSet(in1)) + FileSet(outputs);
    assert Comparable(s) by {
      if level == 0 { NumberedIsComparable(v[0]); } else { DisjointIsComparable(v[level]); }
      FewerComparable(FileSet(v[level]), s);
    }
    assert Comparable(t) by {
      NextComparable(v, level, in0, in1, outputs);
    }
    var upper := OrderedExists(s);
    var lower := OrderedExists(t);
    v1 := v[level := upper][level + 1 := lower];
  }

  lemma FewerComparable(s: set<File>, t: set<File>)
    requires Comparable(s) && t <= s
    ensures Comparable(t)
  {
    hide SmallestFirst;
  }

  lemma NextComparable(v: seq<seq<File>>, level: nat, in0: seq<File>, in1: seq<File>, outputs: seq<File>)
    requires Setting(v, level, in0, in1) && Compacted(v, level, in0, in1, outputs)
    ensures Comparable((FileSet(v[level + 1]) - FileSet(in1)) + FileSet(outputs))
  {
    hide Shape, Distinct, All, Picked, SelfClosed, AllWellFormed, Disjoint, Contents, SmallestFirst, WithinHull,
         IsRange,
         WellFormed, Before;
    ShapeParts(v, level);
    DisjointIsComparable(v[level + 1]);
    DisjointIsComparable(outputs);
    OutputsStayInHull(v, level, in0, in1, outputs);
    assert in0 + in1 != [] by { InputsExist(v[level], v[level + 1], in0, in1); }
    var s, l := RangeOf(in0 + in1);
    var next := v[level + 1];
    forall f, o | f in FileSet(next) && f !in FileSet(in1) && o in FileSet(outputs)
      ensures SmallestFirst(f, o) || SmallestFirst(o, f)
    {
      UnpickedVersusOutput(v[level], next, in0, in1, outputs, f, o, s, l);
      MemberWellFormed(next, f);
      MemberWellFormed(outputs, o);
      if Before(f.largest, o.smallest) {
        SmallestOfLater(f, o);
      } else {
        SmallestOfLater(o, f);
      }
    }
  }

  lemma InputsExist(level: seq<File>, next: seq<File>, in0: seq<File>, in1: seq<File>)
    requires Picked(level, next, in0, in1)
    ensures in0 + in1 != []
  {
  }

  // --- BackgroundCompaction ---

  /** IsTrivialMove: one file, nothing to merge it with, and not too much below. */
  predicate IsTrivialMove(in0: seq<File>, in1: seq<File>, grandparents: seq<File>, maxGrandParentOverlap: nat) {
    |in0| == 1 && |in1| == 0 && TotalSize(grandparents) <= maxGrandParentOverlap
  }

  datatype Outcome = Relocated | Completed | Failed

  /** Everything between a version in shape and the version installed. Whether the outcome is safe is decided by the
      version, the inputs and the smallest snapshot, before anything is merged. */
  method BackgroundCompaction(v: seq<seq<File>>, level: nat, trigger: Trigger, expandedLimit: nat,
                              maxGrandParentOverlap: nat, smallestSnapshot: nat, firstNumber: nat)
    returns (outcome: Outcome, in0: seq<File>, in1: seq<File>, outputs: seq<File>, ghost es: seq<Entry>,
             ghost v1: seq<seq<File>>)
    requires Shape(v) && Distinct(All(v)) && level + 1 < NUM_LEVELS && Triggered(v[level], trigger)
    requires smallestSnapshot < MAX_SEQUENCE
    ensures Setting(v, level, in0, in1) && exists f :: f in in0 && IsChosen(v[level], trigger, f)
    ensures outcome.Completed? ==> Ran(v, v1, level, in0, in1, outputs, es, smallestSnapshot)
    ensures outcome.Completed? ==> NumberedFrom(outputs, firstNumber)
    ensures outcome.Completed? ==>
            (Shape(v1) && SameReads(All(v), All(v1), smallestSnapshot) <==>
             GoesWell(v, level, in0, in1, smallestSnapshot))
    ensures outcome.Relocated? ==> |in0| == 1 && in1 == [] && outputs == in0
    ensures outcome.Relocated? ==> Compacted(v, level, in0, [], in0) && Installed(v, v1, level, in0, [], in0)
    ensures outcome.Relocated? ==>
            All(v1) == All(v) && (Shape(v1) <==> forall f, g :: !Straddles(v[level], in0, g, f))
    ensures outcome.Failed? ==> v1 == v
  {
    hide *;
    hide Setting;
    var grandparents;
    ghost var chosen;
    in0, in1, grandparents, chosen := PickCompaction(v, level, trigger, expandedLimit);
    es, v1, outputs := [], v, [];
    if IsTrivialMove(in0, in1, grandparents, maxGrandParentOverlap) {
      outcome, outputs := Relocated, in0;
      MoveCompacts(v, level, in0, in1, maxGrandParentOverlap, grandparents);
      v1 := InstalledExists(v, level, in0, [], in0);
      MoveKeepsShapeIff(v, v1, level, in0);
      MoveKeepsContents(v, v1, level, in0);
    } else {
      var ok;
      ok, outputs, es := DoCompaction(v, level, in0, in1, grandparents, maxGrandParentOverlap, smallestSnapshot,
                                      firstNumber);
      outcome := if ok then Completed else Failed;
      if ok {
        v1 := InstalledExists(v, level, in0, in1, outputs);
        RanOf(v, v1, level, in0, in1, outputs, es, smallestSnapshot);
        CompactionIsSafeIff(v, v1, level, in0, in1, outputs, es, smallestSnapshot);
      }
    }
  }

  method DoCompaction(v: seq<seq<File>>, level: nat, in0: seq<File>, in1: seq<File>, grandparents: seq<File>,
                      maxGrandParentOverlap: nat, smallestSnapshot: nat, firstNumber: nat)
    returns (ok: bool, outputs: seq<File>, ghost es: seq<Entry>)
    requires Setting(v, level, in0, in1) && InOrder(level, in0) && Disjoint(in1) && smallestSnapshot < MAX_SEQUENCE
    ensures ok ==> Sorted(es) && Elements(es) == Contents(in0 + in1)
    ensures ok ==> Flatten(outputs) == Kept(es, smallestSnapshot, BaseUsers(v, level), |es|)
    ensures ok ==> Compacted(v, level, in0, in1, outputs) && NumberedFrom(outputs, firstNumber)
  {
    hide Setting, InOrder, Sorted, Elements, Contents, Flatten, Kept, Compacted, NumberedFrom, AllWellFormed, Disjoint,
         Apart, BaseUsers, Distinct, MergingIterator.Ok;
    InputsOf(v, level, in0, in1);
    es := SortedExists(Contents(in0 + in1));
    var input := MakeInputIterator(level, in0, in1, es);
    var compact := new Compaction(level, v, grandparents, maxGrandParentOverlap);
    ok, outputs := compact.DoCompactionWork(input, smallestSnapshot, firstNumber);
    if ok {
      CompactedOf(v, level, in0, in1, outputs, es, smallestSnapshot);
    }
  }

  lemma InputsOf(v: seq<seq<File>>, level: nat, in0: seq<File>, in1: seq<File>)
    requires Setting(v, level, in0, in1) && InOrder(level, in0)
    ensures |v| == NUM_LEVELS && level + 1 < NUM_LEVELS
    ensures forall l :: 1 <= l < NUM_LEVELS ==> AllWellFormed(v[l]) && Disjoint(v[l])
    ensures AllWellFormed(in0) && AllWellFormed(in1) && Distinct(Contents(in0 + in1))
    ensures if level == 0 then Apart(in0) else Disjoint(in0)
    ensures Contents(in0) !! Contents(in1)
  {
    hide Shape, Distinct, All, Picked, SelfClosed, Disjoint, Contents, WellFormed, Apart, NumbersDiffer;
    ShapeParts(v, level);
    Members(v, level, in0, in1);
    InputsApart(v, level, in0, in1);
    InputsDistinct(v, level, in0, in1);
    forall i | 0 <= i < |in0| ensures WellFormed(in0[i]) {
      assert in0[i] in in0;
      WellFormedAt(v, level, in0[i]);
    }
    forall i | 0 <= i < |in1| ensures WellFormed(in1[i]) {
      assert in1[i] in in1;
      WellFormedAt(v, level + 1, in1[i]);
    }
  }

  lemma CompactedOf(v: seq<seq<File>>, level: nat, in0: seq<File>, in1: seq<File>, outputs: seq<File>,
                    es: seq<Entry>, snap: nat)
    requires Setting(v, level, in0, in1) && AllWellFormed(outputs) && Disjoint(outputs)
    requires Elements(es) == Contents(in0 + in1) && Flatten(outputs) == Kept(es, snap, BaseUsers(v, level), |es|)
    ensures Compacted(v, level, in0, in1, outputs)
  {
    hide Shape, Distinct, All, Picked, SelfClosed, Disjoint, AllWellFormed, Contents, Flatten, Kept;
    forall e | e in Contents(outputs) ensures e in Contents(in0 + in1) {
      FlattenMembers(outputs, e);
      KeptMembers(es, snap, BaseUsers(v, level), |es|, e);
      assert e in Elements(es);
    }
  }

  lemma RanOf(v: seq<seq<File>>, v1: seq<seq<File>>, level: nat, in0: seq<File>, in1: seq<File>,
              outputs: seq<File>, es: seq<Entry>, snap: nat)
    requires Setting(v, level, in0, in1) && Compacted(v, level, in0, in1, outputs)
    requires Installed(v, v1, level, in0, in1, outputs)
    requires Sorted(es) && Elements(es) == Contents(in0 + in1)
    requires Flatten(outputs) == Kept(es, snap, BaseUsers(v, level), |es|)
    ensures Ran(v, v1, level, in0, in1, outputs, es, snap)
  {
    hide Setting, Compacted, Installed, Sorted, Elements, Contents, Flatten, Kept;
  }

  lemma MoveCompacts(v: seq<seq<File>>, level: nat, in0: seq<File>, in1: seq<File>, max: nat, grandparents: seq<File>)
    requires Setting(v, level, in0, in1) && IsTrivialMove(in0, in1, grandparents, max)
    ensures |in0| == 1 && in1 == [] && Setting(v, level, in0, []) && Compacted(v, level, in0, [], in0)
  {
    hide Shape, Distinct, All, Picked, SelfClosed, Contents, WellFormed, TotalSize;
    Members(v, level, in0, in1);
    WellFormedAt(v, level, in0[0]);
    assert in0 + [] == in0;
  }

  /** A trivial move changes no content, so no read. */
  lemma MoveKeepsContents(v: seq<seq<File>>, v1: seq<seq<File>>, level: nat, in0: seq<File>)
    requires Compacted(v, level, in0, [], in0) && Installed(v, v1, level, in0, [], in0)
    ensures All(v1) == All(v)
  {
    hide Upper, Lower, All, Contents, Picked, AllWellFormed, Disjoint, BySmallest;
    SplitContents(v, v1, level, in0, [], in0);
    assert in0 + [] == in0;
  }
}
