/** What the edits of compactions, moves and flushes make of a version: the files that VersionSet::Builder of
    db/version_set.cc leaves at each level are those that the reasoning about compactions counts on. */
module EditedVersions {
  import opened Lsm
  import opened Bytes
  import opened Coding
  import opened Comparator
  import opened DbFormat
  import opened Files
  import opened VersionEdits
  import opened Builders
  import opened Manifests
  import opened Installs

  // --- Byte keys as abstract keys ---

  /** An internal key whose type is one of the two that exist. */
  predicate Parses(key: Bytes) {
    |key| >= 8 && TagPart(key) % 256 <= 1
  }

  ghost function KeyOf(key: Bytes): Key
    requires |key| >= 8
  {
    Key(Rank(UserPart(key)), TagPart(key) / 256, if TagPart(key) % 256 == 1 then Kind.Put else Kind.Deletion)
  }

  lemma {:induction false} UnFixedBound(data: Bytes)
    ensures UnFixed(data) < Power256(|data|)
  {
    if data != [] {
      UnFixedBound(data[1..]);
    }
  }

  /** A key that parses is the encoding of its parts. */
  lemma ParsedIsEncoded(key: Bytes) returns (sequence: nat, kind: Kind)
    requires Parses(key)
    ensures sequence <= MAX_SEQUENCE && key == Encode(UserPart(key), sequence, kind)
    ensures KeyOf(key) == Abstract(UserPart(key), sequence, kind)
  {
    hide Fixed, UnFixed, Rank, Power256;
    var data := key[|key| - 8..];
    sequence := TagPart(key) / 256;
    kind := if TagPart(key) % 256 == 1 then Kind.Put else Kind.Deletion;
    UnFixedBound(data);
    Power256Of8();
    FixedRoundTrip(UnFixed(data), 8);
    UnFixedInjective(Fixed(UnFixed(data), 8), data);
    assert sequence * 256 + TypeCode(kind) == UnFixed(data);
    assert key == UserPart(key) + data;
  }

  lemma Power256Of8()
    ensures Power256(8) == LIMIT64
  {
    Power256Of4();
    assert Power256(8) == 256 * 256 * 256 * 256 * Power256(4);
  }

  /** Byte keys compare as the abstract keys they stand for. */
  lemma KeyOrder(a: Bytes, b: Bytes)
    requires Parses(a) && Parses(b)
    ensures InternalLess(a, b) <==> Before(KeyOf(a), KeyOf(b))
    ensures a == b <==> KeyOf(a) == KeyOf(b)
  {
    hide Encode, InternalLess, KeyOf, Abstract, Parses;
    var m, j := ParsedIsEncoded(a);
    var n, k := ParsedIsEncoded(b);
    ParsedLength(a);
    ParsedLength(b);
    EncodedOrder(UserPart(a), m, j, UserPart(b), n, k);
  }

  lemma ParsedLength(a: Bytes)
    requires Parses(a)
    ensures |a| >= 8
  {
  }

  // --- Versions of file descriptions and versions of files ---

  /** What each file holds, by its number. */
  type Store = map<nat, seq<Entry>>

  ghost predicate Named(m: FileMeta) {
    Parses(m.smallest) && Parses(m.largest)
  }

  ghost function FileOf(m: FileMeta, store: Store): File
    requires Proper(m)
  {
    File(m.number, m.size, KeyOf(m.smallest), KeyOf(m.largest), if m.number in store then store[m.number] else [])
  }

  ghost function FilesOf(ms: seq<FileMeta>, store: Store): (fs: seq<File>)
    requires AllProper(ms)
    ensures |fs| == |ms| && forall i :: 0 <= i < |ms| ==> fs[i] == FileOf(ms[i], store)
  {
    seq(|ms|, i requires 0 <= i < |ms| => FileOf(ms[i], store))
  }

  ghost predicate WholeVersion(w: Version) {
    |w| == NUM_LEVELS && forall l :: 0 <= l < NUM_LEVELS ==> AllProper(w[l]) && forall m :: m in w[l] ==> Named(m)
  }

  ghost function VersionOf(w: Version, store: Store): (v: seq<seq<File>>)
    requires WholeVersion(w)
    ensures |v| == NUM_LEVELS && forall l :: 0 <= l < NUM_LEVELS ==> v[l] == FilesOf(w[l], store)
  {
    seq(NUM_LEVELS, l requires 0 <= l < NUM_LEVELS => FilesOf(w[l], store))
  }

  lemma FilesOfSorted(ms: seq<FileMeta>, store: Store)
    requires MetaSorted(ms) && AllProper(ms) && forall m :: m in ms ==> Named(m)
    ensures BySmallest(FilesOf(ms, store))
  {
    hide InternalLess, KeyOf, Parses, Before;
    var fs := FilesOf(ms, store);
    forall i, j | 0 <= i < j < |fs| ensures SmallestFirst(fs[i], fs[j]) {
      assert MetaLess(ms[i], ms[j]) && ms[i] in ms && ms[j] in ms;
      KeyOrder(ms[i].smallest, ms[j].smallest);
    }
  }

  /** Which files a list of descriptions stands for, when no number occurs twice. */
  lemma FilesOfMembers(ms: seq<FileMeta>, store: Store, m: FileMeta)
    requires AllProper(ms) && Proper(m)
    requires forall n :: n in ms && n.number == m.number ==> n == m
    ensures FileOf(m, store) in FileSet(FilesOf(ms, store)) <==> m in ms
  {
    hide KeyOf, Proper;
    var fs := FilesOf(ms, store);
    if m in ms {
      var i :| 0 <= i < |ms| && ms[i] == m;
      assert fs[i] in fs;
    } else {
      forall i | 0 <= i < |fs| ensures fs[i] != FileOf(m, store) {
        assert ms[i] in ms;
      }
    }
  }

  lemma OneOfFiles(ms: seq<FileMeta>, store: Store, f: File) returns (m: FileMeta)
    requires AllProper(ms) && f in FileSet(FilesOf(ms, store))
    ensures m in ms && Proper(m) && f == FileOf(m, store)
  {
    hide KeyOf, Proper;
    var fs := FilesOf(ms, store);
    var i :| 0 <= i < |fs| && fs[i] == f;
    m := ms[i];
  }

  // --- One edit ---

  /** The level after an edit: what it deletes is gone, what it adds is there, in order. */
  lemma StepLevel(w: Version, e: VersionEdit, used: set<Placed>, l: nat)
    requires l < |w| == NUM_LEVELS && Kept(w[l], l, used) && FreshFiles(used, e.newFiles)
    ensures Kept(Step(w, e)[l], l, used + Placements(e.newFiles))
    ensures forall f :: f in Step(w, e)[l] <==>
              (f in w[l] && f.number !in DeletedAt(e.deletedFiles, l)) || f in AddedAt(e.newFiles, l)
  {
    hide MetaSorted, AllProper, ApplyEdit, MergeState, FreshFiles, Saved;
    var one := ApplyEdit(EmptyLevels(), e)[l];
    var used1 := used + Placements(e.newFiles);
    EmptyIsKept(l, used);
    LevelState1(EmptyLevels(), e, l, used);
    AddedIsFresh(e.newFiles, l, used);
    SavedLevels(w, ApplyEdit(EmptyLevels(), e));
    assert NoSharedNumbers(w[l], one.added);
    assert Kept(w[l], l, used1);
    MergeKept(w[l], one, l, used1);
  }

  ghost predicate Ready(w: Version, e: VersionEdit, used: set<Placed>) {
    && WholeVersion(w) && KeptVersion(w, used) && FreshFiles(used, e.newFiles)
    && forall i :: 0 <= i < |e.newFiles| ==> Named(e.newFiles[i].1)
  }

  lemma StepIsWhole(w: Version, e: VersionEdit, used: set<Placed>)
    requires Ready(w, e, used)
    ensures WholeVersion(Step(w, e))
    ensures forall l :: 0 <= l < NUM_LEVELS ==> MetaSorted(Step(w, e)[l])
  {
    hide MetaSorted, AllProper, Step, Named, FreshFiles;
    forall l | 0 <= l < NUM_LEVELS
      ensures AllProper(Step(w, e)[l]) && MetaSorted(Step(w, e)[l]) && forall m :: m in Step(w, e)[l] ==> Named(m)
    {
      assert Kept(w[l], l, used);
      StepLevel(w, e, used, l);
    }
  }

  lemma UntouchedLevel(w: Version, e: VersionEdit, used: set<Placed>, l: nat)
    requires Ready(w, e, used) && l < NUM_LEVELS
    requires DeletedAt(e.deletedFiles, l) == {} && AddedAt(e.newFiles, l) == {}
    ensures Step(w, e)[l] == w[l]
  {
    hide MetaSorted, AllProper, Step, Named, FreshFiles;
    assert Kept(w[l], l, used);
    StepLevel(w, e, used, l);
    SortedUnique(Step(w, e)[l], w[l]);
  }

  /** The files of one level after an edit. */
  lemma EditedLevel(w: Version, e: VersionEdit, used: set<Placed>, l: nat, gone: seq<FileMeta>, made: seq<FileMeta>,
                    store: Store)
    requires Ready(w, e, used) && WholeVersion(Step(w, e)) && l < NUM_LEVELS && AllProper(gone) && AllProper(made)
    requires forall m :: m in gone ==> m in w[l]
    requires DeletedAt(e.deletedFiles, l) == Numbers(set m | m in gone)
    requires AddedAt(e.newFiles, l) == set m | m in made
    ensures FileSet(FilesOf(Step(w, e)[l], store)) ==
            (FileSet(FilesOf(w[l], store)) - FileSet(FilesOf(gone, store))) + FileSet(FilesOf(made, store))
  {
    hide MetaSorted, Step, Named, FreshFiles, FileOf, FilesOf, FileSet, AllProper;
    assert Kept(w[l], l, used);
    StepLevel(w, e, used, l);
    AddedIsFresh(e.newFiles, l, used);
    var old0, new0 := w[l], Step(w, e)[l];
    forall f ensures f in FileSet(FilesOf(new0, store)) <==>
        f in (FileSet(FilesOf(old0, store)) - FileSet(FilesOf(gone, store))) + FileSet(FilesOf(made, store))
    {
      if f in FileSet(FilesOf(new0, store)) {
        var m := OneOfFiles(new0, store, f);
        FilesOfMembers(old0, store, m);
        FilesOfMembers(gone, store, m);
        FilesOfMembers(made, store, m);
      } else if f in FileSet(FilesOf(made, store)) {
        var m := OneOfFiles(made, store, f);
        FilesOfMembers(new0, store, m);
      } else if f in FileSet(FilesOf(old0, store)) && f !in FileSet(FilesOf(gone, store)) {
        var m := OneOfFiles(old0, store, f);
        FilesOfMembers(gone, store, m);
        FilesOfMembers(new0, store, m);
      }
    }
  }

  // --- The edits of the source ---

  /** InstallCompactionResults and the trivial move: the inputs leave the two levels, the outputs enter the
      lower one. */
  ghost predicate IsCompactionEdit(e: VersionEdit, level: nat, in0: seq<FileMeta>, in1: seq<FileMeta>,
                                   outputs: seq<FileMeta>) {
    && DeletedAt(e.deletedFiles, level) == Numbers(set m | m in in0) && AddedAt(e.newFiles, level) == {}
    && DeletedAt(e.deletedFiles, level + 1) == Numbers(set m | m in in1)
    && AddedAt(e.newFiles, level + 1) == (set m | m in outputs)
    && forall l :: 0 <= l < NUM_LEVELS && l != level && l != level + 1 ==>
         DeletedAt(e.deletedFiles, l) == {} && AddedAt(e.newFiles, l) == {}
  }

  /** WriteLevel0Table: one file more. */
  ghost predicate IsFlushEdit(e: VersionEdit, level: nat, made: FileMeta) {
    && AddedAt(e.newFiles, level) == {made}
    && (forall l :: 0 <= l < NUM_LEVELS ==> DeletedAt(e.deletedFiles, l) == {})
    && (forall l :: 0 <= l < NUM_LEVELS && l != level ==> AddedAt(e.newFiles, l) == {})
  }

  /** The version built from a compaction's edit is the installed version. */
  lemma CompactionEditInstalls(w: Version, e: VersionEdit, used: set<Placed>, level: nat, in0: seq<FileMeta>,
                               in1: seq<FileMeta>, outputs: seq<FileMeta>, store: Store)
    requires Ready(w, e, used) && level + 1 < NUM_LEVELS && IsCompactionEdit(e, level, in0, in1, outputs)
    requires AllProper(in0) && AllProper(in1) && AllProper(outputs)
    requires (forall m :: m in in0 ==> m in w[level]) && (forall m :: m in in1 ==> m in w[level + 1])
    ensures WholeVersion(Step(w, e))
    ensures Installed(VersionOf(w, store), VersionOf(Step(w, e), store), level,
                      FilesOf(in0, store), FilesOf(in1, store), FilesOf(outputs, store))
  {
    hide MetaSorted, Step, Named, FreshFiles, FilesOf, FileSet, AllProper, KeptVersion, BySmallest, Numbers;
    StepIsWhole(w, e, used);
    forall l | 0 <= l < NUM_LEVELS && l != level && l != level + 1 ensures Step(w, e)[l] == w[l] {
      UntouchedLevel(w, e, used, l);
    }
    NoFilesSet(store);
    EditedLevel(w, e, used, level, in0, [], store);
    EditedLevel(w, e, used, level + 1, in1, outputs, store);
    FilesOfSorted(Step(w, e)[level], store);
    FilesOfSorted(Step(w, e)[level + 1], store);
  }

  lemma NoFilesSet(store: Store)
    ensures AllProper([]) && FileSet(FilesOf([], store)) == {}
  {
  }

  /** The version built from a flush's edit is the flushed version. */
  lemma FlushEditInstalls(w: Version, e: VersionEdit, used: set<Placed>, level: nat, made: FileMeta, store: Store)
    requires Ready(w, e, used) && level < NUM_LEVELS && IsFlushEdit(e, level, made) && Proper(made)
    ensures WholeVersion(Step(w, e))
    ensures Flushed(VersionOf(w, store), VersionOf(Step(w, e), store), level, FileOf(made, store))
  {
    hide MetaSorted, Step, Named, FreshFiles, FilesOf, FileSet, Proper, KeptVersion, BySmallest, FileOf;
    StepIsWhole(w, e, used);
    forall l | 0 <= l < NUM_LEVELS && l != level ensures Step(w, e)[l] == w[l] {
      UntouchedLevel(w, e, used, l);
    }
    assert Numbers(set m | m in []) == {};
    assert (set m | m in [made]) == {made};
    EditedLevel(w, e, used, level, [], [made], store);
    NoFilesSet(store);
    OneFileSet(made, store);
    FilesOfSorted(Step(w, e)[level], store);
  }

  lemma OneFileSet(m: FileMeta, store: Store)
    requires Proper(m)
    ensures FileSet(FilesOf([m], store)) == {FileOf(m, store)}
  {
    hide FileOf, Proper;
    assert FilesOf([m], store) == [FileOf(m, store)];
  }
}
