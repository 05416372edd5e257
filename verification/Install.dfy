/** Installing the result of a compaction or of a memtable flush as a new version: what keeps the levels
    in the shape that point lookups rely on, and reads unchanged. */
module Installs {
  import opened Lsm
  import opened Wrappers
  import opened Files
  import opened Versions
  import opened InputPicking
  import opened Compactions

  ghost function FileSet(fs: seq<File>): set<File> {
    set f | f in fs
  }

  /** The order in which a version keeps the files of a level: smallest key, then number. */
  predicate SmallestFirst(f: File, g: File) {
    Before(f.smallest, g.smallest) || (f.smallest == g.smallest && f.number < g.number)
  }

  ghost predicate BySmallest(fs: seq<File>) {
    forall i, j :: 0 <= i < j < |fs| ==> SmallestFirst(fs[i], fs[j])
  }

  ghost predicate PairwiseDisjoint(s: set<File>) {
    forall f, g :: f in s && g in s && f != g ==> Before(f.largest, g.smallest) || Before(g.largest, f.smallest)
  }

  lemma SortedPairwiseDisjoint(fs: seq<File>)
    requires AllWellFormed(fs) && BySmallest(fs)
    ensures PairwiseDisjoint(FileSet(fs)) <==> Disjoint(fs)
  {
    forall i, j | 0 <= i < j < |fs| && PairwiseDisjoint(FileSet(fs)) ensures Before(fs[i].largest, fs[j].smallest) {
      assert fs[i] in FileSet(fs) && fs[j] in FileSet(fs) && SmallestFirst(fs[i], fs[j]);
      InRange(fs[j], fs[j].entries[|fs[j].entries| - 1]);
    }
    if Disjoint(fs) {
      forall f, g | f in fs && g in fs && f != g
        ensures Before(f.largest, g.smallest) || Before(g.largest, f.smallest) {
        InOneRun(fs, f, g);
      }
    }
  }

  ghost predicate WithinHull(outputs: seq<File>, inputs: seq<File>) {
    forall s, l, o :: IsRange(inputs, s, l) && o in outputs ==> !Before(o.smallest, s) && !Before(l, o.largest)
  }

  /** A file of the next level that was not picked lies wholly on one side of everything that was. */
  lemma UnpickedIsAside(level: seq<File>, next: seq<File>, in0: seq<File>, in1: seq<File>, f: File, s: Key, l: Key)
    requires AllWellFormed(level) && AllWellFormed(next) && Disjoint(next) && Picked(level, next, in0, in1)
    requires f in next && f !in in1 && IsRange(in0 + in1, s, l)
    ensures Before(f.largest, s) || Before(l, f.smallest)
  {
    hide WellFormed, AllWellFormed, Disjoint;
    var s0, l0 :| IsRange(in0, s0, l0) && in1 == Overlapping(next, Some(s0.user), Some(l0.user));
    MemberWellFormed(next, f);
    EndsInOrder(f);
    forall g | g in in1 ensures Before(f.largest, g.smallest) || Before(g.largest, f.smallest) {
      InOneRun(next, f, g);
    }
    forall g | g in in1
      ensures g.largest.user >= s0.user && g.smallest.user <= l0.user && g.smallest.user <= g.largest.user {
      MemberWellFormed(next, g);
      EndsInOrder(g);
    }
    var a :| a in in0 + in1 && a.smallest == s;
    var b :| b in in0 + in1 && b.largest == l;
    assert f.largest.user < s0.user || f.smallest.user > l0.user;
  }

  /** Any outputs within the inputs' hull leave the next level sorted and disjoint. */
  lemma NextLevelStaysDisjoint(level: seq<File>, next: seq<File>, in0: seq<File>, in1: seq<File>, outputs: seq<File>,
                               fs: seq<File>)
    requires AllWellFormed(level) && AllWellFormed(next) && Disjoint(next) && Picked(level, next, in0, in1)
    requires AllWellFormed(outputs) && Disjoint(outputs) && WithinHull(outputs, in0 + in1)
    requires BySmallest(fs) && FileSet(fs) == (FileSet(next) - FileSet(in1)) + FileSet(outputs)
    ensures AllWellFormed(fs) && Disjoint(fs)
  {
    forall i | 0 <= i < |fs| ensures WellFormed(fs[i]) {
      assert fs[i] in FileSet(fs);
    }
    var s, l := RangeOf(in0 + in1);
    forall f, g | f in fs && g in fs && f != g ensures Before(f.largest, g.smallest) || Before(g.largest, f.smallest) {
      assert f in FileSet(fs) && g in FileSet(fs);
      Aside(level, next, in0, in1, outputs, f, g, s, l);
    }
    assert PairwiseDisjoint(FileSet(fs));
    SortedPairwiseDisjoint(fs);
  }

  lemma RangeOf(fs: seq<File>) returns (s: Key, l: Key)
    requires fs != []
    ensures IsRange(fs, s, l)
  {
    if |fs| == 1 {
      s, l := fs[0].smallest, fs[0].largest;
    } else {
      var s0, l0 := RangeOf(fs[1..]);
      s, l := Smaller(s0, fs[0].smallest), Larger(l0, fs[0].largest);
      assert forall f :: f in fs <==> f == fs[0] || f in fs[1..];
    }
  }

  lemma Aside(level: seq<File>, next: seq<File>, in0: seq<File>, in1: seq<File>, outputs: seq<File>, f: File, g: File,
              s: Key, l: Key)
    requires AllWellFormed(level) && AllWellFormed(next) && Disjoint(next) && Picked(level, next, in0, in1)
    requires AllWellFormed(outputs) && Disjoint(outputs) && WithinHull(outputs, in0 + in1)
    requires IsRange(in0 + in1, s, l) && f != g
    requires (f in next && f !in in1) || f in outputs
    requires (g in next && g !in in1) || g in outputs
    ensures Before(f.largest, g.smallest) || Before(g.largest, f.smallest)
  {
    if f in outputs && g in outputs {
      InOneRun(outputs, f, g);
    } else if f in next && g in next {
      InOneRun(next, f, g);
    } else if f in outputs {
      UnpickedVersusOutput(level, next, in0, in1, outputs, g, f, s, l);
    } else {
      UnpickedVersusOutput(level, next, in0, in1, outputs, f, g, s, l);
    }
  }

  lemma InOneRun(fs: seq<File>, f: File, g: File)
    requires Disjoint(fs) && f in fs && g in fs && f != g
    ensures Before(f.largest, g.smallest) || Before(g.largest, f.smallest)
  {
    var i :| 0 <= i < |fs| && fs[i] == f;
    var j :| 0 <= j < |fs| && fs[j] == g;
    assert i < j || j < i;
  }

  lemma UnpickedVersusOutput(level: seq<File>, next: seq<File>, in0: seq<File>, in1: seq<File>, outputs: seq<File>,
                             f: File, o: File, s: Key, l: Key)
    requires AllWellFormed(level) && AllWellFormed(next) && Disjoint(next) && Picked(level, next, in0, in1)
    requires WithinHull(outputs, in0 + in1) && IsRange(in0 + in1, s, l)
    requires f in next && f !in in1 && o in outputs
    ensures Before(f.largest, o.smallest) || Before(o.largest, f.smallest)
  {
    hide AllWellFormed, Disjoint, Picked, IsRange;
    UnpickedIsAside(level, next, in0, in1, f, s, l);
    assert !Before(o.smallest, s) && !Before(l, o.largest);
  }

  /** The version LogAndApply builds from a compaction's edit. */
  ghost predicate Installed(v: seq<seq<File>>, v1: seq<seq<File>>, level: nat, in0: seq<File>, in1: seq<File>,
                            outputs: seq<File>) {
    |v| == |v1| == NUM_LEVELS && level + 1 < NUM_LEVELS &&
    (forall l :: 0 <= l < NUM_LEVELS && l != level && l != level + 1 ==> v1[l] == v[l]) &&
    FileSet(v1[level]) == FileSet(v[level]) - FileSet(in0) &&
    FileSet(v1[level + 1]) == (FileSet(v[level + 1]) - FileSet(in1)) + FileSet(outputs) &&
    BySmallest(v1[level]) && BySmallest(v1[level + 1])
  }

  /** A finished compaction: inputs as SetupOtherInputs picks them, outputs made of input entries. */
  ghost predicate Compacted(v: seq<seq<File>>, level: nat, in0: seq<File>, in1: seq<File>, outputs: seq<File>) {
    |v| == NUM_LEVELS && level + 1 < NUM_LEVELS && Picked(v[level], v[level + 1], in0, in1) &&
    AllWellFormed(outputs) && Disjoint(outputs) && Contents(outputs) <= Contents(in0 + in1)
  }

  lemma OutputsStayInHull(v: seq<seq<File>>, level: nat, in0: seq<File>, in1: seq<File>, outputs: seq<File>)
    requires Compacted(v, level, in0, in1, outputs) && AllWellFormed(v[level]) && AllWellFormed(v[level + 1])
    ensures WithinHull(outputs, in0 + in1)
  {
    hide Picked, IsRange, Contents, Disjoint, Sorted, Before;
    forall s, l, o | IsRange(in0 + in1, s, l) && o in outputs ensures !Before(o.smallest, s) && !Before(l, o.largest) {
      var i :| 0 <= i < |outputs| && outputs[i] == o;
      EntryInHull(v, level, in0, in1, outputs, o, o.entries[0], s, l);
      EntryInHull(v, level, in0, in1, outputs, o, o.entries[|o.entries| - 1], s, l);
    }
  }

  lemma EntryInHull(v: seq<seq<File>>, level: nat, in0: seq<File>, in1: seq<File>, outputs: seq<File>, o: File,
                    e: Entry, s: Key, l: Key)
    requires Compacted(v, level, in0, in1, outputs) && AllWellFormed(v[level]) && AllWellFormed(v[level + 1])
    requires IsRange(in0 + in1, s, l) && o in outputs && e in o.entries
    ensures !Before(e.key, s) && !Before(l, e.key)
  {
    assert e in Contents(outputs);
    var f :| f in in0 + in1 && e in f.entries;
    assert f in v[level] || f in v[level + 1];
    InRange(f, e);
  }

  lemma ContentsBySet(fs: seq<File>, gs: seq<File>, hs: seq<File>)
    requires FileSet(fs) <= FileSet(gs) + FileSet(hs)
    ensures Contents(fs) <= Contents(gs) + Contents(hs)
  {
    forall e | e in Contents(fs) ensures e in Contents(gs) + Contents(hs) {
      var f :| f in fs && e in f.entries;
      assert f in FileSet(fs);
    }
  }

  /** Contents of the two rewritten levels, in terms of the old ones. */
  lemma RewrittenContents(v: seq<seq<File>>, v1: seq<seq<File>>, level: nat, in0: seq<File>, in1: seq<File>,
                          outputs: seq<File>)
    requires Compacted(v, level, in0, in1, outputs) && Installed(v, v1, level, in0, in1, outputs)
    ensures Contents(v1[level]) <= Contents(v[level])
    ensures Contents(v1[level + 1]) <= Contents(v[level + 1]) + Contents(outputs)
    ensures Contents(outputs) <= Contents(v[level]) + Contents(v[level + 1])
    ensures Contents(outputs) <= Contents(v1[level + 1])
  {
    ContentsBySet(v1[level], v[level], []);
    ContentsBySet(v1[level + 1], v[level + 1], outputs);
    ContentsBySet(in0 + in1, v[level], v[level + 1]);
    ContentsBySet(outputs, v1[level + 1], []);
    assert Contents([]) == {};
  }

  /** Installing a compaction keeps every level in shape exactly when no entry left behind at level L
      is older than an output entry of the same user key. */
  lemma InstallKeepsShapeIff(v: seq<seq<File>>, v1: seq<seq<File>>, level: nat, in0: seq<File>, in1: seq<File>,
                             outputs: seq<File>)
    requires Shape(v) && Compacted(v, level, in0, in1, outputs) && Installed(v, v1, level, in0, in1, outputs)
    ensures Shape(v1) <==> NewerPerKey(Contents(v1[level]), Contents(outputs))
  {
    hide Picked, Contents, Disjoint, BySmallest, WithinHull, LevelZeroOrder, NewerPerKey;
    RewrittenContents(v, v1, level, in0, in1, outputs);
    if NewerPerKey(Contents(v1[level]), Contents(outputs)) {
      OutputsStayInHull(v, level, in0, in1, outputs);
      NextLevelStaysDisjoint(v[level], v[level + 1], in0, in1, outputs, v1[level + 1]);
      SourceLevelStaysInShape(v[level], v1[level], level);
      forall l, m | 0 <= l < m < NUM_LEVELS ensures NewerPerKey(Contents(v1[l]), Contents(v1[m])) {
        LevelsStayOrdered(v, v1, level, in0, in1, outputs, l, m);
      }
    }
    if Shape(v1) {
      assert NewerPerKey(Contents(v1[level]), Contents(v1[level + 1]));
      NewerOfParts(Contents(v1[level]), Contents(v1[level]), {}, Contents(outputs), Contents(v1[level + 1]), {});
    }
  }

  lemma NewerOfParts(a: set<Entry>, a0: set<Entry>, a1: set<Entry>, b: set<Entry>, b0: set<Entry>, b1: set<Entry>)
    requires a <= a0 + a1 && b <= b0 + b1
    requires NewerPerKey(a0, b0) && NewerPerKey(a0, b1) && NewerPerKey(a1, b0) && NewerPerKey(a1, b1)
    ensures NewerPerKey(a, b)
  {
  }

  lemma SourceLevelStaysInShape(old0: seq<File>, new0: seq<File>, level: nat)
    requires AllWellFormed(old0) && FileSet(new0) <= FileSet(old0) && BySmallest(new0)
    requires level > 0 ==> Disjoint(old0)
    requires level == 0 ==> LevelZeroOrder(old0) && forall i, j :: 0 <= i < j < |old0| ==>
             old0[i].number != old0[j].number
    ensures AllWellFormed(new0) && (level > 0 ==> Disjoint(new0))
    ensures level == 0 ==> LevelZeroOrder(new0) && forall i, j :: 0 <= i < j < |new0| ==>
            new0[i].number != new0[j].number
  {
    forall i | 0 <= i < |new0| ensures new0[i] in old0 {
      assert new0[i] in FileSet(new0);
    }
    if level > 0 {
      forall f, g | f in new0 && g in new0 && f != g
        ensures Before(f.largest, g.smallest) || Before(g.largest, f.smallest) {
        InOneRun(old0, f, g);
      }
      SortedPairwiseDisjoint(new0);
    } else {
      forall i, j | 0 <= i < j < |new0| ensures new0[i].number != new0[j].number {
        assert SmallestFirst(new0[i], new0[j]) && new0[i] != new0[j];
      }
    }
  }

  lemma LevelsStayOrdered(v: seq<seq<File>>, v1: seq<seq<File>>, level: nat, in0: seq<File>, in1: seq<File>,
                          outputs: seq<File>, l: nat, m: nat)
    requires Shape(v) && Compacted(v, level, in0, in1, outputs) && Installed(v, v1, level, in0, in1, outputs)
    requires NewerPerKey(Contents(v1[level]), Contents(outputs)) && l < m < NUM_LEVELS
    ensures NewerPerKey(Contents(v1[l]), Contents(v1[m]))
  {
    RewrittenContents(v, v1, level, in0, in1, outputs);
    OrderedByParts(v, v1, level, Contents(outputs), l, m);
  }

  lemma OrderedByParts(v: seq<seq<File>>, v1: seq<seq<File>>, level: nat, made: set<Entry>, l: nat, m: nat)
    requires |v| == |v1| == NUM_LEVELS && level + 1 < NUM_LEVELS && l < m < NUM_LEVELS
    requires forall l, m :: 0 <= l < m < |v| ==> NewerPerKey(Contents(v[l]), Contents(v[m]))
    requires forall l :: 0 <= l < NUM_LEVELS && l != level && l != level + 1 ==> v1[l] == v[l]
    requires Contents(v1[level]) <= Contents(v[level])
    requires Contents(v1[level + 1]) <= Contents(v[level + 1]) + made
    requires made <= Contents(v[level]) + Contents(v[level + 1])
    requires NewerPerKey(Contents(v1[level]), made)
    ensures NewerPerKey(Contents(v1[l]), Contents(v1[m]))
  {
    hide Contents;
    assert NewerPerKey(Contents(v[l]), Contents(v[m]));
    if m == level + 1 && l < level {
      assert NewerPerKey(Contents(v[l]), Contents(v[level]));
    }
    if l == level + 1 {
      assert NewerPerKey(Contents(v[level]), Contents(v[m]));
    }
  }

  /** At level 0 the condition always holds: the inputs' range touches no other level-0 file. */
  lemma LevelZeroLeavesNothingOlder(v: seq<seq<File>>, v1: seq<seq<File>>, in0: seq<File>, in1: seq<File>,
                                    outputs: seq<File>)
    requires Shape(v) && Compacted(v, 0, in0, in1, outputs) && Installed(v, v1, 0, in0, in1, outputs)
    requires SelfClosed(v[0], in0)
    ensures NewerPerKey(Contents(v1[0]), Contents(in0 + in1))
  {
    hide Sorted, Disjoint, Before, IsRange, BySmallest, LevelZeroOrder, SelfClosed, NewerPerKey, AllWellFormed;
    LeftBehind(v[0], v[1], v1[0], in0, in1);
    forall f, g, e, d | f in v[0] && f !in in0 && g in in0 && e in f.entries && d in g.entries
      ensures e.key.user != d.key.user
    {
      ApartAtLevelZero(v[0], in0, f, g, e, d);
    }
    NewerWhenApart(v[0], v[1], v1[0], in0, in1);
  }

  /** Facts about the files left behind at level L that do not depend on how the inputs were picked. */
  lemma LeftBehind(level: seq<File>, next: seq<File>, left: seq<File>, in0: seq<File>, in1: seq<File>)
    requires FileSet(left) == FileSet(level) - FileSet(in0) && Picked(level, next, in0, in1)
    ensures forall f :: f in left ==> f in level && f !in in0
    ensures in0 != [] && (forall g :: g in in0 ==> g in level) && (forall g :: g in in1 ==> g in next)
  {
    assert forall f :: f in left ==> f in FileSet(left);
  }

  lemma ClosedMeans(files: seq<File>, in0: seq<File>, s: Key, l: Key, f: File)
    requires SelfClosed(files, in0) && IsRange(in0, s, l) && f in files
    ensures Overlaps(f, Some(s.user), Some(l.user)) ==> f in in0
  {
    hide IsRange, Overlaps;
  }

  lemma ApartAtLevelZero(files: seq<File>, in0: seq<File>, f: File, g: File, e: Entry, d: Entry)
    requires AllWellFormed(files) && SelfClosed(files, in0) && (forall h :: h in in0 ==> h in files)
    requires f in files && f !in in0 && g in in0 && e in f.entries && d in g.entries
    ensures e.key.user != d.key.user
  {
    hide WellFormed, SelfClosed, AllWellFormed;
    var s, l := RangeOf(in0);
    MemberWellFormed(files, f);
    MemberWellFormed(files, g);
    InRange(f, e);
    InRange(g, d);
    assert !Overlaps(f, Some(s.user), Some(l.user)) by { ClosedMeans(files, in0, s, l, f); }
  }

  lemma NewerWhenApart(level: seq<File>, next: seq<File>, left: seq<File>, in0: seq<File>, in1: seq<File>)
    requires forall f :: f in left ==> f in level && f !in in0
    requires forall g :: g in in1 ==> g in next
    requires NewerPerKey(Contents(level), Contents(next))
    requires forall f, g, e, d :: (f in level && f !in in0 && g in in0 && e in f.entries && d in g.entries &&
                                   e.key.user == d.key.user) ==> e.key.sequence > d.key.sequence
    ensures NewerPerKey(Contents(left), Contents(in0 + in1))
  {
  }

  /** Above level 0 it holds when no user key straddles the upper end of the inputs. */
  lemma NoStraddlingKeyLeavesNothingOlder(v: seq<seq<File>>, v1: seq<seq<File>>, level: nat, in0: seq<File>,
                                          in1: seq<File>, outputs: seq<File>)
    requires Shape(v) && Distinct(All(v)) && level > 0
    requires Compacted(v, level, in0, in1, outputs) && Installed(v, v1, level, in0, in1, outputs)
    requires forall f, g :: f in v[level] && f !in in0 && g in in0 ==> f.smallest.user != g.largest.user
    ensures NewerPerKey(Contents(v1[level]), Contents(in0 + in1))
  {
    hide Sorted, Disjoint, Before, IsRange, BySmallest, LevelZeroOrder, NewerPerKey, AllWellFormed, Distinct;
    LeftBehind(v[level], v[level + 1], v1[level], in0, in1);
    forall f, g, e, d | f in v[level] && f !in in0 && g in in0 && e in f.entries && d in g.entries &&
      e.key.user == d.key.user
      ensures e.key.sequence > d.key.sequence
    {
      assert e in Contents(v[level]) && d in Contents(v[level]);
      NewerInOneLevel(v[level], f, g, e, d, All(v));
    }
    NewerWhenApart(v[level], v[level + 1], v1[level], in0, in1);
  }

  lemma NewerInOneLevel(files: seq<File>, f: File, g: File, e: Entry, d: Entry, all: set<Entry>)
    requires AllWellFormed(files) && Disjoint(files) && f in files && g in files && f != g
    requires e in f.entries && d in g.entries && e.key.user == d.key.user && f.smallest.user != g.largest.user
    requires Distinct(all) && e in all && d in all
    ensures e.key.sequence > d.key.sequence
  {
    var i :| 0 <= i < |files| && files[i] == f;
    var j :| 0 <= j < |files| && files[j] == g;
    InRange(f, e);
    InRange(g, d);
    InOneRun(files, f, g);
    assert Before(e.key, d.key);
  }

  /** Entries that take no part in the compaction: newer levels and the files left behind, then the deeper levels. */
  ghost function Upper(v: seq<seq<File>>, v1: seq<seq<File>>, level: nat, in1: seq<File>): set<Entry>
    requires |v| == |v1| == NUM_LEVELS && level + 1 < NUM_LEVELS
  {
    (set l, e | 0 <= l < level && e in Contents(v[l]) :: e) + Contents(v1[level]) +
    (set f, e | f in v[level + 1] && f !in in1 && e in f.entries :: e)
  }

  ghost function Lower(v: seq<seq<File>>, level: nat): set<Entry>
    requires |v| == NUM_LEVELS
  {
    set l, e | level + 2 <= l < NUM_LEVELS && e in Contents(v[l]) :: e
  }

  lemma LowerIsNotBase(v: seq<seq<File>>, level: nat, e: Entry)
    requires |v| == NUM_LEVELS && (forall l :: 0 <= l < |v| ==> AllWellFormed(v[l])) && e in Lower(v, level)
    ensures !BaseLevel(v, level, e.key.user)
  {
    var l :| level + 2 <= l < NUM_LEVELS && e in Contents(v[l]);
    var f :| f in v[l] && e in f.entries;
    var i :| 0 <= i < |v[l]| && v[l][i] == f;
    InRange(f, e);
  }

  lemma InFileSet(fs: seq<File>)
    ensures forall f :: f in FileSet(fs) <==> f in fs
  {
  }

  /** Which files the installation moved. */
  ghost predicate Moved(v: seq<seq<File>>, v1: seq<seq<File>>, level: nat, in0: seq<File>, in1: seq<File>,
                        outputs: seq<File>) {
    && |v| == |v1| == NUM_LEVELS && level + 1 < NUM_LEVELS
    && (forall f :: f in in0 ==> f in v[level]) && (forall f :: f in in1 ==> f in v[level + 1])
    && (forall f :: f in v1[level] <==> f in v[level] && f !in in0)
    && (forall f :: f in v1[level + 1] <==> (f in v[level + 1] && f !in in1) || f in outputs)
    && (forall l :: 0 <= l < NUM_LEVELS && l != level && l != level + 1 ==> v1[l] == v[l])
  }

  lemma WhatMoved(v: seq<seq<File>>, v1: seq<seq<File>>, level: nat, in0: seq<File>, in1: seq<File>, outputs: seq<File>)
    requires Compacted(v, level, in0, in1, outputs) && Installed(v, v1, level, in0, in1, outputs)
    ensures Moved(v, v1, level, in0, in1, outputs)
  {
    hide IsRange, WithinHull, AllWellFormed, Disjoint, BySmallest;
    InFileSet(v1[level]);
    InFileSet(v1[level + 1]);
  }

  lemma InContents(fs: seq<File>, e: Entry) returns (f: File)
    requires e in Contents(fs)
    ensures f in fs && e in f.entries
  {
    f :| f in fs && e in f.entries;
  }

  lemma OldIsSplit(v: seq<seq<File>>, v1: seq<seq<File>>, level: nat, in0: seq<File>, in1: seq<File>,
                   outputs: seq<File>, e: Entry)
    requires Moved(v, v1, level, in0, in1, outputs) && e in All(v)
    ensures e in Contents(in0 + in1) + (Upper(v, v1, level, in1) + Lower(v, level))
  {
    var l :| 0 <= l < |v| && e in Contents(v[l]);
    var f := InContents(v[l], e);
    if f in in0 || f in in1 {
      assert f in in0 + in1;
    } else if l == level {
      assert e in Contents(v1[level]);
    }
  }

  lemma NewIsSplit(v: seq<seq<File>>, v1: seq<seq<File>>, level: nat, in0: seq<File>, in1: seq<File>,
                   outputs: seq<File>, e: Entry)
    requires Moved(v, v1, level, in0, in1, outputs) && e in All(v1)
    ensures e in Contents(outputs) + (Upper(v, v1, level, in1) + Lower(v, level))
  {
    var l :| 0 <= l < |v1| && e in Contents(v1[l]);
    var f := InContents(v1[l], e);
    if l != level && l != level + 1 {
      assert e in Contents(v[l]);
    }
  }

  lemma RestIsOld(v: seq<seq<File>>, v1: seq<seq<File>>, level: nat, in0: seq<File>, in1: seq<File>, outputs: seq<File>,
                  e: Entry)
    requires Moved(v, v1, level, in0, in1, outputs)
    requires e in Contents(in0 + in1) + (Upper(v, v1, level, in1) + Lower(v, level))
    ensures e in All(v)
  {
    if e in Contents(in0 + in1) {
      var f := InContents(in0 + in1, e);
      assert e in Contents(v[level]) || e in Contents(v[level + 1]);
    } else if e in Contents(v1[level]) {
      assert e in Contents(v[level]);
    } else if f :| f in v[level + 1] && f !in in1 && e in f.entries {
      assert e in Contents(v[level + 1]);
    }
  }

  lemma RestIsNew(v: seq<seq<File>>, v1: seq<seq<File>>, level: nat, in0: seq<File>, in1: seq<File>, outputs: seq<File>,
                  e: Entry)
    requires Moved(v, v1, level, in0, in1, outputs)
    requires e in Contents(outputs) + (Upper(v, v1, level, in1) + Lower(v, level))
    ensures e in All(v1)
  {
    if e in Contents(outputs) {
      assert e in Contents(v1[level + 1]);
    } else if e in Contents(v1[level]) {
    } else if f :| f in v[level + 1] && f !in in1 && e in f.entries {
      assert e in Contents(v1[level + 1]);
    } else {
      var l :| 0 <= l < NUM_LEVELS && l != level && l != level + 1 && e in Contents(v[l]);
      assert e in Contents(v1[l]);
    }
  }

  /** The old version holds the inputs and the rest; the new one the outputs and the same rest. */
  lemma SplitContents(v: seq<seq<File>>, v1: seq<seq<File>>, level: nat, in0: seq<File>, in1: seq<File>,
                      outputs: seq<File>)
    requires Compacted(v, level, in0, in1, outputs) && Installed(v, v1, level, in0, in1, outputs)
    ensures All(v) == Contents(in0 + in1) + (Upper(v, v1, level, in1) + Lower(v, level))
    ensures All(v1) == Contents(outputs) + (Upper(v, v1, level, in1) + Lower(v, level))
  {
    hide All, Contents, Upper, Lower, Moved, IsRange, WithinHull, AllWellFormed, Disjoint, BySmallest;
    WhatMoved(v, v1, level, in0, in1, outputs);
    forall e ensures e in All(v) <==> e in Contents(in0 + in1) + (Upper(v, v1, level, in1) + Lower(v, level)) {
      if e in All(v) {
        OldIsSplit(v, v1, level, in0, in1, outputs, e);
      } else if e in Contents(in0 + in1) + (Upper(v, v1, level, in1) + Lower(v, level)) {
        RestIsOld(v, v1, level, in0, in1, outputs, e);
      }
    }
    forall e ensures e in All(v1) <==> e in Contents(outputs) + (Upper(v, v1, level, in1) + Lower(v, level)) {
      if e in All(v1) {
        NewIsSplit(v, v1, level, in0, in1, outputs, e);
      } else if e in Contents(outputs) + (Upper(v, v1, level, in1) + Lower(v, level)) {
        RestIsNew(v, v1, level, in0, in1, outputs, e);
      }
    }
  }

  /** The whole compaction: with nothing older left behind at the two levels, the new version is in shape
      and every read at a snapshot that can still be taken returns what it returned before. */
  lemma CompactionIsSafe(v: seq<seq<File>>, v1: seq<seq<File>>, level: nat, in0: seq<File>, in1: seq<File>,
                         outputs: seq<File>, es: seq<Entry>, snap: nat)
    requires Shape(v) && Distinct(All(v))
    requires Compacted(v, level, in0, in1, outputs) && Installed(v, v1, level, in0, in1, outputs)
    requires Sorted(es) && Elements(es) == Contents(in0 + in1)
    requires Flatten(outputs) == Kept(es, snap, BaseUsers(v, level), |es|)
    requires NewerPerKey(Upper(v, v1, level, in1), Elements(es))
    ensures Shape(v1) && SameReads(All(v), All(v1), snap)
  {
    hide Sorted, Disjoint, Before, IsRange, BySmallest, LevelZeroOrder, Contents, Upper, Lower, Picked, Flatten, Kept,
         BaseLevel, UncoversNothing, SameReads, Shape, NewerPerKey, All, Distinct, Elements, AllWellFormed;
    var base := BaseUsers(v, level);
    var upper, lower := Upper(v, v1, level, in1), Lower(v, level);
    SplitContents(v, v1, level, in0, in1, outputs);
    InputsAreApart(v, v1, level, in0, in1, outputs);
    MarkersAreCovered(v, v1, level, in0, in1, es, snap);
    CompactionKeepsReadsIff(es, snap, base, upper + lower);
    SameElements(outputs, Kept(es, snap, base, |es|));
    LeftIsNewer(v, v1, level, in0, in1, outputs, Elements(es));
    InstallKeepsShapeIff(v, v1, level, in0, in1, outputs);
  }

  lemma SameElements(fs: seq<File>, es: seq<Entry>)
    requires Flatten(fs) == es
    ensures Contents(fs) == Elements(es)
  {
    forall e ensures e in Contents(fs) <==> e in Elements(es) {
      FlattenMembers(fs, e);
    }
  }

  lemma LeftIsNewer(v: seq<seq<File>>, v1: seq<seq<File>>, level: nat, in0: seq<File>, in1: seq<File>,
                    outputs: seq<File>, inputs: set<Entry>)
    requires |v| == |v1| == NUM_LEVELS && level + 1 < NUM_LEVELS
    requires NewerPerKey(Upper(v, v1, level, in1), inputs) && Contents(outputs) <= inputs
    ensures NewerPerKey(Contents(v1[level]), Contents(outputs))
  {
    assert Contents(v1[level]) <= Upper(v, v1, level, in1);
  }

  lemma MarkersAreCovered(v: seq<seq<File>>, v1: seq<seq<File>>, level: nat, in0: seq<File>, in1: seq<File>,
                          es: seq<Entry>, snap: nat)
    requires Shape(v) && |v1| == NUM_LEVELS && level + 1 < NUM_LEVELS
    requires NewerPerKey(Upper(v, v1, level, in1), Elements(es))
    ensures UncoversNothing(es, snap, BaseUsers(v, level), Upper(v, v1, level, in1) + Lower(v, level))
  {
    hide Sorted, Disjoint, Before, LevelZeroOrder, Contents, Upper, Lower, BaseLevel, UncoversNothing, WellFormed;
    var base := BaseUsers(v, level);
    forall o | o in Lower(v, level) ensures o.key.user !in base {
      LowerIsNotBase(v, level, o);
    }
    OlderLevelsUncoverNothing(es, snap, base, Upper(v, v1, level, in1), Lower(v, level));
  }

  lemma InputsAreApart(v: seq<seq<File>>, v1: seq<seq<File>>, level: nat, in0: seq<File>, in1: seq<File>,
                       outputs: seq<File>)
    requires Shape(v) && Compacted(v, level, in0, in1, outputs) && Installed(v, v1, level, in0, in1, outputs)
    requires NewerPerKey(Upper(v, v1, level, in1), Contents(in0 + in1))
    ensures Contents(in0 + in1) !! Upper(v, v1, level, in1) + Lower(v, level)
  {
    hide Sorted, Disjoint, Before, LevelZeroOrder, IsRange, WellFormed, BySmallest, Upper;
    forall e | e in Contents(in0 + in1) ensures e !in Lower(v, level) {
      var f :| f in in0 + in1 && e in f.entries;
      assert e in Contents(v[level]) || e in Contents(v[level + 1]);
      forall l | level + 2 <= l < NUM_LEVELS ensures e !in Contents(v[l]) {
        assert NewerPerKey(Contents(v[level]), Contents(v[l])) && NewerPerKey(Contents(v[level + 1]), Contents(v[l]));
      }
    }
  }

  /** The version LogAndApply builds from a flushed memtable. */
  ghost predicate Flushed(v: seq<seq<File>>, v1: seq<seq<File>>, level: nat, f: File) {
    |v| == |v1| == NUM_LEVELS && level < NUM_LEVELS &&
    (forall l :: 0 <= l < NUM_LEVELS && l != level ==> v1[l] == v[l]) &&
    FileSet(v1[level]) == FileSet(v[level]) + {f} && BySmallest(v1[level])
  }

  /** A flushed memtable may skip levels its key range does not touch: the shape is kept although newer entries
      now lie below older ones of other keys. */
  lemma FlushIsSafe(v: seq<seq<File>>, v1: seq<seq<File>>, level: nat, f: File)
    requires Shape(v) && Flushed(v, v1, level, f) && WellFormed(f)
    requires NewerPerKey(Elements(f.entries), All(v))
    requires forall g :: g in v[0] ==> g.number < f.number
    requires level > 0 ==> forall k :: 0 <= k <= level ==> NoOverlap(v[k], f.smallest.user, f.largest.user)
    ensures Shape(v1) && All(v1) == All(v) + Elements(f.entries)
  {
    hide BySmallest, Sorted, Before, Contents, Disjoint, LevelZeroOrder, NoOverlap, WellFormed, NewerPerKey, All;
    FlushedContents(v[level], v1[level], f);
    FlushedAll(v, v1, level, Elements(f.entries));
    FlushedLevel(v[level], v1[level], level, f, All(v));
    forall k | 0 <= k < level ensures NewerPerKey(Contents(v[k]), Elements(f.entries)) {
      ApartWhenNoOverlap(v[k], f);
    }
    FlushedOrder(v, v1, level, Elements(f.entries));
  }

  lemma FlushedAll(v: seq<seq<File>>, v1: seq<seq<File>>, level: nat, made: set<Entry>)
    requires |v| == |v1| && level < |v| && (forall l :: 0 <= l < |v| && l != level ==> v1[l] == v[l])
    requires Contents(v1[level]) == Contents(v[level]) + made
    ensures All(v1) == All(v) + made
    ensures forall l :: 0 <= l < |v| ==> Contents(v[l]) <= All(v)
  {
    hide Contents;
    forall e ensures e in All(v1) <==> e in All(v) + made {
      if e in All(v1) {
        var l :| 0 <= l < |v1| && e in Contents(v1[l]);
        assert l == level || e in Contents(v[l]);
      }
      if e in All(v) {
        var l :| 0 <= l < |v| && e in Contents(v[l]);
        assert e in Contents(v1[l]);
      } else if e in made {
        assert e in Contents(v1[level]);
      }
    }
  }

  lemma FlushedOrder(v: seq<seq<File>>, v1: seq<seq<File>>, level: nat, made: set<Entry>)
    requires |v| == |v1| && level < |v| && (forall l :: 0 <= l < |v| && l != level ==> v1[l] == v[l])
    requires Contents(v1[level]) == Contents(v[level]) + made
    requires NewerPerKey(made, All(v)) && forall k :: 0 <= k < level ==> NewerPerKey(Contents(v[k]), made)
    requires forall l, m :: 0 <= l < m < |v| ==> NewerPerKey(Contents(v[l]), Contents(v[m]))
    ensures forall l, m :: 0 <= l < m < |v| ==> NewerPerKey(Contents(v1[l]), Contents(v1[m]))
  {
    hide Contents;
    forall l, m | 0 <= l < m < |v| ensures NewerPerKey(Contents(v1[l]), Contents(v1[m])) {
      assert NewerPerKey(Contents(v[l]), Contents(v[m]));
      assert Contents(v[m]) <= All(v);
    }
  }

  lemma FlushedContents(old0: seq<File>, new0: seq<File>, f: File)
    requires FileSet(new0) == FileSet(old0) + {f}
    ensures Contents(new0) == Contents(old0) + Elements(f.entries)
    ensures forall g :: g in new0 <==> g in old0 || g == f
  {
    InFileSet(new0);
    assert f in FileSet(new0);
  }

  lemma ApartWhenNoOverlap(files: seq<File>, f: File)
    requires AllWellFormed(files) && WellFormed(f) && NoOverlap(files, f.smallest.user, f.largest.user)
    ensures NewerPerKey(Contents(files), Elements(f.entries))
  {
    forall e, d | e in Contents(files) && d in f.entries ensures e.key.user != d.key.user {
      var g :| g in files && e in g.entries;
      var i :| 0 <= i < |files| && files[i] == g;
      InRange(g, e);
      InRange(f, d);
    }
  }

  lemma FlushedLevel(old0: seq<File>, new0: seq<File>, level: nat, f: File, all: set<Entry>)
    requires AllWellFormed(old0) && WellFormed(f) && BySmallest(new0)
    requires forall g :: g in new0 <==> g in old0 || g == f
    requires Contents(old0) <= all && NewerPerKey(Elements(f.entries), all)
    requires level > 0 ==> Disjoint(old0) && NoOverlap(old0, f.smallest.user, f.largest.user)
    requires level == 0 ==>
             LevelZeroOrder(old0) && (forall i, j :: 0 <= i < j < |old0| ==> old0[i].number != old0[j].number)
    requires level == 0 ==> forall g :: g in old0 ==> g.number < f.number
    ensures AllWellFormed(new0) && (level > 0 ==> Disjoint(new0))
    ensures level == 0 ==> LevelZeroOrder(new0) && forall i, j :: 0 <= i < j < |new0| ==>
            new0[i].number != new0[j].number
  {
    forall i | 0 <= i < |new0| ensures WellFormed(new0[i]) {
      assert new0[i] in new0;
    }
    if level > 0 {
      forall g, h | g in new0 && h in new0 && g != h
        ensures Before(g.largest, h.smallest) || Before(h.largest, g.smallest) {
        if g in old0 && h in old0 { InOneRun(old0, g, h); }
      }
      SortedPairwiseDisjoint(new0);
    } else {
      forall g, h | g in new0 && h in new0 && g.number > h.number
        ensures NewerPerKey(Elements(g.entries), Elements(h.entries))
      {
        if g == f {
          assert Elements(h.entries) <= Contents(old0);
        }
      }
      forall i, j | 0 <= i < j < |new0| ensures new0[i].number != new0[j].number {
        assert SmallestFirst(new0[i], new0[j]) && new0[i] != new0[j] && new0[i] in new0 && new0[j] in new0;
      }
    }
  }
}
