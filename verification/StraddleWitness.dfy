/** Inputs on which compactions of LevelDB 1.20 go wrong because a user key straddles two files. */
module StraddleWitnesses {
  import opened Lsm
  import opened Wrappers
  import opened Files
  import opened Versions
  import opened InputPicking
  import opened Compactions
  import opened Installs
  import opened StraddlingKeys

  const A := Entry(Key(0.5, 1, Put), "a")
  const B := Entry(Key(1.5, 2, Put), "b")
  const C := Entry(Key(2.0, 1, Put), "c")
  const DELETED := Entry(Key(1.0, 5, Deletion), "")
  const OLD := Entry(Key(1.0, 3, Put), "old")
  const OTHER := Entry(Key(3.0, 4, Put), "other")

  function Named(number: nat, es: seq<Entry>): (f: File)
    requires es != []
    ensures f.entries == es && f.smallest == es[0].key && f.largest == es[|es| - 1].key
  {
    File(number, 1, es[0].key, es[|es| - 1].key, es)
  }

  /** A version with files at levels 1 and 2 only, or at levels 0 and 1. */
  function Levels(at: nat, one: seq<File>, two: seq<File>): (v: seq<seq<File>>)
    requires at <= 1
    ensures |v| == NUM_LEVELS && v[at] == one && v[at + 1] == two
    ensures forall l :: 0 <= l < NUM_LEVELS && l != at && l != at + 1 ==> v[l] == []
  {
    if at == 0 then [one, two, [], [], [], [], []] else [[], one, two, [], [], [], []]
  }

  /** Level 1 holds the deletion in one file and the deleted value in the next. */
  const SPLIT_KEY: seq<seq<File>> :=
    Levels(1, [Named(1, [DELETED]), Named(2, [OLD, OTHER])], [Named(3, [A, B]), Named(4, [C])])

  const AFTER_SPLIT: seq<seq<File>> := Levels(1, [Named(2, [OLD, OTHER])], [Named(5, [A, B]), Named(4, [C])])

  lemma ContentsOfOne(f: File)
    ensures Contents([f]) == Elements(f.entries) && Contents([]) == {}
  {
    assert f in [f];
  }

  lemma ContentsOfTwo(f: File, g: File)
    ensures Contents([f, g]) == Elements(f.entries) + Elements(g.entries)
  {
    assert f in [f, g] && g in [f, g];
  }

  lemma ElementsOfFew(d: Entry, e: Entry)
    ensures Elements([d]) == {d} && Elements([d, e]) == {d, e}
  {
    assert d in [d] && d in [d, e] && e in [d, e];
  }

  lemma TwoFiles(f: File, g: File)
    requires WellFormed(f) && WellFormed(g) && Before(f.largest, g.smallest)
    ensures AllWellFormed([f, g]) && Disjoint([f, g]) && AllWellFormed([f]) && Disjoint([f])
  {
    hide WellFormed, Before;
  }

  lemma AllOfTwo(at: nat, one: seq<File>, two: seq<File>)
    requires at <= 1
    ensures All(Levels(at, one, two)) == Contents(one) + Contents(two)
  {
    hide Contents;
    var v := Levels(at, one, two);
    EmptyContents();
    forall e ensures e in All(v) <==> e in Contents(one) + Contents(two) {
      if e in All(v) {
        var l :| 0 <= l < |v| && e in Contents(v[l]);
        assert l == at || l == at + 1;
      } else {
        assert e !in Contents(v[at]) && e !in Contents(v[at + 1]);
      }
    }
  }

  lemma EmptyContents()
    ensures Contents([]) == {}
  {
  }

  lemma LevelsInShape(at: nat, one: seq<File>, two: seq<File>)
    requires at <= 1 && (at == 0 ==> |one| == 1)
    requires AllWellFormed(one) && AllWellFormed(two) && Disjoint(one) && Disjoint(two)
    requires NewerPerKey(Contents(one), Contents(two))
    ensures Shape(Levels(at, one, two))
  {
    hide Contents, AllWellFormed, Disjoint, Levels;
    var v := Levels(at, one, two);
    EmptyContents();
    NoFilesInShape();
    forall l, m | 0 <= l < m < |v| ensures NewerPerKey(Contents(v[l]), Contents(v[m])) {
      assert (l == at && m == at + 1) || v[l] == [] || v[m] == [];
    }
  }

  lemma NoFilesInShape()
    ensures AllWellFormed([]) && Disjoint([])
  {
  }

  lemma SplitContentsAre()
    ensures SPLIT_KEY == Levels(1, [Named(1, [DELETED]), Named(2, [OLD, OTHER])], [Named(3, [A, B]), Named(4, [C])])
    ensures Contents(SPLIT_KEY[1]) == {DELETED, OLD, OTHER} && Contents(SPLIT_KEY[2]) == {A, B, C}
  {
    hide Contents, Elements;
    ContentsOfTwo(Named(1, [DELETED]), Named(2, [OLD, OTHER]));
    ContentsOfTwo(Named(3, [A, B]), Named(4, [C]));
    ElementsOfFew(DELETED, DELETED);
    ElementsOfFew(OLD, OTHER);
    ElementsOfFew(A, B);
    ElementsOfFew(C, C);
  }

  lemma SplitFiles()
    ensures WellFormed(Named(1, [DELETED])) && WellFormed(Named(2, [OLD, OTHER]))
    ensures WellFormed(Named(3, [A, B])) && WellFormed(Named(4, [C]))
    ensures Before(DELETED.key, OLD.key) && Before(B.key, C.key) && Before(A.key, DELETED.key)
    ensures Before(DELETED.key, B.key)
  {
  }

  lemma SplitEntries()
    ensures Distinct({DELETED, OLD, OTHER} + {A, B, C}) && NewerPerKey({DELETED, OLD, OTHER}, {A, B, C})
  {
  }

  lemma SplitIsInShape()
    ensures Shape(SPLIT_KEY) && Distinct(All(SPLIT_KEY))
  {
    hide *;
    SplitContentsAre();
    SplitEntries();
    SplitFiles();
    TwoFiles(Named(1, [DELETED]), Named(2, [OLD, OTHER]));
    TwoFiles(Named(3, [A, B]), Named(4, [C]));
    var one, two := [Named(1, [DELETED]), Named(2, [OLD, OTHER])], [Named(3, [A, B]), Named(4, [C])];
    LevelsInShape(1, one, two);
    AllOfTwo(1, one, two);
  }

  // --- The compaction of the first file of level 1 with the first of level 2 ---

  const SMALLEST: nat := 9

  lemma SplitIsPicked()
    ensures Picked(SPLIT_KEY[1], SPLIT_KEY[2], [Named(1, [DELETED])], [Named(3, [A, B])])
    ensures |Overlapping(SPLIT_KEY[1], Some(A.key.user), Some(B.key.user))| == 2
    ensures |Overlapping(SPLIT_KEY[2], Some(DELETED.key.user), Some(OTHER.key.user))| == 2
  {
    var g, f, h, k := Named(1, [DELETED]), Named(2, [OLD, OTHER]), Named(3, [A, B]), Named(4, [C]);
    OverlapOfTwo(h, k, Some(DELETED.key.user), Some(DELETED.key.user));
    OverlapOfTwo(g, f, Some(A.key.user), Some(B.key.user));
    OverlapOfTwo(h, k, Some(DELETED.key.user), Some(OTHER.key.user));
    assert IsRange([g], DELETED.key, DELETED.key) by {
      assert g in [g];
    }
  }

  lemma OverlapOfTwo(f: File, g: File, lo: Option<UserKey>, hi: Option<UserKey>)
    ensures Overlapping([f, g], lo, hi) ==
            (if Overlaps(f, lo, hi) then [f] else []) + (if Overlaps(g, lo, hi) then [g] else [])
  {
    hide Overlaps;
    assert [f, g][..1] == [f] && [f][..0] == [];
    assert Overlapping([], lo, hi) == [];
    assert Overlapping([f], lo, hi) == if Overlaps(f, lo, hi) then [f] else [];
  }

  lemma SplitIsKept()
    ensures Sorted([A, DELETED, B]) && Elements([A, DELETED, B]) == {A, DELETED, B}
    ensures Kept([A, DELETED, B], SMALLEST, BaseUsers(SPLIT_KEY, 1), 3) == [A, B]
    ensures Obsolete(DELETED, SMALLEST, BaseUsers(SPLIT_KEY, 1))
    ensures Flatten([Named(5, [A, B])]) == [A, B]
  {
    var es, base := [A, DELETED, B], BaseUsers(SPLIT_KEY, 1);
    assert BaseLevel(SPLIT_KEY, 1, DELETED.key.user);
    assert Kept(es, SMALLEST, base, 0) == [];
    assert Kept(es, SMALLEST, base, 1) == [A];
    assert Kept(es, SMALLEST, base, 2) == [A];
    assert Flatten([]) == [] && [Named(5, [A, B])][..0] == [];
  }

  lemma SplitIsInstalled()
    ensures Installed(SPLIT_KEY, AFTER_SPLIT, 1, [Named(1, [DELETED])], [Named(3, [A, B])], [Named(5, [A, B])])
  {
    var g, f, h, k, o := Named(1, [DELETED]), Named(2, [OLD, OTHER]), Named(3, [A, B]), Named(4, [C]), Named(5, [A, B]);
    FewFiles(g, f);
    FewFiles(h, k);
    FewFiles(o, k);
    FewFiles(f, f);
    hide FileSet;
    assert {g, f} - {g} == {f} && ({h, k} - {h}) + {o} == {o, k};
  }

  lemma FewFiles(f: File, g: File)
    ensures FileSet([f]) == {f} && FileSet([f, g]) == {f, g}
  {
    assert f in [f] && f in [f, g] && g in [f, g];
  }

  lemma SplitIsCompacted()
    ensures Compacted(SPLIT_KEY, 1, [Named(1, [DELETED])], [Named(3, [A, B])], [Named(5, [A, B])])
    ensures Contents([Named(1, [DELETED])] + [Named(3, [A, B])]) == {A, DELETED, B}
  {
    SplitIsPicked();
    hide Picked, Contents;
    var g, h, o := Named(1, [DELETED]), Named(3, [A, B]), Named(5, [A, B]);
    ContentsOfTwo(g, h);
    ContentsOfOne(o);
    ElementsOfFew(DELETED, DELETED);
    ElementsOfFew(A, B);
    assert [g] + [h] == [g, h];
    assert WellFormed(o);
  }

  lemma SplitBringsBack()
    ensures BringsBack(SPLIT_KEY, 1, [Named(1, [DELETED])], [Named(3, [A, B])], SMALLEST, DELETED,
                       Named(2, [OLD, OTHER]))
  {
    hide Contents, Obsolete, Elements, Compacted, All, Newest;
    SplitIsCompacted();
    SplitIsKept();
    SplitContentsAre();
    SplitNewest();
    AllOfTwo(1, [Named(1, [DELETED]), Named(2, [OLD, OTHER])], [Named(3, [A, B]), Named(4, [C])]);
  }

  lemma SplitNewest()
    ensures Newest({DELETED, OLD, OTHER} + {A, B, C}, DELETED.key.user, SMALLEST, DELETED)
  {
  }

  /** Compactions that leave the rest of a user key behind can bring a deleted value back: a version in shape, inputs
      that the source picks and does not expand, and a read that found nothing and then finds the old value. */
  lemma DeletedValueComesBack()
    ensures var in0, in1, outputs := [Named(1, [DELETED])], [Named(3, [A, B])], [Named(5, [A, B])];
      && Ran(SPLIT_KEY, AFTER_SPLIT, 1, in0, in1, outputs, [A, DELETED, B], SMALLEST)
      && |Overlapping(SPLIT_KEY[1], Some(A.key.user), Some(B.key.user))| > |in0|
      && |Overlapping(SPLIT_KEY[2], Some(DELETED.key.user), Some(OTHER.key.user))| != |in1|
    ensures Lookup(All(SPLIT_KEY), DELETED.key.user, SMALLEST) == None
    ensures Lookup(All(AFTER_SPLIT), DELETED.key.user, SMALLEST) == Some("old")
  {
    SplitIsInShape();
    SplitIsPicked();
    SplitIsCompacted();
    SplitIsInstalled();
    SplitIsKept();
    SplitBringsBack();
    hide Shape, Distinct, All, Compacted, Installed, Sorted, Kept, Flatten, Contents, BringsBack, Picked, Lookup,
         Overlapping;
    BroughtBackIsRead(SPLIT_KEY, AFTER_SPLIT, 1, [Named(1, [DELETED])], [Named(3, [A, B])], [Named(5, [A, B])],
                      [A, DELETED, B], SMALLEST, DELETED, Named(2, [OLD, OTHER]));
  }

  // --- Moving one of two files that share a user key ---

  const NEWER := Entry(Key(1.0, 5, Put), "new")

  const SHARED_KEY: seq<seq<File>> := Levels(1, [Named(1, [NEWER]), Named(2, [OLD])], [])

  const AFTER_MOVE: seq<seq<File>> := Levels(1, [Named(2, [OLD])], [Named(1, [NEWER])])

  /** A trivial move of a file whose last user key goes on in the next file puts the newer entry below the older. */
  lemma MoveCanBreakShape()
    ensures var in0 := [Named(1, [NEWER])];
      && Setting(SHARED_KEY, 1, in0, []) && Compacted(SHARED_KEY, 1, in0, [], in0)
      && Installed(SHARED_KEY, AFTER_MOVE, 1, in0, [], in0)
    ensures Shape(SHARED_KEY) && !Shape(AFTER_MOVE)
  {
    var g, f := Named(1, [NEWER]), Named(2, [OLD]);
    SharedInShape();
    SharedMoves();
    assert Straddles(SHARED_KEY[1], [g], g, f);
    hide Shape, Compacted, Installed, Distinct, All, Straddles;
    MoveKeepsShapeIff(SHARED_KEY, AFTER_MOVE, 1, [g]);
  }

  lemma SharedFiles()
    ensures SHARED_KEY == Levels(1, [Named(1, [NEWER]), Named(2, [OLD])], [])
    ensures WellFormed(Named(1, [NEWER])) && WellFormed(Named(2, [OLD])) && Before(NEWER.key, OLD.key)
    ensures Distinct({NEWER} + {OLD} + {}) && NewerPerKey({NEWER} + {OLD}, {})
  {
  }

  lemma SharedInShape()
    ensures Shape(SHARED_KEY) && Distinct(All(SHARED_KEY)) && Contents([Named(1, [NEWER])]) == {NEWER}
  {
    hide *;
    SharedFiles();
    var g, f := Named(1, [NEWER]), Named(2, [OLD]);
    TwoFiles(g, f);
    ContentsOfTwo(g, f);
    ContentsOfOne(g);
    ElementsOfFew(NEWER, NEWER);
    ElementsOfFew(OLD, OLD);
    NoFilesInShape();
    LevelsInShape(1, [g, f], []);
    AllOfTwo(1, [g, f], []);
  }

  lemma SharedMoves()
    ensures var in0 := [Named(1, [NEWER])];
      && Picked(SHARED_KEY[1], [], in0, []) && Compacted(SHARED_KEY, 1, in0, [], in0)
      && Installed(SHARED_KEY, AFTER_MOVE, 1, in0, [], in0)
  {
    var g, f := Named(1, [NEWER]), Named(2, [OLD]);
    FewFiles(g, f);
    FewFiles(f, f);
    assert FileSet([]) == {};
    assert IsRange([g], NEWER.key, NEWER.key) by {
      assert g in [g];
    }
    assert [g] + [] == [g];
    assert {g, f} - {g} == {f};
    assert WellFormed(g);
  }

  // --- A compaction of level 0 that straddles at level 1 ---

  const NEWEST := Entry(Key(0.5, 9, Put), "newest")

  const SPLIT_BELOW: seq<seq<File>> :=
    Levels(0, [Named(6, [NEWEST])], [Named(1, [A, DELETED]), Named(2, [OLD, OTHER])])

  const AFTER_SPLIT_BELOW: seq<seq<File>> := Levels(0, [], [Named(7, [NEWEST]), Named(2, [OLD, OTHER])])

  /** Level 0 is no exception: the files it meets at level 1 can end in a deletion whose key goes on in the next. */
  lemma LevelZeroCanBringBack()
    ensures var in0, in1, outputs := [Named(6, [NEWEST])], [Named(1, [A, DELETED])], [Named(7, [NEWEST])];
      && Ran(SPLIT_BELOW, AFTER_SPLIT_BELOW, 0, in0, in1, outputs, [NEWEST, A, DELETED], SMALLEST)
      && SPLIT_BELOW[0] == in0
    ensures Lookup(All(SPLIT_BELOW), DELETED.key.user, SMALLEST) == None
    ensures Lookup(All(AFTER_SPLIT_BELOW), DELETED.key.user, SMALLEST) == Some("old")
  {
    BelowInShape();
    BelowPicked();
    BelowCompacted();
    BelowInstalled();
    BelowKept();
    BelowBringsBack();
    hide Shape, Distinct, All, Compacted, Installed, Sorted, Kept, Flatten, Contents, BringsBack, Picked, Lookup,
         Overlapping, SelfClosed;
    BroughtBackIsRead(SPLIT_BELOW, AFTER_SPLIT_BELOW, 0, [Named(6, [NEWEST])], [Named(1, [A, DELETED])],
                      [Named(7, [NEWEST])], [NEWEST, A, DELETED], SMALLEST, DELETED, Named(2, [OLD, OTHER]));
  }

  lemma BelowFiles()
    ensures SPLIT_BELOW == Levels(0, [Named(6, [NEWEST])], [Named(1, [A, DELETED]), Named(2, [OLD, OTHER])])
    ensures WellFormed(Named(1, [A, DELETED])) && WellFormed(Named(2, [OLD, OTHER])) && WellFormed(Named(6, [NEWEST]))
    ensures Before(DELETED.key, OLD.key)
    ensures Distinct({NEWEST} + {A, DELETED, OLD, OTHER}) && NewerPerKey({NEWEST}, {A, DELETED, OLD, OTHER})
  {
  }

  lemma BelowContents()
    ensures Contents([Named(6, [NEWEST])]) == {NEWEST}
    ensures Contents([Named(1, [A, DELETED]), Named(2, [OLD, OTHER])]) == {A, DELETED, OLD, OTHER}
  {
    hide Contents, Elements;
    ContentsOfOne(Named(6, [NEWEST]));
    ContentsOfTwo(Named(1, [A, DELETED]), Named(2, [OLD, OTHER]));
    ElementsOfFew(NEWEST, NEWEST);
    ElementsOfFew(A, DELETED);
    ElementsOfFew(OLD, OTHER);
  }

  lemma BelowInShape()
    ensures Shape(SPLIT_BELOW) && Distinct(All(SPLIT_BELOW))
  {
    hide *;
    BelowFiles();
    BelowContents();
    TwoFiles(Named(1, [A, DELETED]), Named(2, [OLD, OTHER]));
    OneFile(Named(6, [NEWEST]));
    var one, two := [Named(6, [NEWEST])], [Named(1, [A, DELETED]), Named(2, [OLD, OTHER])];
    LevelsInShape(0, one, two);
    AllOfTwo(0, one, two);
  }

  lemma OneFile(f: File)
    requires WellFormed(f)
    ensures AllWellFormed([f]) && Disjoint([f])
  {
  }

  lemma BelowPicked()
    ensures Picked(SPLIT_BELOW[0], SPLIT_BELOW[1], [Named(6, [NEWEST])], [Named(1, [A, DELETED])])
    ensures SelfClosed(SPLIT_BELOW[0], [Named(6, [NEWEST])])
  {
    var g, h, k := Named(6, [NEWEST]), Named(1, [A, DELETED]), Named(2, [OLD, OTHER]);
    OverlapOfTwo(h, k, Some(NEWEST.key.user), Some(NEWEST.key.user));
    assert IsRange([g], NEWEST.key, NEWEST.key) by {
      assert g in [g];
    }
  }

  lemma BelowCompacted()
    ensures Compacted(SPLIT_BELOW, 0, [Named(6, [NEWEST])], [Named(1, [A, DELETED])], [Named(7, [NEWEST])])
    ensures Contents([Named(6, [NEWEST])] + [Named(1, [A, DELETED])]) == {NEWEST, A, DELETED}
  {
    BelowPicked();
    hide Picked, Contents;
    var g, h, o := Named(6, [NEWEST]), Named(1, [A, DELETED]), Named(7, [NEWEST]);
    ContentsOfTwo(g, h);
    ContentsOfOne(o);
    ElementsOfFew(NEWEST, NEWEST);
    ElementsOfFew(A, DELETED);
    assert [g] + [h] == [g, h];
    assert WellFormed(o);
  }

  lemma BelowInstalled()
    ensures Installed(SPLIT_BELOW, AFTER_SPLIT_BELOW, 0, [Named(6, [NEWEST])], [Named(1, [A, DELETED])],
                      [Named(7, [NEWEST])])
  {
    var g, h, k, o := Named(6, [NEWEST]), Named(1, [A, DELETED]), Named(2, [OLD, OTHER]), Named(7, [NEWEST]);
    FewFiles(g, g);
    FewFiles(h, k);
    FewFiles(o, k);
    assert FileSet([]) == {};
    hide FileSet;
    assert {g} - {g} == {} && ({h, k} - {h}) + {o} == {o, k};
  }

  lemma BelowKept()
    ensures Sorted([NEWEST, A, DELETED]) && Elements([NEWEST, A, DELETED]) == {NEWEST, A, DELETED}
    ensures Kept([NEWEST, A, DELETED], SMALLEST, BaseUsers(SPLIT_BELOW, 0), 3) == [NEWEST]
    ensures Obsolete(DELETED, SMALLEST, BaseUsers(SPLIT_BELOW, 0))
    ensures Flatten([Named(7, [NEWEST])]) == [NEWEST]
  {
    var es, base := [NEWEST, A, DELETED], BaseUsers(SPLIT_BELOW, 0);
    assert BaseLevel(SPLIT_BELOW, 0, DELETED.key.user);
    assert Kept(es, SMALLEST, base, 0) == [];
    assert Kept(es, SMALLEST, base, 1) == [NEWEST];
    assert Hidden(es, SMALLEST, 1);
    assert Kept(es, SMALLEST, base, 2) == [NEWEST];
    assert Flatten([]) == [] && [Named(7, [NEWEST])][..0] == [];
  }

  lemma BelowBringsBack()
    ensures BringsBack(SPLIT_BELOW, 0, [Named(6, [NEWEST])], [Named(1, [A, DELETED])], SMALLEST, DELETED,
                       Named(2, [OLD, OTHER]))
  {
    BelowCompacted();
    BelowKept();
    BelowContents();
    hide Contents, Obsolete, Elements, Compacted;
    AllOfTwo(0, [Named(6, [NEWEST])], [Named(1, [A, DELETED]), Named(2, [OLD, OTHER])]);
    hide All;
    assert Newest(All(SPLIT_BELOW), DELETED.key.user, SMALLEST, DELETED);
  }
}
