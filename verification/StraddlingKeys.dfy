/** User keys that straddle two files: exactly when a compaction of db/version_set.cc and db/db_impl.cc goes wrong,
    said of the version, the picked inputs and the smallest snapshot before it runs. */
module StraddlingKeys {
  import opened Lsm
  import opened Wrappers
  import opened Files
  import opened Versions
  import opened InputPicking
  import opened Compactions
  import opened Installs

  /** File `f`, left behind, goes on with the user key that the picked file `g` of the same level ends with. */
  ghost predicate Straddles(files: seq<File>, picked: seq<File>, g: File, f: File) {
    && g in picked && f in files && f !in picked
    && f.smallest.user == g.largest.user && Before(g.largest, f.smallest)
  }

  /** The newest entry of its user key among the inputs. */
  ghost predicate NewestInput(inputs: set<Entry>, m: Entry) {
    m in inputs && forall e :: e in inputs && e.key.user == m.key.user ==> e.key.sequence <= m.key.sequence
  }

  /** The newest input entry of the key is an obsolete deletion, so that no entry of the key is kept. */
  ghost predicate KeyIsDropped(inputs: set<Entry>, snap: nat, base: iset<UserKey>, user: UserKey) {
    exists m :: NewestInput(inputs, m) && m.key.user == user && Obsolete(m, snap, base)
  }

  /** The files of the two levels that are not picked. */
  ghost predicate LeftOut(v: seq<seq<File>>, level: nat, in0: seq<File>, in1: seq<File>, f: File)
    requires level + 1 < |v|
  {
    (f in v[level] && f !in in0) || (f in v[level + 1] && f !in in1)
  }

  ghost predicate GoesOn(m: Entry, f: File) {
    f.smallest.user == m.key.user && Before(m.key, f.smallest)
  }

  /** Dropping the obsolete deletion `m` brings a value back: `m` is what a read at the smallest snapshot finds, and the
      first left-out file that goes on with its key begins with a put. */
  ghost predicate BringsBack(v: seq<seq<File>>, level: nat, in0: seq<File>, in1: seq<File>, snap: nat, m: Entry,
                             f: File)
    requires |v| == NUM_LEVELS && level + 1 < NUM_LEVELS
  {
    && m in Contents(in0 + in1) && Obsolete(m, snap, BaseUsers(v, level)) && Newest(All(v), m.key.user, snap, m)
    && LeftOut(v, level, in0, in1, f) && GoesOn(m, f) && f.entries != [] && f.entries[0].key.kind.Put?
    && forall h :: LeftOut(v, level, in0, in1, h) && GoesOn(m, h) ==> !Before(h.smallest, f.smallest)
  }

  // --- One sorted level ---

  /** In a sorted level an older entry of the same user key in another file lies in a file that begins with the key. */
  lemma OlderInOtherFile(files: seq<File>, f: File, g: File, e: Entry, d: Entry)
    requires AllWellFormed(files) && Disjoint(files) && f in files && g in files && f != g
    requires e in f.entries && d in g.entries && e.key.user == d.key.user
    requires e.key.sequence <= d.key.sequence && (e.key.sequence == d.key.sequence ==> e == d)
    ensures Before(g.largest, f.smallest) && f.smallest.user == g.largest.user == d.key.user
    ensures Before(d.key, f.smallest)
  {
    var i :| 0 <= i < |files| && files[i] == f;
    var j :| 0 <= j < |files| && files[j] == g;
    InRange(f, e);
    InRange(g, d);
    InOneRun(files, f, g);
  }

  lemma FirstOfFile(f: File)
    requires WellFormed(f)
    ensures f.entries[0] in f.entries && f.entries[0].key == f.smallest
    ensures f.entries[|f.entries| - 1] in f.entries && f.entries[|f.entries| - 1].key == f.largest
  {
  }

  // --- Where an older entry can have been left ---

  ghost predicate Setting(v: seq<seq<File>>, level: nat, in0: seq<File>, in1: seq<File>)
    ensures Setting(v, level, in0, in1) ==> |v| == NUM_LEVELS
  {
    && Shape(v) && Distinct(All(v)) && level + 1 < NUM_LEVELS && Picked(v[level], v[level + 1], in0, in1)
    && (level == 0 ==> SelfClosed(v[0], in0))
  }

  lemma Members(v: seq<seq<File>>, level: nat, in0: seq<File>, in1: seq<File>)
    requires |v| == NUM_LEVELS && level + 1 < NUM_LEVELS && Picked(v[level], v[level + 1], in0, in1)
    ensures forall f :: f in in0 ==> f in v[level]
    ensures forall f :: f in in1 ==> f in v[level + 1]
  {
    hide IsRange;
  }

  lemma InAll(v: seq<seq<File>>, l: nat, f: File, e: Entry)
    requires l < |v| && f in v[l] && e in f.entries
    ensures e in Contents(v[l]) && e in All(v)
  {
  }

  /** A file of the next level that covers the key of an input of the upper level is picked. */
  lemma CoversIsPicked(level: seq<File>, next: seq<File>, in0: seq<File>, in1: seq<File>, g: File, d: Entry, f: File)
    requires Picked(level, next, in0, in1) && g in in0 && WellFormed(g) && d in g.entries
    requires f in next && Covers(f, d.key.user)
    ensures f in in1
  {
    hide Sorted;
    InRange(g, d);
  }

  /** An entry outside that is no newer than an input of its key lies in a left-out file that begins with the key. */
  lemma WhereOlder(v: seq<seq<File>>, level: nat, in0: seq<File>, in1: seq<File>, g: File, d: Entry, l: nat, f: File,
                   e: Entry)
    requires Setting(v, level, in0, in1) && (g in in0 || g in in1) && d in g.entries
    requires l < NUM_LEVELS && f in v[l] && e in f.entries && e.key.user == d.key.user
    requires e.key.sequence <= d.key.sequence
    requires (l == level ==> f !in in0) && (l == level + 1 ==> f !in in1)
    requires l <= level + 1
    ensures LeftOut(v, level, in0, in1, f) && GoesOn(d, f)
    ensures if l == level then Straddles(v[level], in0, g, f) else l == level + 1 && Straddles(v[level + 1], in1, g, f)
  {
    hide Sorted, Before, Picked, Distinct, All, LevelZeroOrder, SelfClosed, WellFormed, NewerPerKey, Disjoint;
    Members(v, level, in0, in1);
    var k := if g in in0 then level else level + 1;
    InAll(v, k, g, d);
    InAll(v, l, f, e);
    SameSequence(All(v), e, d);
    NotAcross(v, k, l, d, e);
    if k < l {
      InRange(f, e);
      CoversIsPicked(v[level], v[level + 1], in0, in1, g, d, f);
    } else if k == 0 {
      ApartAtLevelZero(v[0], in0, f, g, e, d);
    } else {
      OlderInOtherFile(v[l], f, g, e, d);
    }
  }

  lemma SameSequence(s: set<Entry>, e: Entry, d: Entry)
    requires Distinct(s) && e in s && d in s && e.key.user == d.key.user
    ensures e.key.sequence == d.key.sequence ==> e == d
  {
  }

  lemma NotAcross(v: seq<seq<File>>, k: nat, l: nat, d: Entry, e: Entry)
    requires Shape(v) && k < NUM_LEVELS && l < NUM_LEVELS && d in Contents(v[k]) && e in Contents(v[l])
    requires d.key.user == e.key.user
    ensures k < l ==> d.key.sequence > e.key.sequence
    ensures l < k ==> e.key.sequence > d.key.sequence
  {
    hide Contents, AllWellFormed, Disjoint, LevelZeroOrder;
    if k < l {
      assert NewerPerKey(Contents(v[k]), Contents(v[l]));
    } else if l < k {
      assert NewerPerKey(Contents(v[l]), Contents(v[k]));
    }
  }

  // --- The shape of the new version ---

  /** A file left behind is in the new version, and what it begins with is there. */
  lemma LeftBehindStays(v: seq<seq<File>>, v1: seq<seq<File>>, level: nat, in0: seq<File>, in1: seq<File>,
                        outputs: seq<File>, f: File)
    requires Installed(v, v1, level, in0, in1, outputs) && f in v[level] && f !in in0 && WellFormed(f)
    ensures f.entries[0] in Contents(v1[level]) && f.entries[0].key == f.smallest
  {
    hide WellFormed, BySmallest;
    InFileSet(v1[level]);
    FirstOfFile(f);
  }

  lemma FoundLeftBehind(v: seq<seq<File>>, v1: seq<seq<File>>, level: nat, in0: seq<File>, in1: seq<File>,
                        outputs: seq<File>, e: Entry) returns (f: File)
    requires Installed(v, v1, level, in0, in1, outputs) && e in Contents(v1[level])
    ensures f in v[level] && f !in in0 && e in f.entries
  {
    hide BySmallest;
    InFileSet(v1[level]);
    f := InContents(v1[level], e);
  }

  /** Two files with a common user key: the second one's first entry of it is no newer than the first one's last. */
  lemma StraddleIsOlder(files: seq<File>, picked: seq<File>, g: File, f: File)
    requires Straddles(files, picked, g, f) && WellFormed(f) && WellFormed(g)
    ensures f.entries[0] in f.entries && g.entries[|g.entries| - 1] in g.entries
    ensures f.entries[0].key.user == g.entries[|g.entries| - 1].key.user == f.smallest.user
    ensures f.entries[0].key.sequence <= g.entries[|g.entries| - 1].key.sequence
  {
    hide Sorted;
    FirstOfFile(f);
    FirstOfFile(g);
  }

  /** Moving files one level down keeps the shape exactly when none of them shares its last user key with a file
      left behind. */
  lemma MoveKeepsShapeIff(v: seq<seq<File>>, v1: seq<seq<File>>, level: nat, in0: seq<File>)
    requires Setting(v, level, in0, []) && Compacted(v, level, in0, [], in0) && Installed(v, v1, level, in0, [], in0)
    ensures Shape(v1) <==> forall f, g :: !Straddles(v[level], in0, g, f)
  {
    hide Sorted, Before, IsRange, BySmallest, LevelZeroOrder, Contents, Picked, Shape, Distinct, All, WellFormed,
         SelfClosed;
    InstallKeepsShapeIff(v, v1, level, in0, [], in0);
    Members(v, level, in0, []);
    if Shape(v1) {
      forall f, g ensures !Straddles(v[level], in0, g, f) {
        if Straddles(v[level], in0, g, f) {
          WellFormedAt(v, level, f);
          WellFormedAt(v, level, g);
          StraddleIsOlder(v[level], in0, g, f);
          LeftBehindStays(v, v1, level, in0, [], in0, f);
          HoldsEntry(in0, g, g.entries[|g.entries| - 1]);
        }
      }
    } else {
      var e, d :| e in Contents(v1[level]) && d in Contents(in0) && e.key.user == d.key.user
                  && e.key.sequence <= d.key.sequence;
      var f := FoundLeftBehind(v, v1, level, in0, [], in0, e);
      var g := InContents(in0, d);
      WhereOlder(v, level, in0, [], g, d, level, f, e);
    }
  }

  lemma WellFormedAt(v: seq<seq<File>>, l: nat, f: File)
    requires Shape(v) && l < NUM_LEVELS && f in v[l]
    ensures WellFormed(f)
  {
    hide WellFormed, Disjoint, LevelZeroOrder, NewerPerKey, Contents;
    MemberWellFormed(v[l], f);
  }

  lemma HoldsEntry(files: seq<File>, f: File, e: Entry)
    requires f in files && e in f.entries
    ensures e in Contents(files)
  {
  }

  // --- What the compaction keeps of a key ---

  lemma {:induction false} FirstOfKey(es: seq<Entry>, user: UserKey) returns (i: nat)
    requires exists e :: e in es && e.key.user == user
    ensures i < |es| && es[i].key.user == user && forall j :: 0 <= j < i ==> es[j].key.user != user
  {
    if es[0].key.user == user {
      i := 0;
    } else {
      var e :| e in es && e.key.user == user;
      assert e in es[1..];
      i := FirstOfKey(es[1..], user);
      i := i + 1;
    }
  }

  /** Nothing of a key is kept exactly when its newest input entry is an obsolete deletion. */
  lemma KeptOfKeyIff(es: seq<Entry>, snap: nat, base: iset<UserKey>, user: UserKey)
    requires Sorted(es) && Distinct(Elements(es)) && exists e :: e in es && e.key.user == user
    ensures KeyIsDropped(Elements(es), snap, base, user) <==>
            forall d :: d in Kept(es, snap, base, |es|) ==> d.key.user != user
    ensures !KeyIsDropped(Elements(es), snap, base, user) ==>
            exists m :: NewestInput(Elements(es), m) && m.key.user == user && m in Kept(es, snap, base, |es|)
  {
    hide Kept, Hidden, Obsolete, Distinct, Sorted;
    var i := FirstOfKey(es, user);
    var m := es[i];
    FirstOfKeyIsNewest(es, i);
    if Obsolete(m, snap, base) {
      DroppedKeepsNone(es, snap, base, i);
    } else {
      UndroppedIsKept(es, snap, base, i);
      forall n | NewestInput(Elements(es), n) && n.key.user == user ensures n == m {
        SameNewest(es, n, m);
      }
    }
  }

  lemma UndroppedIsKept(es: seq<Entry>, snap: nat, base: iset<UserKey>, i: nat)
    requires Sorted(es) && i < |es| && forall j :: 0 <= j < i ==> es[j].key.user != es[i].key.user
    requires !Obsolete(es[i], snap, base)
    ensures es[i] in Kept(es, snap, base, |es|)
  {
    hide Kept, Sorted, Before;
    KeptMembers(es, snap, base, |es|, es[i]);
  }

  lemma FirstOfKeyIsNewest(es: seq<Entry>, i: nat)
    requires Sorted(es) && i < |es| && forall j :: 0 <= j < i ==> es[j].key.user != es[i].key.user
    ensures NewestInput(Elements(es), es[i])
  {
    forall e | e in es && e.key.user == es[i].key.user ensures e.key.sequence <= es[i].key.sequence {
      var j :| 0 <= j < |es| && es[j] == e;
    }
  }

  lemma SameNewest(es: seq<Entry>, n: Entry, m: Entry)
    requires Distinct(Elements(es)) && NewestInput(Elements(es), n) && NewestInput(Elements(es), m)
    requires n.key.user == m.key.user
    ensures n == m
  {
  }

  lemma DroppedKeepsNone(es: seq<Entry>, snap: nat, base: iset<UserKey>, i: nat)
    requires i < |es| && forall j :: 0 <= j < i ==> es[j].key.user != es[i].key.user
    requires Sorted(es) && Obsolete(es[i], snap, base)
    ensures forall d :: d in Kept(es, snap, base, |es|) ==> d.key.user != es[i].key.user
  {
    hide Kept, Sorted, Before;
    forall d | d in Kept(es, snap, base, |es|) ensures d.key.user != es[i].key.user {
      KeptMembers(es, snap, base, |es|, d);
      var j :| 0 <= j < |es| && es[j] == d && !Hidden(es, snap, j) && !Obsolete(d, snap, base);
      assert d.key.user == es[i].key.user ==> i < j;
    }
  }

  /** A finished compaction: picked, run with the smallest snapshot, and installed. */
  ghost predicate Ran(v: seq<seq<File>>, v1: seq<seq<File>>, level: nat, in0: seq<File>, in1: seq<File>,
                      outputs: seq<File>, es: seq<Entry>, snap: nat) {
    && Setting(v, level, in0, in1)
    && Compacted(v, level, in0, in1, outputs) && Installed(v, v1, level, in0, in1, outputs)
    && Sorted(es) && Elements(es) == Contents(in0 + in1)
    && Flatten(outputs) == Kept(es, snap, BaseUsers(v, level), |es|)
  }

  lemma InputsDistinct(v: seq<seq<File>>, level: nat, in0: seq<File>, in1: seq<File>)
    requires Setting(v, level, in0, in1)
    ensures Contents(in0 + in1) <= All(v) && Distinct(Contents(in0 + in1))
  {
    hide Sorted, WellFormed, IsRange, SelfClosed, LevelZeroOrder, Disjoint;
    Members(v, level, in0, in1);
    forall e | e in Contents(in0 + in1) ensures e in All(v) {
      var f := InContents(in0 + in1, e);
      InAll(v, if f in in0 then level else level + 1, f, e);
    }
  }

  /** In terms of what is picked: the new version is in shape exactly when the compaction keeps nothing of any user key
      that an input file of the level ends with and a file left behind goes on with. */
  lemma CompactionKeepsShapeIff(v: seq<seq<File>>, v1: seq<seq<File>>, level: nat, in0: seq<File>, in1: seq<File>,
                                outputs: seq<File>, es: seq<Entry>, snap: nat)
    requires Ran(v, v1, level, in0, in1, outputs, es, snap)
    ensures Shape(v1) <==>
            forall f, g :: Straddles(v[level], in0, g, f) ==>
              KeyIsDropped(Contents(in0 + in1), snap, BaseUsers(v, level), f.smallest.user)
  {
    hide Sorted, Before, IsRange, BySmallest, LevelZeroOrder, Contents, Picked, Shape, Distinct, All, WellFormed,
         SelfClosed, Kept, Flatten, BaseLevel, Obsolete, KeyIsDropped;
    InstallKeepsShapeIff(v, v1, level, in0, in1, outputs);
    InputsDistinct(v, level, in0, in1);
    SameElements(outputs, Kept(es, snap, BaseUsers(v, level), |es|));
    if Shape(v1) {
      forall f, g | Straddles(v[level], in0, g, f)
        ensures KeyIsDropped(Contents(in0 + in1), snap, BaseUsers(v, level), f.smallest.user)
      {
        StraddleDropped(v, v1, level, in0, in1, outputs, es, snap, f, g);
      }
    } else {
      var e, d :| e in Contents(v1[level]) && d in Contents(outputs) && e.key.user == d.key.user
                  && e.key.sequence <= d.key.sequence;
      var f := FoundLeftBehind(v, v1, level, in0, in1, outputs, e);
      var g := InContents(in0 + in1, d);
      WhereOlder(v, level, in0, in1, g, d, level, f, e);
      assert d in Elements(es);
      KeptOfKeyIff(es, snap, BaseUsers(v, level), d.key.user);
    }
  }

  lemma StraddleDropped(v: seq<seq<File>>, v1: seq<seq<File>>, level: nat, in0: seq<File>, in1: seq<File>,
                        outputs: seq<File>, es: seq<Entry>, snap: nat, f: File, g: File)
    requires Ran(v, v1, level, in0, in1, outputs, es, snap) && Straddles(v[level], in0, g, f)
    requires NewerPerKey(Contents(v1[level]), Contents(outputs)) && Distinct(Contents(in0 + in1))
    requires Contents(outputs) == Elements(Kept(es, snap, BaseUsers(v, level), |es|))
    ensures KeyIsDropped(Contents(in0 + in1), snap, BaseUsers(v, level), f.smallest.user)
  {
    hide Sorted, Before, IsRange, BySmallest, LevelZeroOrder, Contents, Picked, Shape, Distinct, All, WellFormed,
         SelfClosed, Kept, Flatten, BaseLevel, Obsolete, KeyIsDropped;
    Members(v, level, in0, in1);
    WellFormedAt(v, level, f);
    WellFormedAt(v, level, g);
    StraddleIsOlder(v[level], in0, g, f);
    LeftBehindStays(v, v1, level, in0, in1, outputs, f);
    HoldsEntry(in0 + in1, g, g.entries[|g.entries| - 1]);
    assert g.entries[|g.entries| - 1] in Elements(es);
    KeptOfKeyIff(es, snap, BaseUsers(v, level), f.smallest.user);
  }

  // --- Reads ---

  lemma Outside(v: seq<seq<File>>, v1: seq<seq<File>>, level: nat, in0: seq<File>, in1: seq<File>, outputs: seq<File>,
                e: Entry) returns (l: nat, f: File)
    requires Installed(v, v1, level, in0, in1, outputs)
    requires e in Upper(v, v1, level, in1) + Lower(v, level)
    ensures l < NUM_LEVELS && f in v[l] && e in f.entries
    ensures (l == level ==> f !in in0) && (l == level + 1 ==> f !in in1) && (l >= level + 2 ==> e in Lower(v, level))
  {
    hide BySmallest;
    if e in Contents(v1[level]) {
      l := level;
      f := FoundLeftBehind(v, v1, level, in0, in1, outputs, e);
    } else if e in Lower(v, level) {
      l :| level + 2 <= l < NUM_LEVELS && e in Contents(v[l]);
      f := InContents(v[l], e);
    } else if k :| 0 <= k < level && e in Contents(v[k]) {
      l := k;
      f := InContents(v[k], e);
    } else {
      l := level + 1;
      f :| f in v[level + 1] && f !in in1 && e in f.entries;
    }
  }

  lemma LeftOutIsOutside(v: seq<seq<File>>, v1: seq<seq<File>>, level: nat, in0: seq<File>, in1: seq<File>,
                         outputs: seq<File>, f: File, e: Entry)
    requires Installed(v, v1, level, in0, in1, outputs) && LeftOut(v, level, in0, in1, f) && e in f.entries
    ensures e in Upper(v, v1, level, in1) + Lower(v, level)
  {
    hide BySmallest;
    InFileSet(v1[level]);
    if f in v[level] && f !in in0 {
      HoldsEntry(v1[level], f, e);
    }
  }

  /** No input entry lies outside. */
  lemma InputsAreDisjoint(v: seq<seq<File>>, v1: seq<seq<File>>, level: nat, in0: seq<File>, in1: seq<File>,
                          outputs: seq<File>)
    requires Setting(v, level, in0, in1) && Installed(v, v1, level, in0, in1, outputs)
    ensures Contents(in0 + in1) !! Upper(v, v1, level, in1) + Lower(v, level)
  {
    hide Sorted, Before, IsRange, BySmallest, LevelZeroOrder, Contents, Picked, Shape, Distinct, All, WellFormed,
         SelfClosed, Upper, Lower, BaseLevel;
    forall d | d in Contents(in0 + in1) ensures d !in Upper(v, v1, level, in1) + Lower(v, level) {
      if d in Upper(v, v1, level, in1) + Lower(v, level) {
        var g := InContents(in0 + in1, d);
        var l, f := Outside(v, v1, level, in0, in1, outputs, d);
        OneHome(v, level, in0, in1, g, d, l, f);
      }
    }
  }

  lemma OneHome(v: seq<seq<File>>, level: nat, in0: seq<File>, in1: seq<File>, g: File, d: Entry, l: nat, f: File)
    requires Setting(v, level, in0, in1) && (g in in0 || g in in1) && d in g.entries
    requires l < NUM_LEVELS && f in v[l] && d in f.entries
    ensures (l == level && f in in0) || (l == level + 1 && f in in1)
  {
    hide Sorted, Before, IsRange, LevelZeroOrder, Contents, Picked, Shape, Distinct, All, WellFormed, SelfClosed,
         BaseLevel;
    Members(v, level, in0, in1);
    var k := if g in in0 then level else level + 1;
    HoldsEntry(v[k], g, d);
    HoldsEntry(v[l], f, d);
    NotAcross(v, k, l, d, d);
    if l == k && (l == level ==> f !in in0) && (l == level + 1 ==> f !in in1) {
      WhereOlder(v, level, in0, in1, g, d, l, f, d);
      WellFormedAt(v, l, f);
      NotBeforeFirst(f, d);
    }
  }

  lemma NotBeforeFirst(f: File, e: Entry)
    requires WellFormed(f) && e in f.entries
    ensures !GoesOn(e, f)
  {
    hide Sorted;
    InRange(f, e);
  }

  ghost function Rest(v: seq<seq<File>>, v1: seq<seq<File>>, level: nat, in1: seq<File>): set<Entry>
    requires |v| == |v1| == NUM_LEVELS && level + 1 < NUM_LEVELS
  {
    Upper(v, v1, level, in1) + Lower(v, level)
  }

  /** The newest entry outside below an obsolete deletion begins a left-out file that goes on with the key. */
  lemma NewestOutside(v: seq<seq<File>>, v1: seq<seq<File>>, level: nat, in0: seq<File>, in1: seq<File>,
                      outputs: seq<File>, snap: nat, m: Entry, n: Entry) returns (f: File)
    requires Setting(v, level, in0, in1) && Installed(v, v1, level, in0, in1, outputs)
    requires m in Contents(in0 + in1) && Obsolete(m, snap, BaseUsers(v, level))
    requires Newest(Rest(v, v1, level, in1), m.key.user, m.key.sequence, n)
    ensures LeftOut(v, level, in0, in1, f) && GoesOn(m, f) && WellFormed(f) && f.entries[0] == n
  {
    hide Sorted, Before, IsRange, BySmallest, LevelZeroOrder, Contents, Picked, Shape, Distinct, All, SelfClosed,
         Upper, Lower, BaseLevel, WellFormed;
    var g := InContents(in0 + in1, m);
    var l;
    l, f := Outside(v, v1, level, in0, in1, outputs, n);
    if l >= level + 2 {
      LevelsWellFormed(v);
      LowerIsNotBase(v, level, n);
    } else {
      WhereOlder(v, level, in0, in1, g, m, l, f, n);
      WellFormedAt(v, l, f);
      FirstOfFile(f);
      LeftOutIsOutside(v, v1, level, in0, in1, outputs, f, f.entries[0]);
      InAll(v, l, f, n);
      InAll(v, l, f, f.entries[0]);
      FirstIsNewest(All(v), m, f, n);
    }
  }

  lemma LevelsWellFormed(v: seq<seq<File>>)
    requires Shape(v)
    ensures |v| == NUM_LEVELS && forall l :: 0 <= l < |v| ==> AllWellFormed(v[l])
  {
  }

  lemma FirstIsNewest(s: set<Entry>, m: Entry, f: File, n: Entry)
    requires WellFormed(f) && GoesOn(m, f) && n in f.entries && n.key.user == m.key.user && Distinct(s)
    requires n in s && f.entries[0] in s
    requires f.entries[0].key.sequence <= m.key.sequence ==> f.entries[0].key.sequence <= n.key.sequence
    ensures f.entries[0] == n
  {
    hide Sorted;
    FirstOfFile(f);
    InRange(f, n);
  }

  /** Which of two left-out files goes on first is which begins with the newer entry. */
  lemma FirstFile(s: set<Entry>, m: Entry, f: File, h: File)
    requires WellFormed(f) && WellFormed(h) && GoesOn(m, f) && GoesOn(m, h) && Distinct(s)
    requires f.entries[0] in s && h.entries[0] in s
    ensures !Before(h.smallest, f.smallest) <==> h.entries[0].key.sequence <= f.entries[0].key.sequence
    ensures f.entries[0].key.sequence == h.entries[0].key.sequence ==> f.entries[0] == h.entries[0]
  {
    hide Sorted;
    FirstOfFile(f);
    FirstOfFile(h);
  }

  lemma LeftOutParts(v: seq<seq<File>>, level: nat, in0: seq<File>, in1: seq<File>, f: File)
    requires Shape(v) && level + 1 < NUM_LEVELS && LeftOut(v, level, in0, in1, f)
    ensures WellFormed(f) && f.entries != [] && f.entries[0] in f.entries && f.entries[0] in All(v)
    ensures f.entries[0].key == f.smallest
  {
    hide Sorted, Contents, Disjoint, LevelZeroOrder;
    var l := if f in v[level] && f !in in0 then level else level + 1;
    WellFormedAt(v, l, f);
    FirstOfFile(f);
    InAll(v, l, f, f.entries[0]);
  }

  /** An uncovered deletion points to the file that brings the value back. */
  lemma UncoveredBringsBack(v: seq<seq<File>>, v1: seq<seq<File>>, level: nat, in0: seq<File>, in1: seq<File>,
                            outputs: seq<File>, snap: nat, m: Entry) returns (f: File)
    requires Setting(v, level, in0, in1) && Installed(v, v1, level, in0, in1, outputs)
    requires m in Contents(in0 + in1) && Obsolete(m, snap, BaseUsers(v, level)) && Newest(All(v), m.key.user, snap, m)
    requires Lookup(Rest(v, v1, level, in1), m.key.user, m.key.sequence) != None
    ensures BringsBack(v, level, in0, in1, snap, m, f)
  {
    hide Sorted, Before, IsRange, BySmallest, LevelZeroOrder, Contents, Picked, Shape, Distinct, All, SelfClosed, Rest,
         BaseLevel, WellFormed, Obsolete;
    var out, k := Rest(v, v1, level, in1), m.key.user;
    var n :| Newest(out, k, m.key.sequence, n) && Lookup(out, k, m.key.sequence) == Visible(n);
    assert Visible(n).Some?;
    f := NewestOutside(v, v1, level, in0, in1, outputs, snap, m, n);
    LeftOutParts(v, level, in0, in1, f);
    forall h | LeftOut(v, level, in0, in1, h) && GoesOn(m, h) ensures !Before(h.smallest, f.smallest) {
      LeftOutParts(v, level, in0, in1, h);
      LeftOutIsCandidate(v, v1, level, in0, in1, outputs, m, h);
      FirstFile(All(v), m, f, h);
      assert h.entries[0].key.sequence <= n.key.sequence;
    }
  }

  lemma LeftOutIsCandidate(v: seq<seq<File>>, v1: seq<seq<File>>, level: nat, in0: seq<File>, in1: seq<File>,
                           outputs: seq<File>, m: Entry, f: File)
    requires Installed(v, v1, level, in0, in1, outputs) && LeftOut(v, level, in0, in1, f) && GoesOn(m, f)
    requires WellFormed(f)
    ensures Candidate(Rest(v, v1, level, in1), m.key.user, m.key.sequence, f.entries[0])
  {
    hide BySmallest, Sorted, Upper, Lower;
    FirstOfFile(f);
    LeftOutIsOutside(v, v1, level, in0, in1, outputs, f, f.entries[0]);
  }

  lemma BroughtBackIsSeen(v: seq<seq<File>>, v1: seq<seq<File>>, level: nat, in0: seq<File>, in1: seq<File>,
                          outputs: seq<File>, snap: nat, m: Entry, f: File)
    requires Setting(v, level, in0, in1) && Installed(v, v1, level, in0, in1, outputs)
    requires BringsBack(v, level, in0, in1, snap, m, f) && Rest(v, v1, level, in1) <= All(v)
    ensures Lookup(Rest(v, v1, level, in1), m.key.user, m.key.sequence) == Some(f.entries[0].value)
  {
    hide Sorted, Before, IsRange, BySmallest, LevelZeroOrder, Contents, Picked, Shape, All, SelfClosed, Rest,
         BaseLevel, WellFormed, Obsolete;
    var out, k := Rest(v, v1, level, in1), m.key.user;
    LeftOutParts(v, level, in0, in1, f);
    LeftOutIsCandidate(v, v1, level, in0, in1, outputs, m, f);
    NewestExists(out, k, m.key.sequence, f.entries[0]);
    var n :| Newest(out, k, m.key.sequence, n);
    var h := NewestOutside(v, v1, level, in0, in1, outputs, snap, m, n);
    LeftOutParts(v, level, in0, in1, h);
    FirstFile(All(v), m, f, h);
    LookupNewest(out, k, m.key.sequence, n);
  }

  /** In terms of what is picked: reads at the live snapshots change exactly when the compaction drops a deletion that
      a read finds, and the first file outside that goes on with its key, at either level, begins with a put. */
  lemma CompactionKeepsReadsIffNoneBroughtBack(v: seq<seq<File>>, v1: seq<seq<File>>, level: nat, in0: seq<File>,
                                               in1: seq<File>, outputs: seq<File>, es: seq<Entry>, snap: nat)
    requires Ran(v, v1, level, in0, in1, outputs, es, snap)
    ensures SameReads(All(v), All(v1), snap) <==> forall m, f :: !BringsBack(v, level, in0, in1, snap, m, f)
  {
    hide Sorted, Before, IsRange, BySmallest, LevelZeroOrder, Contents, Picked, Shape, Distinct, All, SelfClosed,
         Upper, Lower, BaseLevel, WellFormed, Obsolete, Kept, Flatten, Lookup, SameReads;
    var base, out := BaseUsers(v, level), Rest(v, v1, level, in1);
    SplitContents(v, v1, level, in0, in1, outputs);
    InputsAreDisjoint(v, v1, level, in0, in1, outputs);
    SameElements(outputs, Kept(es, snap, base, |es|));
    CompactionKeepsReadsIff(es, snap, base, out);
    if !UncoversNothing(es, snap, base, out) {
      var m :| m in es && Obsolete(m, snap, base) && Newest(Elements(es) + out, m.key.user, snap, m)
               && Lookup(out, m.key.user, m.key.sequence) != None;
      assert m in Elements(es);
      var f := UncoveredBringsBack(v, v1, level, in0, in1, outputs, snap, m);
    } else if m, f :| BringsBack(v, level, in0, in1, snap, m, f) {
      assert m in Elements(es);
      BroughtBackIsSeen(v, v1, level, in0, in1, outputs, snap, m, f);
    }
  }

  /** Neither happens: what has to hold of the version, the picked inputs and the smallest snapshot. */
  ghost predicate GoesWell(v: seq<seq<File>>, level: nat, in0: seq<File>, in1: seq<File>, snap: nat)
    requires |v| == NUM_LEVELS && level + 1 < NUM_LEVELS
  {
    && (forall m, f :: !BringsBack(v, level, in0, in1, snap, m, f))
    && (forall f, g :: Straddles(v[level], in0, g, f) ==>
          KeyIsDropped(Contents(in0 + in1), snap, BaseUsers(v, level), f.smallest.user))
  }

  /** A compaction keeps shape and reads exactly when neither happens. */
  lemma CompactionIsSafeIff(v: seq<seq<File>>, v1: seq<seq<File>>, level: nat, in0: seq<File>, in1: seq<File>,
                            outputs: seq<File>, es: seq<Entry>, snap: nat)
    requires Ran(v, v1, level, in0, in1, outputs, es, snap)
    ensures Shape(v1) && SameReads(All(v), All(v1), snap) <==> GoesWell(v, level, in0, in1, snap)
  {
    hide Ran, BringsBack, Straddles, KeyIsDropped, SameReads, Shape, All;
    CompactionKeepsShapeIff(v, v1, level, in0, in1, outputs, es, snap);
    CompactionKeepsReadsIffNoneBroughtBack(v, v1, level, in0, in1, outputs, es, snap);
  }

  /** Nothing straddles either level: no file left behind goes on with the user key that a picked file ends with. */
  ghost predicate NothingStraddles(v: seq<seq<File>>, level: nat, in0: seq<File>, in1: seq<File>)
    requires level + 1 < |v|
  {
    forall f, g :: !Straddles(v[level], in0, g, f) && !Straddles(v[level + 1], in1, g, f)
  }

  /** A check on the files alone that rules out both. */
  lemma SafeWhenNothingStraddles(v: seq<seq<File>>, v1: seq<seq<File>>, level: nat, in0: seq<File>, in1: seq<File>,
                                 outputs: seq<File>, es: seq<Entry>, snap: nat)
    requires Ran(v, v1, level, in0, in1, outputs, es, snap) && NothingStraddles(v, level, in0, in1)
    ensures GoesWell(v, level, in0, in1, snap) && Shape(v1) && SameReads(All(v), All(v1), snap)
  {
    hide Sorted, IsRange, BySmallest, LevelZeroOrder, Contents, Picked, Shape, Distinct, All, SelfClosed, Upper, Lower,
         WellFormed, Kept, Flatten, Lookup, SameReads, KeyIsDropped, Before;
    forall m, f ensures !BringsBack(v, level, in0, in1, snap, m, f) {
      if BringsBack(v, level, in0, in1, snap, m, f) {
        var g := InContents(in0 + in1, m);
        LeftOutParts(v, level, in0, in1, f);
        var l := if f in v[level] && f !in in0 then level else level + 1;
        OlderByKey(m, f);
        assert !Straddles(v[level], in0, g, f) && !Straddles(v[level + 1], in1, g, f);
        WhereOlder(v, level, in0, in1, g, m, l, f, f.entries[0]);
        assert false;
      }
    }
    CompactionIsSafeIff(v, v1, level, in0, in1, outputs, es, snap);
  }

  /** No key of level 0 straddles, as its inputs are closed under overlap: the version stays in shape, and only a key
      that goes on from one file of level 1 to the next can change a read. */
  lemma LevelZeroKeepsShape(v: seq<seq<File>>, v1: seq<seq<File>>, in0: seq<File>, in1: seq<File>, outputs: seq<File>,
                            es: seq<Entry>, snap: nat)
    requires Ran(v, v1, 0, in0, in1, outputs, es, snap)
    ensures forall f, g :: !Straddles(v[0], in0, g, f)
    ensures Shape(v1)
  {
    hide Sorted, BySmallest, LevelZeroOrder, Contents, Picked, Shape, Distinct, All, WellFormed, Kept, Flatten,
         KeyIsDropped, Before, SelfClosed;
    Members(v, 0, in0, in1);
    forall f, g ensures !Straddles(v[0], in0, g, f) {
      if Straddles(v[0], in0, g, f) {
        WellFormedAt(v, 0, f);
        WellFormedAt(v, 0, g);
        ClosedHoldsIt(v[0], in0, g, f);
        assert false;
      }
    }
    CompactionKeepsShapeIff(v, v1, 0, in0, in1, outputs, es, snap);
  }

  lemma ClosedHoldsIt(files: seq<File>, in0: seq<File>, g: File, f: File)
    requires SelfClosed(files, in0) && g in in0 && f in files && WellFormed(g) && WellFormed(f)
    requires f.smallest.user == g.largest.user
    ensures f in in0
  {
    hide WellFormed, SelfClosed;
    var s, l := RangeOf(in0);
    EndsInOrder(f);
    EndsInOrder(g);
    ClosedMeans(files, in0, s, l, f);
  }

  lemma CompactionAddsNothing(v: seq<seq<File>>, v1: seq<seq<File>>, level: nat, in0: seq<File>, in1: seq<File>,
                              outputs: seq<File>)
    requires Compacted(v, level, in0, in1, outputs) && Installed(v, v1, level, in0, in1, outputs)
    ensures All(v1) <= All(v)
  {
    hide Upper, Lower, All, Contents, Picked, AllWellFormed, Disjoint, BySmallest;
    SplitContents(v, v1, level, in0, in1, outputs);
  }

  lemma OlderByKey(m: Entry, f: File)
    requires WellFormed(f) && GoesOn(m, f)
    ensures f.entries[0].key.user == m.key.user && f.entries[0].key.sequence <= m.key.sequence
  {
    FirstOfFile(f);
  }

  /** What is brought back is what a read finds then, where it found nothing before. */
  lemma BroughtBackIsRead(v: seq<seq<File>>, v1: seq<seq<File>>, level: nat, in0: seq<File>, in1: seq<File>,
                          outputs: seq<File>, es: seq<Entry>, snap: nat, m: Entry, f: File)
    requires Ran(v, v1, level, in0, in1, outputs, es, snap) && BringsBack(v, level, in0, in1, snap, m, f)
    ensures Lookup(All(v), m.key.user, snap) == None
    ensures Lookup(All(v1), m.key.user, snap) == Some(f.entries[0].value)
  {
    hide Sorted, Before, IsRange, BySmallest, LevelZeroOrder, Contents, Picked, Shape, Distinct, All, SelfClosed,
         Upper, Lower, BaseLevel, WellFormed, Kept, Flatten, Lookup;
    var base, out := BaseUsers(v, level), Rest(v, v1, level, in1);
    SplitContents(v, v1, level, in0, in1, outputs);
    InputsAreDisjoint(v, v1, level, in0, in1, outputs);
    SameElements(outputs, Kept(es, snap, base, |es|));
    assert m in Elements(es);
    LookupNewest(All(v), m.key.user, snap, m);
    ReadWithoutMarker(es, snap, base, out, snap, m);
    BroughtBackIsSeen(v, v1, level, in0, in1, outputs, snap, m, f);
  }
}
