/** Choosing compaction inputs and the level of a flushed memtable: db/version_set.cc. */
module InputPicking {
  import opened Lsm
  import opened Wrappers
  import opened Files
  import opened Versions

  /** A bound of None is open: before all keys on the left, after all keys on the right. */
  predicate AtOrAbove(p: UserKey, lo: Option<UserKey>) {
    lo.Some? ==> lo.value <= p
  }

  predicate AtOrBelow(p: UserKey, hi: Option<UserKey>) {
    hi.Some? ==> p <= hi.value
  }

  predicate Overlaps(f: File, lo: Option<UserKey>, hi: Option<UserKey>) {
    AtOrAbove(f.largest.user, lo) && AtOrBelow(f.smallest.user, hi)
  }

  predicate Inside(f: File, lo: Option<UserKey>, hi: Option<UserKey>) {
    AtOrAbove(f.smallest.user, lo) && AtOrBelow(f.largest.user, hi)
  }

  /** The files that overlap the range, in order. */
  function Overlapping(files: seq<File>, lo: Option<UserKey>, hi: Option<UserKey>): (r: seq<File>)
    ensures forall f :: f in r <==> f in files && Overlaps(f, lo, hi)
  {
    if files == [] then []
    else
      var init, last := files[..|files| - 1], files[|files| - 1];
      assert files == init + [last];
      if Overlaps(last, lo, hi) then Overlapping(init, lo, hi) + [last] else Overlapping(init, lo, hi)
  }

  /** How many files reach below `lo`, and above `hi`: each restart of the search lowers one of them. */
  ghost function ReachBelow(files: seq<File>, lo: Option<UserKey>): nat {
    if files == [] then 0
    else ReachBelow(files[..|files| - 1], lo) + if AtOrAbove(files[|files| - 1].smallest.user, lo) then 0 else 1
  }

  ghost function ReachAbove(files: seq<File>, hi: Option<UserKey>): nat {
    if files == [] then 0
    else ReachAbove(files[..|files| - 1], hi) + if AtOrBelow(files[|files| - 1].largest.user, hi) then 0 else 1
  }

  lemma {:induction false} ReachBelowDrops(files: seq<File>, lo: UserKey, f: File)
    requires f.smallest.user < lo
    ensures ReachBelow(files, Some(f.smallest.user)) <= ReachBelow(files, Some(lo))
    ensures f in files ==> ReachBelow(files, Some(f.smallest.user)) < ReachBelow(files, Some(lo))
  {
    if files != [] {
      ReachBelowDrops(files[..|files| - 1], lo, f);
      assert f in files ==> f in files[..|files| - 1] || f == files[|files| - 1];
    }
  }

  lemma {:induction false} ReachAboveDrops(files: seq<File>, hi: UserKey, f: File)
    requires f.largest.user > hi
    ensures ReachAbove(files, Some(f.largest.user)) <= ReachAbove(files, Some(hi))
    ensures f in files ==> ReachAbove(files, Some(f.largest.user)) < ReachAbove(files, Some(hi))
  {
    if files != [] {
      ReachAboveDrops(files[..|files| - 1], hi, f);
      assert f in files ==> f in files[..|files| - 1] || f == files[|files| - 1];
    }
  }

  /** `s` contains every file that meets the range or meets a member of `s`. */
  ghost predicate OverlapClosed(files: seq<File>, lo: Option<UserKey>, hi: Option<UserKey>, s: set<File>) {
    (forall f :: f in files && Overlaps(f, lo, hi) ==> f in s) &&
    (forall f, g :: f in files && g in s && Overlaps(f, Some(g.smallest.user), Some(g.largest.user)) ==> f in s)
  }

  /** Every point of the grown range lies in the original range or in a file of `s`. */
  ghost predicate CoveredBy(s: set<File>, lo0: Option<UserKey>, hi0: Option<UserKey>, lo: Option<UserKey>,
                            hi: Option<UserKey>) {
    forall p: UserKey {:trigger AtOrAbove(p, lo)} :: AtOrAbove(p, lo) && AtOrBelow(p, hi) ==>
      (AtOrAbove(p, lo0) && AtOrBelow(p, hi0)) || exists g :: g in s && Covers(g, p)
  }

  lemma CoveredImpliesMember(files: seq<File>, s: set<File>, lo0: Option<UserKey>, hi0: Option<UserKey>,
                             lo: Option<UserKey>, hi: Option<UserKey>, f: File)
    requires OverlapClosed(files, lo0, hi0, s) && CoveredBy(s, lo0, hi0, lo, hi)
    requires lo.Some? && hi.Some? ==> lo.value <= hi.value
    requires f in files && Overlaps(f, lo, hi) && f.smallest.user <= f.largest.user
    ensures f in s
  {
    var p := if lo.Some? && lo.value > f.smallest.user then lo.value else f.smallest.user;
    assert AtOrAbove(p, lo) && AtOrBelow(p, hi);
  }

  /** Every overlap-closed set covers the range reached so far. */
  ghost predicate Minimal(files: seq<File>, lo0: Option<UserKey>, hi0: Option<UserKey>, lo: Option<UserKey>,
                          hi: Option<UserKey>) {
    forall s :: OverlapClosed(files, lo0, hi0, s) ==> CoveredBy(s, lo0, hi0, lo, hi)
  }

  lemma MinimalAtStart(files: seq<File>, lo: Option<UserKey>, hi: Option<UserKey>)
    ensures Minimal(files, lo, hi, lo, hi)
  {
  }

  lemma MinimalAtEnd(files: seq<File>, lo0: Option<UserKey>, hi0: Option<UserKey>, lo: Option<UserKey>,
                     hi: Option<UserKey>)
    requires Minimal(files, lo0, hi0, lo, hi) && AllWellFormed(files)
    requires lo.Some? && hi.Some? ==> lo.value <= hi.value
    ensures forall s, f :: OverlapClosed(files, lo0, hi0, s) && f in Overlapping(files, lo, hi) ==> f in s
  {
    forall s, f | OverlapClosed(files, lo0, hi0, s) && f in Overlapping(files, lo, hi) ensures f in s {
      var i :| 0 <= i < |files| && files[i] == f;
      InRange(f, f.entries[0]);
      CoveredImpliesMember(files, s, lo0, hi0, lo, hi, f);
    }
  }

  /** Widening the range to a file that overlaps it keeps it covered by every overlap-closed set. */
  lemma WideningKeepsCover(files: seq<File>, lo0: Option<UserKey>, hi0: Option<UserKey>, lo: Option<UserKey>,
                           hi: Option<UserKey>, f: File, lo1: Option<UserKey>, hi1: Option<UserKey>)
    requires f in files && WellFormed(f) && Overlaps(f, lo, hi)
    requires lo.Some? && hi.Some? ==> lo.value <= hi.value
    requires (lo1 == Some(f.smallest.user) && hi1 == hi) || (hi1 == Some(f.largest.user) && lo1 == lo)
    requires Minimal(files, lo0, hi0, lo, hi)
    ensures Minimal(files, lo0, hi0, lo1, hi1)
  {
    InRange(f, f.entries[0]);
    forall s | OverlapClosed(files, lo0, hi0, s) ensures CoveredBy(s, lo0, hi0, lo1, hi1) {
      CoveredImpliesMember(files, s, lo0, hi0, lo, hi, f);
      forall p: UserKey | AtOrAbove(p, lo1) && AtOrBelow(p, hi1)
        ensures (AtOrAbove(p, lo0) && AtOrBelow(p, hi0)) || exists g :: g in s && Covers(g, p)
      {
        assert Covers(f, p) || (AtOrAbove(p, lo) && AtOrBelow(p, hi));
      }
    }
  }

  lemma InsideMeansClosed(files: seq<File>, lo0: Option<UserKey>, hi0: Option<UserKey>, lo: Option<UserKey>,
                          hi: Option<UserKey>)
    requires forall f :: Overlaps(f, lo0, hi0) ==> Overlaps(f, lo, hi)
    requires forall f :: f in Overlapping(files, lo, hi) ==> Inside(f, lo, hi)
    ensures OverlapClosed(files, lo0, hi0, set f | f in Overlapping(files, lo, hi))
  {
    forall f, g | f in files && g in Overlapping(files, lo, hi) &&
                  Overlaps(f, Some(g.smallest.user), Some(g.largest.user))
      ensures Overlaps(f, lo, hi)
    {
    }
  }

  lemma NothingOverlaps(files: seq<File>)
    ensures forall lo, hi :: Overlapping(files[..0], lo, hi) == []
  {
  }

  lemma OneMore(files: seq<File>, i: nat, lo: Option<UserKey>, hi: Option<UserKey>)
    requires i < |files|
    ensures Overlapping(files[..i + 1], lo, hi) ==
            Overlapping(files[..i], lo, hi) + if Overlaps(files[i], lo, hi) then [files[i]] else []
  {
    hide Overlaps;
    assert files[..i + 1][..i] == files[..i];
  }

  /** Version::GetOverlappingInputs. Above level 0 it returns the files that overlap the range. At level 0 it
      restarts whenever a file widens the range; it ends with a range no overlapping file sticks out of,
      and its files are in every overlap-closed set: they are the least one. */
  method GetOverlappingInputs(files: seq<File>, levelZero: bool, begin: Option<UserKey>, end: Option<UserKey>)
    returns (inputs: seq<File>, ghost lo: Option<UserKey>, ghost hi: Option<UserKey>)
    requires AllWellFormed(files)
    ensures inputs == Overlapping(files, lo, hi)
    ensures !levelZero ==> lo == begin && hi == end
    ensures levelZero ==> forall f :: f in inputs ==> Inside(f, lo, hi)
    ensures levelZero ==> OverlapClosed(files, begin, end, set f | f in inputs)
    ensures forall f :: Overlaps(f, begin, end) ==> Overlaps(f, lo, hi)
    ensures (begin.Some? && end.Some? ==> begin.value <= end.value) ==>
              forall s, f :: OverlapClosed(files, begin, end, s) && f in inputs ==> f in s
  {
    hide OverlapClosed, CoveredBy, Minimal, ReachBelow, ReachAbove, WellFormed, AllWellFormed, Overlapping;
    inputs := [];
    var userBegin, userEnd := begin, end;
    MinimalAtStart(files, begin, end);
    NothingOverlaps(files);
    var i := 0;
    while i < |files|
      invariant 0 <= i <= |files|
      invariant inputs == Overlapping(files[..i], userBegin, userEnd)
      invariant !levelZero ==> userBegin == begin && userEnd == end
      invariant levelZero ==> forall f :: f in inputs ==> Inside(f, userBegin, userEnd)
      invariant userBegin.Some? == begin.Some? && userEnd.Some? == end.Some?
      invariant userBegin.Some? ==> userBegin.value <= begin.value
      invariant userEnd.Some? ==> userEnd.value >= end.value
      invariant (begin.Some? && end.Some? ==> begin.value <= end.value) ==>
                  Minimal(files, begin, end, userBegin, userEnd)
      decreases ReachBelow(files, userBegin), ReachAbove(files, userEnd), |files| - i
    {
      var f := files[i];
      OneMore(files, i, userBegin, userEnd);
      MemberWellFormed(files, f);
      i := i + 1;
      if userBegin.Some? && f.largest.user < userBegin.value {
        // completely before the range
      } else if userEnd.Some? && f.smallest.user > userEnd.value {
        // completely after the range
      } else {
        inputs := inputs + [f];
        if levelZero {
          if userBegin.Some? && f.smallest.user < userBegin.value {
            ReachBelowDrops(files, userBegin.value, f);
            if begin.Some? && end.Some? ==> begin.value <= end.value {
              WideningKeepsCover(files, begin, end, userBegin, userEnd, f, Some(f.smallest.user), userEnd);
            }
            userBegin := Some(f.smallest.user);
            inputs := [];
            i := 0;
          } else if userEnd.Some? && f.largest.user > userEnd.value {
            ReachAboveDrops(files, userEnd.value, f);
            if begin.Some? && end.Some? ==> begin.value <= end.value {
              WideningKeepsCover(files, begin, end, userBegin, userEnd, f, userBegin, Some(f.largest.user));
            }
            userEnd := Some(f.largest.user);
            inputs := [];
            i := 0;
          }
        }
      }
    }
    lo, hi := userBegin, userEnd;
    assert files[..|files|] == files;
    if levelZero {
      InsideMeansClosed(files, begin, end, lo, hi);
    }
    if begin.Some? && end.Some? ==> begin.value <= end.value {
      MinimalAtEnd(files, begin, end, lo, hi);
    }
  }

  function Smaller(a: Key, b: Key): Key {
    if Before(b, a) then b else a
  }

  function Larger(a: Key, b: Key): Key {
    if Before(a, b) then b else a
  }

  /** The least key range that contains the files. */
  predicate IsRange(fs: seq<File>, smallest: Key, largest: Key) {
    (forall f :: f in fs ==> !Before(f.smallest, smallest) && !Before(largest, f.largest)) &&
    (exists f :: f in fs && f.smallest == smallest) &&
    (exists f :: f in fs && f.largest == largest)
  }

  method GetRange(fs: seq<File>) returns (smallest: Key, largest: Key)
    requires fs != []
    ensures IsRange(fs, smallest, largest)
  {
    smallest, largest := fs[0].smallest, fs[0].largest;
    ghost var a, b := 0, 0;
    for i := 1 to |fs|
      invariant 0 <= a < i && 0 <= b < i && fs[a].smallest == smallest && fs[b].largest == largest
      invariant forall k :: 0 <= k < i ==> !Before(fs[k].smallest, smallest) && !Before(largest, fs[k].largest)
    {
      if Before(fs[i].smallest, smallest) {
        smallest := fs[i].smallest;
        a := i;
      }
      if Before(largest, fs[i].largest) {
        largest := fs[i].largest;
        b := i;
      }
    }
    assert fs[a] in fs && fs[b] in fs;
  }

  lemma {:induction false} WiderOverlapsMore(files: seq<File>, lo: Option<UserKey>, hi: Option<UserKey>,
                                             lo1: Option<UserKey>, hi1: Option<UserKey>)
    requires forall f :: f in files && Overlaps(f, lo, hi) ==> Overlaps(f, lo1, hi1)
    ensures |Overlapping(files, lo, hi)| <= |Overlapping(files, lo1, hi1)|
    ensures |Overlapping(files, lo, hi)| == |Overlapping(files, lo1, hi1)| ==>
              Overlapping(files, lo, hi) == Overlapping(files, lo1, hi1)
  {
    if files != [] {
      WiderOverlapsMore(files[..|files| - 1], lo, hi, lo1, hi1);
      assert files[|files| - 1] in files;
    }
  }

  /** What SetupOtherInputs promises: the level-L+1 inputs are exactly the files that overlap the level-L inputs,
      for the inputs it started from as well as for the ones it ends with. */
  ghost predicate Picked(level: seq<File>, next: seq<File>, in0: seq<File>, in1: seq<File>) {
    in0 != [] && (forall f :: f in in0 ==> f in level) &&
    exists s, l :: IsRange(in0, s, l) && in1 == Overlapping(next, Some(s.user), Some(l.user))
  }

  lemma RangeGrows(sub: seq<File>, sup: seq<File>, s: Key, l: Key, s1: Key, l1: Key)
    requires IsRange(sub, s, l) && IsRange(sup, s1, l1) && forall f :: f in sub ==> f in sup
    ensures s1.user <= s.user && l.user <= l1.user
  {
  }

  /** The step that grows the level-L inputs: the old ones stay, and equally many level-L+1 files are the same files. */
  lemma GrowingIsHarmless(level: seq<File>, next: seq<File>, inputs0: seq<File>, s: Key, l: Key, in1: seq<File>,
                          allStart: Key, allLimit: Key, lo: Option<UserKey>, hi: Option<UserKey>, newStart: Key,
                          newLimit: Key)
    requires AllWellFormed(level) && (forall f :: f in inputs0 ==> f in level)
    requires IsRange(inputs0, s, l) && in1 == Overlapping(next, Some(s.user), Some(l.user))
    requires IsRange(inputs0 + in1, allStart, allLimit)
    requires forall f :: Overlaps(f, Some(allStart.user), Some(allLimit.user)) ==> Overlaps(f, lo, hi)
    requires IsRange(Overlapping(level, lo, hi), newStart, newLimit)
    ensures forall f :: f in inputs0 ==> f in Overlapping(level, lo, hi)
    ensures |Overlapping(next, Some(newStart.user), Some(newLimit.user))| == |in1| ==>
              Overlapping(next, Some(newStart.user), Some(newLimit.user)) == in1
  {
    forall f | f in inputs0 ensures f in Overlapping(level, lo, hi) {
      var i :| 0 <= i < |level| && level[i] == f;
      InRange(f, f.entries[0]);
      assert f in inputs0 + in1;
    }
    RangeGrows(inputs0, Overlapping(level, lo, hi), s, l, newStart, newLimit);
    WiderOverlapsMore(next, Some(s.user), Some(l.user), Some(newStart.user), Some(newLimit.user));
  }

  /** The files of the level after next that overlap all inputs. */
  ghost predicate IsGrandparents(v: seq<seq<File>>, level: nat, inputs: seq<File>, grandparents: seq<File>)
    requires |v| == NUM_LEVELS
  {
    if level + 2 < NUM_LEVELS then
      exists s, l :: IsRange(inputs, s, l) && grandparents == Overlapping(v[level + 2], Some(s.user), Some(l.user))
    else grandparents == []
  }

  /** VersionSet::SetupOtherInputs: collects the next level's inputs, then grows this level's inputs
      as long as that adds nothing to the next level's. */
  method SetupOtherInputs(v: seq<seq<File>>, level: nat, inputs0: seq<File>, expandedLimit: nat)
    returns (in0: seq<File>, in1: seq<File>, grandparents: seq<File>)
    requires |v| == NUM_LEVELS && level + 1 < NUM_LEVELS && forall l :: 0 <= l < |v| ==> AllWellFormed(v[l])
    requires inputs0 != [] && forall f :: f in inputs0 ==> f in v[level]
    requires level == 0 ==> SelfClosed(v[0], inputs0)
    ensures Picked(v[level], v[level + 1], inputs0, in1)
    ensures Picked(v[level], v[level + 1], in0, in1)
    ensures forall f :: f in inputs0 ==> f in in0
    ensures level == 0 ==> SelfClosed(v[0], in0)
    ensures in0 == inputs0 || TotalSize(in0) + TotalSize(in1) < expandedLimit
    ensures in0 == inputs0 || exists lo, hi :: in0 == Overlapping(v[level], lo, hi)
    ensures IsGrandparents(v, level, in0 + in1, grandparents)
  {
    hide Overlaps, Inside, OverlapClosed, IsRange, WellFormed, TotalSize, Before, SelfClosed;
    in0 := inputs0;
    var smallest, largest := GetRange(in0);
    ghost var lo, hi;
    in1, lo, hi := GetOverlappingInputs(v[level + 1], false, Some(smallest.user), Some(largest.user));
    var allStart, allLimit := GetRange(in0 + in1);
    if in1 != [] {
      var expanded0;
      expanded0, lo, hi := GetOverlappingInputs(v[level], level == 0, Some(allStart.user), Some(allLimit.user));
      if |expanded0| > |in0| && TotalSize(in1) + TotalSize(expanded0) < expandedLimit {
        var newStart, newLimit := GetRange(expanded0);
        var expanded1;
        ghost var lo1, hi1;
        expanded1, lo1, hi1 := GetOverlappingInputs(v[level + 1], false, Some(newStart.user), Some(newLimit.user));
        GrowingIsHarmless(v[level], v[level + 1], in0, smallest, largest, in1, allStart, allLimit, lo, hi, newStart,
                          newLimit);
        if |expanded1| == |in1| {
          if level == 0 { InsideMeansSelfClosed(v[0], lo, hi); }
          in0, in1 := expanded0, expanded1;
          allStart, allLimit := GetRange(in0 + in1);
        }
      }
    }
    grandparents := [];
    if level + 2 < NUM_LEVELS {
      grandparents, lo, hi := GetOverlappingInputs(v[level + 2], false, Some(allStart.user), Some(allLimit.user));
    }
  }

  /** No other file of the level touches the range of the chosen ones. */
  ghost predicate SelfClosed(files: seq<File>, chosen: seq<File>) {
    forall s, l, f :: IsRange(chosen, s, l) && f in files && Overlaps(f, Some(s.user), Some(l.user)) ==> f in chosen
  }

  lemma InsideMeansSelfClosed(files: seq<File>, lo: Option<UserKey>, hi: Option<UserKey>)
    requires forall f :: f in Overlapping(files, lo, hi) ==> Inside(f, lo, hi)
    ensures SelfClosed(files, Overlapping(files, lo, hi))
  {
  }

  ghost predicate NoOverlap(files: seq<File>, lo: UserKey, hi: UserKey) {
    forall f :: f in files ==> !Overlaps(f, Some(lo), Some(hi))
  }

  /** SomeFileOverlapsRange: a linear scan, or a binary search when the files are sorted and disjoint. */
  method SomeFileOverlapsRange(disjointSorted: bool, files: seq<File>, lo: Option<UserKey>, hi: Option<UserKey>)
    returns (r: bool)
    requires AllWellFormed(files) && (disjointSorted ==> Disjoint(files))
    requires forall f :: f in files ==> f.largest.sequence <= MAX_SEQUENCE
    ensures r <==> exists f :: f in files && Overlaps(f, lo, hi)
  {
    if !disjointSorted {
      for i := 0 to |files|
        invariant forall k :: 0 <= k < i ==> !Overlaps(files[k], lo, hi)
      {
        if Overlaps(files[i], lo, hi) {
          return true;
        }
      }
      return false;
    }
    var index := 0;
    if lo.Some? {
      index := FindFile(files, Key(lo.value, MAX_SEQUENCE, Put));
    }
    if index >= |files| {
      return false;
    }
    r := AtOrBelow(files[index].smallest.user, hi);
    InRange(files[index], files[index].entries[0]);
    forall k | 0 <= k < |files| ensures Overlaps(files[k], lo, hi) ==> index <= k && r {
      assert files[k] in files;
      if k > index { assert Before(files[index].largest, files[k].smallest); }
    }
    assert files[index] in files && AtOrAbove(files[index].largest.user, lo);
  }

  const MAX_MEM_COMPACT_LEVEL := 2

  /** Version::PickLevelForMemTableOutput: a level such that the key range overlaps nothing there or above,
      or level 0. It stops early only at a level with overlap or too much data in the level after next. */
  method PickLevelForMemTableOutput(v: seq<seq<File>>, smallest: UserKey, largest: UserKey, maxGrandParentOverlap: nat)
    returns (level: nat)
    requires |v| == NUM_LEVELS && (forall l :: 0 <= l < |v| ==> AllWellFormed(v[l]))
    requires forall l :: 1 <= l < |v| ==> Disjoint(v[l])
    requires forall l, f :: 0 <= l < |v| && f in v[l] ==> f.largest.sequence <= MAX_SEQUENCE
    ensures level <= MAX_MEM_COMPACT_LEVEL
    ensures level > 0 ==> forall k :: 0 <= k <= level ==> NoOverlap(v[k], smallest, largest)
    ensures level < MAX_MEM_COMPACT_LEVEL ==>
              !NoOverlap(v[0], smallest, largest) || !NoOverlap(v[level + 1], smallest, largest) ||
              TotalSize(Overlapping(v[level + 2], Some(smallest), Some(largest))) > maxGrandParentOverlap
  {
    level := 0;
    var overlap := SomeFileOverlapsRange(false, v[0], Some(smallest), Some(largest));
    if !overlap {
      while level < MAX_MEM_COMPACT_LEVEL
        invariant level <= MAX_MEM_COMPACT_LEVEL
        invariant forall k :: 0 <= k <= level ==> NoOverlap(v[k], smallest, largest)
      {
        overlap := SomeFileOverlapsRange(true, v[level + 1], Some(smallest), Some(largest));
        if overlap {
          break;
        }
        var overlaps;
        ghost var lo, hi;
        overlaps, lo, hi := GetOverlappingInputs(v[level + 2], false, Some(smallest), Some(largest));
        if TotalSize(overlaps) > maxGrandParentOverlap {
          break;
        }
        level := level + 1;
      }
    }
  }
}
