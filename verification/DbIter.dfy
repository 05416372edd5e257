/** db/db_iter.cc: the user-visible iterator. It walks the internal entries in both directions and shows,
    for each user key, the newest entry at or below the snapshot unless that is a deletion. */
module DbIters {
  import opened Lsm
  import opened Wrappers
  import opened MergingIterators

  /** Entry `i` is not hidden from the snapshot by its sequence number. */
  predicate Seen(es: seq<Entry>, snap: nat, i: nat)
    requires i < |es|
  {
    es[i].key.sequence <= snap
  }

  /** Entry `i` is what a read of its user key at the snapshot returns. */
  ghost predicate Live(es: seq<Entry>, snap: nat, i: nat)
    requires i < |es|
  {
    Seen(es, snap, i) && es[i].key.kind.Put? &&
    forall j :: 0 <= j < i && es[j].key.user == es[i].key.user ==> !Seen(es, snap, j)
  }

  lemma LiveIsLookup(es: seq<Entry>, snap: nat, i: nat)
    requires Sorted(es) && Distinct(Elements(es)) && i < |es| && Live(es, snap, i)
    ensures Lookup(Elements(es), es[i].key.user, snap) == Some(es[i].value)
  {
    assert Newest(Elements(es), es[i].key.user, snap, es[i]) by {
      forall f | Candidate(Elements(es), es[i].key.user, snap, f) ensures f.key.sequence <= es[i].key.sequence {
        var j :| 0 <= j < |es| && es[j] == f;
        assert j >= i;
      }
    }
    LookupNewest(Elements(es), es[i].key.user, snap, es[i]);
  }

  lemma LookupIsLive(es: seq<Entry>, snap: nat, user: UserKey)
    requires Sorted(es) && Distinct(Elements(es)) && Lookup(Elements(es), user, snap).Some?
    ensures exists i :: 0 <= i < |es| && es[i].key.user == user && Live(es, snap, i)
  {
    var e :| Newest(Elements(es), user, snap, e);
    LookupNewest(Elements(es), user, snap, e);
    var i :| 0 <= i < |es| && es[i] == e;
    forall j | 0 <= j < i && es[j].key.user == user ensures !Seen(es, snap, j) {
      assert Before(es[j].key, es[i].key);
      assert es[j] in Elements(es);
      assert Candidate(Elements(es), user, snap, es[j]) <==> Seen(es, snap, j);
    }
  }

  /** What the iterator shows: a live user key with its value, or the end. */
  datatype Position = End | On(key: UserKey, value: Value)

  /** `p` is where a cursor over the sorted map of live user keys lands when it looks for the first key in [low, ..),
      or in (low, ..) when `strict`. */
  ghost predicate LandsFrom(s: set<Entry>, snap: nat, low: UserKey, strict: bool, p: Position) {
    (p.On? ==> low <= p.key && !(strict && p.key == low) && Lookup(s, p.key, snap) == Some(p.value)) &&
    forall u :: low <= u && !(strict && u == low) && (p.On? ==> u < p.key) ==> Lookup(s, u, snap) == None
  }

  /** `p` is the last live key below `high`. */
  ghost predicate LandsBelow(s: set<Entry>, snap: nat, high: UserKey, p: Position) {
    (p.On? ==> p.key < high && Lookup(s, p.key, snap) == Some(p.value)) &&
    forall u :: u < high && (p.On? ==> p.key < u) ==> Lookup(s, u, snap) == None
  }

  ghost predicate LandsFirst(s: set<Entry>, snap: nat, p: Position) {
    (p.On? ==> Lookup(s, p.key, snap) == Some(p.value)) &&
    forall u :: (p.On? ==> u < p.key) ==> Lookup(s, u, snap) == None
  }

  ghost predicate LandsLast(s: set<Entry>, snap: nat, p: Position) {
    (p.On? ==> Lookup(s, p.key, snap) == Some(p.value)) &&
    forall u :: (p.On? ==> p.key < u) ==> Lookup(s, u, snap) == None
  }

  datatype Command = First | Last | SeekTo(target: UserKey) | StepNext | StepPrev

  /** The plain cursor over the live keys: where `c` takes it from `from`. Callers may not step off the end. */
  ghost predicate Follows(s: set<Entry>, snap: nat, from: Position, c: Command, to: Position) {
    match c
    case First => LandsFirst(s, snap, to)
    case Last => LandsLast(s, snap, to)
    case SeekTo(target) => LandsFrom(s, snap, target, false, to)
    case StepNext => if from.On? then LandsFrom(s, snap, from.key, true, to) else to == End
    case StepPrev => if from.On? then LandsBelow(s, snap, from.key, to) else to == End
  }

  /** The plain cursor is deterministic, so the iterator has no freedom left. */
  lemma FollowsUnique(s: set<Entry>, snap: nat, from: Position, c: Command, p: Position, q: Position)
    requires Follows(s, snap, from, c, p) && Follows(s, snap, from, c, q)
    ensures p == q
  {
    assert p.On? ==> p == from || Lookup(s, p.key, snap) == Some(p.value);
    assert q.On? ==> q == from || Lookup(s, q.key, snap) == Some(q.value);
  }

  /** What a scan that stopped at entry `at`, or found nothing, shows. */
  ghost function PositionAt(es: seq<Entry>, valid: bool, at: nat): Position
    requires valid ==> at < |es|
  {
    if valid then On(es[at].key.user, es[at].value) else End
  }

  class DbIter {
    const iter: MergingIterator
    const snapshot: nat        // sequence_
    var savedKey: UserKey      // == current key when moving backward
    var savedValue: Value
    var forward: bool
    var valid: bool
    ghost var at: nat          // index of the entry shown, while valid

    ghost function Entries(): seq<Entry> {
      iter.merged
    }

    ghost function Content(): set<Entry> {
      Elements(iter.merged)
    }

    /** Index of the internal iterator, -1 when it ran off either end. */
    ghost function Inner(): int
      reads iter
    {
      if iter.pos == |iter.merged| then -1 else iter.pos
    }

    ghost predicate Wired()
      reads this, iter, iter.children
    {
      iter.Ok() && Distinct(Content())
    }

    ghost predicate Ok()
      reads this, iter, iter.children
    {
      Wired() &&
      (valid ==>
         at < |Entries()| && Live(Entries(), snapshot, at) &&
         if forward then
           iter.pos == at
         else
           savedKey == Entries()[at].key.user && savedValue == Entries()[at].value &&
           // Everything between the internal iterator and the entry shown is newer than the snapshot.
           Inner() < at &&
           (forall j :: Inner() < j < at ==> !Seen(Entries(), snapshot, j)) &&
           (Inner() >= 0 ==> Entries()[Inner()].key.user < savedKey))
    }

    ghost function Current(): Position
      requires valid ==> at < |Entries()|
      reads this
    {
      PositionAt(Entries(), valid, at)
    }

    function Key(): (key: UserKey)
      requires Ok() && valid
      reads this, iter, iter.children
      ensures Current() == On(key, Current().value)
    {
      if forward then iter.Top().key.user else savedKey
    }

    function Value(): (value: Value)
      requires Ok() && valid
      reads this, iter, iter.children
      ensures Current() == On(Current().key, value)
    {
      if forward then iter.Top().value else savedValue
    }

    constructor (iter: MergingIterator, snapshot: nat)
      requires iter.Ok() && Distinct(Elements(iter.merged))
      ensures Ok() && !valid && this.iter == iter && this.snapshot == snapshot
    {
      this.iter, this.snapshot := iter, snapshot;
      savedKey, savedValue, forward, valid := EMPTY_KEY, "", true, false;
      at := 0;
    }

    /** Scan forward to the first live entry whose user key is not skipped. */
    method FindNextUserEntry(skipping0: bool)
      requires Wired() && iter.Valid() && forward
      requires PassedOver(Entries(), snapshot, iter.pos, skipping0, savedKey)
      modifies this, iter, iter.children
      ensures Ok() && forward
      ensures valid ==> old(iter.pos) <= at && (skipping0 ==> old(savedKey) < Entries()[at].key.user)
      ensures OnlySkipped(Entries(), snapshot, old(iter.pos), if valid then at else |Entries()|,
                          skipping0, old(savedKey))
    {
      hide MergingIterator.Ok, ScanningOn, PassedOver, OnlySkipped, Live, Sorted;
      var skipping := skipping0;
      ghost var es, start, skip0 := Entries(), iter.pos, savedKey;
      ScanStart(es, snapshot, start, skipping, savedKey);
      while true
        invariant Wired() && iter.Valid() && start <= iter.pos && forward
        invariant ScanningOn(es, snapshot, start, iter.pos, skipping, savedKey, skipping0, skip0)
        decreases |es| - iter.pos
      {
        var e := iter.Top();
        ghost var i, was, wasSkipping := iter.pos, savedKey, skipping;
        if e.key.sequence <= snapshot {
          match e.key.kind
          case Deletion =>
            savedKey := e.key.user;
            skipping := true;
          case Put =>
            if skipping && e.key.user <= savedKey {
              // Entry hidden
            } else {
              ScanFound(es, snapshot, start, iter.pos, skipping, savedKey, skipping0, skip0);
              valid := true;
              at := iter.pos;
              savedKey := EMPTY_KEY;
              return;
            }
        }
        ScanStep(es, snapshot, start, i, skipping, savedKey, wasSkipping, was, skipping0, skip0);
        iter.Next();
        if !iter.Valid() { break; }
      }
      ScanEnd(es, snapshot, start, iter.pos, skipping, savedKey, skipping0, skip0);
      savedKey := EMPTY_KEY;
      valid := false;
    }

    /** Scan backward to the last live entry at or before the internal iterator. */
    method FindPrevUserEntry()
      requires Wired() && !forward
      modifies this, iter, iter.children
      ensures Ok()
      ensures valid ==> !forward && at <= old(Inner()) && Live(Entries(), snapshot, at)
      ensures NoneLive(Entries(), snapshot, if valid then at + 1 else 0, old(Inner()) + 1)
    {
      hide MergingIterator.Ok, ScanningBack, NoneLive, Live, Sorted, Distinct, Elements;
      ghost var es, last := Entries(), Inner();
      ghost var p: nat := last + 1;
      var kind := Deletion;
      ScanBackStart(es, snapshot, last, savedKey, savedValue);
      if iter.Valid() {
        while true
          invariant Wired() && iter.Valid() && !forward
          invariant ScanningBack(es, snapshot, last, Inner(), p, kind, savedKey, savedValue)
          invariant iter.pos <= last
          decreases iter.pos
        {
          var e := iter.Top();
          ghost var q, p0, kind0, key0, value0 := iter.pos, p, kind, savedKey, savedValue;
          if e.key.sequence <= snapshot {
            if kind != Deletion && e.key.user < savedKey {
              // The entry shown was found among later keys
              break;
            }
            kind := e.key.kind;
            p := q;
            if kind == Deletion {
              savedKey := EMPTY_KEY;
              savedValue := "";
            } else {
              savedKey := e.key.user;
              savedValue := e.value;
            }
          }
          ScanBackStep(es, snapshot, last, q, p0, kind0, key0, value0, p, kind, savedKey, savedValue);
          iter.Prev();
          if !iter.Valid() { break; }
        }
      }
      ScanBackFound(es, snapshot, last, Inner(), p, kind, savedKey, savedValue);
      if kind == Deletion {
        valid := false;
        savedKey := EMPTY_KEY;
        savedValue := "";
        forward := true;
      } else {
        valid := true;
        at := p;
      }
    }

    /** The direction switch in Next: back among the entries of the current key. */
    method FaceForward()
      requires Ok() && valid
      modifies this, iter, iter.children
      ensures Wired() && iter.Valid() && forward && savedKey == old(Key())
      ensures PassedOver(Entries(), snapshot, iter.pos, true, savedKey)
      ensures forall j :: 0 <= j < iter.pos && Seen(Entries(), snapshot, j) ==> Entries()[j].key.user <= savedKey
    {
      hide MergingIterator.Ok, PassedOver, Live, Sorted, Distinct;
      ghost var was := at;
      if !forward {
        forward := true;
        if !iter.Valid() {
          iter.SeekToFirst();
        } else {
          iter.Next();
        }
        if !iter.Valid() {
          // Not reached: the entry shown lies ahead of the internal iterator.
          assert false;
        }
      } else {
        savedKey := iter.Top().key.user;
      }
      FacesForward(Entries(), snapshot, iter.pos, was);
    }

    method Next()
      requires Ok() && valid
      modifies this, iter, iter.children
      ensures Ok()
      ensures LandsFrom(Content(), snapshot, old(Key()), true, Current())
    {
      hide MergingIterator.Ok, PassedOver, OnlySkipped, LandsFrom, Sorted, Distinct;
      ghost var low := Key();
      FaceForward();
      ghost var start := iter.pos;
      FindNextUserEntry(true);
      FromScan(Entries(), snapshot, start, low, true, valid, at);
    }

    /** The direction switch in Prev: step back to the last entry with a smaller user key. */
    method LeaveCurrentKey() returns (found: bool)
      requires Ok() && valid && forward
      modifies this, iter, iter.children
      ensures Wired() && forward && found == iter.Valid() && Inner() < old(at)
      ensures forall j :: Inner() < j < old(at) ==> Entries()[j].key.user == old(Key())
      ensures found ==> Entries()[Inner()].key.user < old(Key())
    {
      hide MergingIterator.Ok;
      savedKey := iter.Top().key.user;
      while true
        invariant Wired() && iter.Valid() && savedKey == old(Key()) && forward && iter.pos <= old(at)
        invariant forall j :: iter.pos <= j < old(at) ==> Entries()[j].key.user == savedKey
        decreases iter.pos
      {
        iter.Prev();
        if !iter.Valid() {
          return false;
        }
        if iter.Top().key.user < savedKey {
          return true;
        }
      }
    }

    method Prev()
      requires Ok() && valid
      modifies this, iter, iter.children
      ensures Ok()
      ensures LandsBelow(Content(), snapshot, old(Key()), Current())
    {
      hide MergingIterator.Ok;
      ghost var was := at;
      if forward {
        var found := LeaveCurrentKey();
        if !found {
          valid := false;
          savedKey := EMPTY_KEY;
          savedValue := "";
          BelowFromScan(Entries(), snapshot, -1, was, valid, at);
          return;
        }
        forward := false;
      }
      ghost var last := Inner();
      FindPrevUserEntry();
      BelowFromScan(Entries(), snapshot, last, was, valid, at);
    }

    method Seek(target: UserKey)
      requires Ok()
      modifies this, iter, iter.children
      ensures Ok()
      ensures LandsFrom(Content(), snapshot, target, false, Current())
    {
      hide MergingIterator.Ok;
      forward := true;
      savedValue := "";
      savedKey := *;   // temporary storage for the encoded internal key
      iter.Seek(Lsm.Key(target, snapshot, Put));
      ghost var start := iter.pos;
      if iter.Valid() {
        FindNextUserEntry(false);
      } else {
        valid := false;
      }
      FromScan(Entries(), snapshot, start, target, false, valid, at);
    }

    method SeekToFirst()
      requires Ok()
      modifies this, iter, iter.children
      ensures Ok()
      ensures LandsFirst(Content(), snapshot, Current())
    {
      hide MergingIterator.Ok;
      forward := true;
      savedValue := "";
      iter.SeekToFirst();
      if iter.Valid() {
        FindNextUserEntry(false);
      } else {
        valid := false;
      }
      FirstFromScan(Entries(), snapshot, valid, at);
    }

    method SeekToLast()
      requires Ok()
      modifies this, iter, iter.children
      ensures Ok()
      ensures LandsLast(Content(), snapshot, Current())
    {
      hide MergingIterator.Ok;
      forward := false;
      savedValue := "";
      iter.SeekToLast();
      FindPrevUserEntry();
      LastFromScan(Entries(), snapshot, valid, at);
    }

    method Step(c: Command)
      requires Ok()
      modifies this, iter, iter.children
      ensures Ok() && Follows(Content(), snapshot, old(Current()), c, Current())
    {
      hide MergingIterator.Ok, Wired, LandsFrom, LandsBelow, LandsFirst, LandsLast, Live, Seen;
      match c {
        case First => SeekToFirst();
        case Last => SeekToLast();
        case SeekTo(target) => Seek(target);
        case StepNext => if valid { Next(); }
        case StepPrev => if valid { Prev(); }
      }
    }

    /** Any mix of calls, with any changes of direction, moves like the plain cursor. */
    method Run(script: seq<Command>) returns (ghost trace: seq<Position>)
      requires Ok()
      modifies this, iter, iter.children
      ensures Ok() && |trace| == |script| + 1 && trace[0] == old(Current()) && trace[|script|] == Current()
      ensures forall i :: 0 <= i < |script| ==> Follows(Content(), snapshot, trace[i], script[i], trace[i + 1])
    {
      hide MergingIterator.Ok, Wired, Follows, Live, Seen;
      trace := [Current()];
      for i := 0 to |script|
        invariant Ok() && |trace| == i + 1 && trace[0] == old(Current()) && trace[i] == Current()
        invariant forall k :: 0 <= k < i ==> Follows(Content(), snapshot, trace[k], script[k], trace[k + 1])
      {
        Step(script[i]);
        trace := trace + [Current()];
      }
    }
  }

  ghost predicate NoneLive(es: seq<Entry>, snap: nat, from: nat, to: int) {
    to <= |es| && forall j :: from <= j < to ==> !Live(es, snap, j)
  }

  /** The first live entry at or after `start` whose key is not skipped is the first live key from `low` on. */
  lemma FromScan(es: seq<Entry>, snap: nat, start: nat, low: UserKey, strict: bool, valid: bool, at: nat)
    requires Sorted(es) && Distinct(Elements(es)) && start <= |es|
    requires forall j :: 0 <= j < start && Seen(es, snap, j) ==>
             es[j].key.user < low || (strict && es[j].key.user <= low)
    requires valid ==> at < |es| && Live(es, snap, at) && low <= es[at].key.user && !(strict && es[at].key.user == low)
    requires OnlySkipped(es, snap, start, if valid then at else |es|, strict, low)
    ensures LandsFrom(Elements(es), snap, low, strict, PositionAt(es, valid, at))
  {
    if valid { LiveIsLookup(es, snap, at); }
    forall u | low <= u && !(strict && u == low) && (valid ==> u < es[at].key.user)
      ensures Lookup(Elements(es), u, snap) == None
    {
      if Lookup(Elements(es), u, snap).Some? {
        LookupIsLive(es, snap, u);
      }
    }
  }

  lemma FirstFromScan(es: seq<Entry>, snap: nat, valid: bool, at: nat)
    requires Sorted(es) && Distinct(Elements(es))
    requires valid ==> at < |es| && Live(es, snap, at)
    requires NoneLive(es, snap, 0, if valid then at else |es|)
    ensures LandsFirst(Elements(es), snap, PositionAt(es, valid, at))
  {
    if valid { LiveIsLookup(es, snap, at); }
    forall u | valid ==> u < es[at].key.user ensures Lookup(Elements(es), u, snap) == None {
      if Lookup(Elements(es), u, snap).Some? {
        LookupIsLive(es, snap, u);
      }
    }
  }

  lemma LastFromScan(es: seq<Entry>, snap: nat, valid: bool, at: nat)
    requires Sorted(es) && Distinct(Elements(es))
    requires valid ==> at < |es| && Live(es, snap, at)
    requires NoneLive(es, snap, if valid then at + 1 else 0, |es|)
    ensures LandsLast(Elements(es), snap, PositionAt(es, valid, at))
  {
    if valid { LiveIsLookup(es, snap, at); }
    forall u | valid ==> es[at].key.user < u ensures Lookup(Elements(es), u, snap) == None {
      if Lookup(Elements(es), u, snap).Some? {
        LookupIsLive(es, snap, u);
      }
    }
  }

  /** The last live entry at or before `last` is the last live key below that of the entry `was`. */
  lemma BelowFromScan(es: seq<Entry>, snap: nat, last: int, was: nat, valid: bool, at: nat)
    requires Sorted(es) && Distinct(Elements(es))
    requires was < |es| && -1 <= last < was
    requires forall j :: last < j < was && Seen(es, snap, j) ==> es[j].key.user == es[was].key.user
    requires last >= 0 ==> es[last].key.user < es[was].key.user
    requires valid ==> at <= last && Live(es, snap, at)
    requires NoneLive(es, snap, if valid then at + 1 else 0, last + 1)
    ensures LandsBelow(Elements(es), snap, es[was].key.user, PositionAt(es, valid, at))
  {
    if valid { LiveIsLookup(es, snap, at); }
    forall u | u < es[was].key.user && (valid ==> es[at].key.user < u) ensures Lookup(Elements(es), u, snap) == None {
      if Lookup(Elements(es), u, snap).Some? {
        LookupIsLive(es, snap, u);
      }
    }
  }

  /** The state of the backward scan after the entries in (q, last]: `p` is the first one the snapshot saw,
      and none after it is live. */
  ghost predicate ScanningBack(es: seq<Entry>, snap: nat, last: int, q: int, p: nat, kind: Kind, savedKey: UserKey,
                               savedValue: Value) {
    -1 <= q < p <= last + 1 <= |es| &&
    (forall j :: q < j < p ==> !Seen(es, snap, j)) &&
    NoneLive(es, snap, p + 1, last + 1) &&
    (if p == last + 1 then kind == Deletion
     else Seen(es, snap, p) && kind == es[p].key.kind &&
          (kind == Put ==> savedKey == es[p].key.user && savedValue == es[p].value))
  }

  lemma ScanBackStart(es: seq<Entry>, snap: nat, last: int, savedKey: UserKey, savedValue: Value)
    requires -1 <= last < |es|
    ensures ScanningBack(es, snap, last, last, last + 1, Deletion, savedKey, savedValue)
  {
  }

  /** One turn of the backward scan over entry `q`. */
  lemma ScanBackStep(es: seq<Entry>, snap: nat, last: int, q: nat, p0: nat, kind0: Kind, key0: UserKey, value0: Value,
                     p: nat, kind: Kind, key: UserKey, value: Value)
    requires Sorted(es) && ScanningBack(es, snap, last, q, p0, kind0, key0, value0)
    requires Seen(es, snap, q) ==> kind0 == Deletion || es[q].key.user >= key0
    requires if Seen(es, snap, q) then
               p == q && kind == es[q].key.kind && (kind == Put ==> key == es[q].key.user && value == es[q].value)
             else p == p0 && kind == kind0 && key == key0 && value == value0
    ensures ScanningBack(es, snap, last, q - 1, p, kind, key, value)
  {
  }

  /** Where the backward scan stops early. */
  lemma ScanBackFound(es: seq<Entry>, snap: nat, last: int, q: int, p: nat, kind: Kind, key: UserKey, value: Value)
    requires Sorted(es) && ScanningBack(es, snap, last, q, p, kind, key, value)
    requires q >= 0 ==> kind == Put && Seen(es, snap, q) && es[q].key.user < key
    ensures kind == Put ==> p <= last && q < p && Live(es, snap, p) && es[p].key.user == key && es[p].value == value
    ensures forall j :: q < j < p && j < |es| ==> !Seen(es, snap, j)
    ensures NoneLive(es, snap, if kind == Put then p + 1 else 0, last + 1)
  {
  }

  /** Every entry before `i` that the snapshot sees has a user key that is skipped or lies behind,
      and no entry from `i` on that it sees lies below the skipped key. */
  ghost predicate PassedOver(es: seq<Entry>, snap: nat, i: nat, skipping: bool, skip: UserKey) {
    i <= |es| &&
    (forall j :: 0 <= j < i && Seen(es, snap, j) ==>
       (skipping && es[j].key.user <= skip) || (i < |es| ==> es[j].key.user < es[i].key.user)) &&
    (skipping ==> forall j :: i <= j < |es| && Seen(es, snap, j) ==> skip <= es[j].key.user)
  }

  /** The live entries in [from, to) all have a skipped user key. */
  ghost predicate OnlySkipped(es: seq<Entry>, snap: nat, from: nat, to: nat, skipping: bool, skip: UserKey) {
    to <= |es| && forall j :: from <= j < to && Live(es, snap, j) ==> skipping && es[j].key.user <= skip
  }

  /** The state of the forward scan at `i`: only keys skipped from the outset were passed, and those newly
      skipped since have no live entry ahead. */
  ghost predicate ScanningOn(es: seq<Entry>, snap: nat, start: nat, i: nat, skipping: bool, skip: UserKey,
                             skipping0: bool, skip0: UserKey) {
    (skipping0 ==> skipping && skip0 <= skip) &&
    PassedOver(es, snap, i, skipping, skip) &&
    OnlySkipped(es, snap, start, i, skipping0, skip0) &&
    forall k :: i <= k < |es| && Live(es, snap, k) && skipping && es[k].key.user <= skip ==>
      skipping0 && es[k].key.user <= skip0
  }

  lemma FacesForward(es: seq<Entry>, snap: nat, i: nat, at: nat)
    requires Sorted(es) && i <= at < |es| && forall j :: i <= j < at ==> !Seen(es, snap, j)
    ensures PassedOver(es, snap, i, true, es[at].key.user)
    ensures forall j :: 0 <= j < i && Seen(es, snap, j) ==> es[j].key.user <= es[at].key.user
  {
    hide Seen;
    forall j, k | 0 <= j <= k < |es| ensures es[j].key.user <= es[k].key.user {
    }
  }

  lemma ScanStart(es: seq<Entry>, snap: nat, start: nat, skipping: bool, skip: UserKey)
    requires PassedOver(es, snap, start, skipping, skip)
    ensures ScanningOn(es, snap, start, start, skipping, skip, skipping, skip)
  {
  }

  lemma ScanFound(es: seq<Entry>, snap: nat, start: nat, i: nat, skipping: bool, skip: UserKey, skipping0: bool,
                  skip0: UserKey)
    requires ScanningOn(es, snap, start, i, skipping, skip, skipping0, skip0) && i < |es|
    requires Seen(es, snap, i) && es[i].key.kind.Put? && !(skipping && es[i].key.user <= skip)
    ensures Live(es, snap, i) && (skipping0 ==> skip0 < es[i].key.user)
    ensures OnlySkipped(es, snap, start, i, skipping0, skip0)
  {
  }

  lemma ScanEnd(es: seq<Entry>, snap: nat, start: nat, i: nat, skipping: bool, skip: UserKey, skipping0: bool,
                skip0: UserKey)
    requires ScanningOn(es, snap, start, i, skipping, skip, skipping0, skip0) && i == |es|
    ensures OnlySkipped(es, snap, start, i, skipping0, skip0)
  {
  }

  /** One turn of the scan that does not stop at entry `i`; `skipping` and `skip` are the values after the turn. */
  lemma ScanStep(es: seq<Entry>, snap: nat, start: nat, i: nat, skipping: bool, skip: UserKey, wasSkipping: bool,
                 was: UserKey, skipping0: bool, skip0: UserKey)
    requires Sorted(es) && i < |es| && start <= i
    requires ScanningOn(es, snap, start, i, wasSkipping, was, skipping0, skip0)
    requires if Seen(es, snap, i) && es[i].key.kind.Deletion? then skipping && skip == es[i].key.user
             else skipping == wasSkipping && skip == was && (Seen(es, snap, i) ==> skipping && es[i].key.user <= skip)
    ensures ScanningOn(es, snap, start, i + 1, skipping, skip, skipping0, skip0)
  {
  }
}
