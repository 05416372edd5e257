/** db/skiplist.h: nodes in an arena, linked at several levels; one inserter, lock-free searches. */
module SkipLists {
  import opened Wrappers

  /** Keys by their position in the comparator's order. */
  type Key = real

  const MAX_HEIGHT := 12
  const HEAD: nat := 0

  type Link = Option<nat>   // null, or a node by its number

  /** The memory all threads share: node keys (the head's means nothing), their links, max_height_. */
  datatype Links = Links(keys: seq<Key>, next: seq<seq<Link>>, maxHeight: nat)

  /** Which nodes each level links. */
  type Levels = seq<set<nat>>

  predicate WellShaped(s: Links) {
    && |s.next| == |s.keys| > 0
    && |s.next[HEAD]| == MAX_HEIGHT
    && 1 <= s.maxHeight <= MAX_HEIGHT
  }

  /** Node `n` sorts before `key`; the head sorts before everything. */
  predicate Below(s: Links, n: nat, key: Key)
    requires n < |s.keys|
  {
    n == HEAD || s.keys[n] < key
  }

  predicate Allocated(s: Links, nodes: set<nat>) {
    forall n :: n in nodes ==> n < |s.keys|
  }

  /** `link` leads to the first of `nodes` that sorts after `n`. */
  ghost predicate IsNext(s: Links, nodes: set<nat>, n: nat, link: Link)
    requires n < |s.keys| && Allocated(s, nodes)
  {
    match link
    case None => forall m :: m in nodes ==> !Below(s, n, s.keys[m])
    case Some(x) =>
      x in nodes && Below(s, n, s.keys[x]) && forall m :: m in nodes && Below(s, n, s.keys[m]) ==>
        s.keys[x] <= s.keys[m]
  }

  ghost predicate Tall(s: Links, nodes: set<nat>, level: nat)
    requires WellShaped(s)
  {
    forall n :: n in nodes ==> 0 < n < |s.keys| && |s.next[n]| > level
  }

  /** One level: its nodes, in the order of their keys, linked one to the next. */
  ghost predicate LevelLinked(s: Links, nodes: set<nat>, level: nat)
    requires WellShaped(s) && level < MAX_HEIGHT
  {
    Tall(s, nodes, level) && forall n :: n == HEAD || n in nodes ==> IsNext(s, nodes, n, s.next[n][level])
  }

  ghost predicate DistinctKeys(s: Links, nodes: set<nat>)
    requires Allocated(s, nodes)
  {
    forall m, n :: m in nodes && n in nodes && s.keys[m] == s.keys[n] ==> m == n
  }

  /** Every level is sorted and part of the level below. */
  ghost predicate Linked(s: Links, ls: Levels) {
    && WellShaped(s) && |ls| == MAX_HEIGHT
    && (forall l :: 0 <= l < MAX_HEIGHT ==> LevelLinked(s, ls[l], l))
    && (forall l :: 0 < l < MAX_HEIGHT ==> ls[l] <= ls[l - 1])
    && DistinctKeys(s, ls[0])
    && (forall l :: s.maxHeight <= l < MAX_HEIGHT ==> ls[l] == {})
  }

  lemma {:induction false} LowerLevelsHaveMore(ls: Levels, l: nat, k: nat)
    requires k <= l < |ls| && forall i :: 0 < i < |ls| ==> ls[i] <= ls[i - 1]
    ensures ls[l] <= ls[k]
    decreases l
  {
    if k < l {
      LowerLevelsHaveMore(ls, l - 1, k);
    }
  }

  // --- Linking one node in at one level ---

  /** `p` is where a search for `key` stops at a level: linked there, before the key, its successor not. */
  ghost predicate StopsAt(s: Links, nodes: set<nat>, level: nat, key: Key, p: nat)
    requires WellShaped(s) && level < MAX_HEIGHT && Tall(s, nodes, level)
  {
    && (p == HEAD || p in nodes) && Below(s, p, key)
    && (s.next[p][level].Some? ==> s.next[p][level].value < |s.keys| && s.keys[s.next[p][level].value] > key)
  }

  function SetLink(s: Links, n: nat, level: nat, to: Link): (t: Links)
    requires |s.next| == |s.keys| && n < |s.next| && level < |s.next[n]|
    ensures t.keys == s.keys && t.maxHeight == s.maxHeight && |t.next| == |s.next|
    ensures forall m :: 0 <= m < |s.next| ==> |t.next[m]| == |s.next[m]|
    ensures forall m, l :: 0 <= m < |s.next| && 0 <= l < |s.next[m]| ==>
            t.next[m][l] == if m == n && l == level then to else s.next[m][l]
  {
    s.(next := s.next[n := s.next[n][level := to]])
  }

  /** Writing a link of a node that a level does not link changes nothing for that level. */
  lemma OwnLink(s: Links, ls: Levels, n: nat, level: nat, to: Link)
    requires Linked(s, ls) && n < |s.keys| && level < |s.next[n]| && level < MAX_HEIGHT && n != HEAD && n !in ls[level]
    ensures Linked(SetLink(s, n, level, to), ls)
  {
    hide SetLink, DistinctKeys;
    var t := SetLink(s, n, level, to);
    forall l | 0 <= l < MAX_HEIGHT ensures LevelLinked(t, ls[l], l) {
      SameLevel(s, t, ls[l], l);
    }
    assert DistinctKeys(t, ls[0]) by { SameKeys(s, t, ls[0]); }
  }

  lemma SameKeys(s: Links, t: Links, nodes: set<nat>)
    requires s.keys <= t.keys && Allocated(s, nodes) && DistinctKeys(s, nodes)
    ensures DistinctKeys(t, nodes)
  {
  }

  lemma SameLevel(s: Links, t: Links, nodes: set<nat>, level: nat)
    requires WellShaped(s) && WellShaped(t) && level < MAX_HEIGHT && s.keys <= t.keys
    requires LevelLinked(s, nodes, level) && Tall(t, nodes, level)
    requires forall n :: n == HEAD || n in nodes ==> t.next[n][level] == s.next[n][level]
    ensures LevelLinked(t, nodes, level)
  {
    forall n | n == HEAD || n in nodes ensures IsNext(t, nodes, n, t.next[n][level]) {
      assert IsNext(s, nodes, n, s.next[n][level]);
      assert forall m :: m in nodes ==> t.keys[m] == s.keys[m] && (Below(s, n, s.keys[m]) <==> Below(t, n, t.keys[m]));
    }
  }

  /** The store that publishes node `x` at a level, after its own link was set. */
  lemma PublishLevel(s: Links, nodes: set<nat>, level: nat, x: nat, p: nat)
    requires WellShaped(s) && level < MAX_HEIGHT && LevelLinked(s, nodes, level)
    requires 0 < x < |s.keys| && DistinctKeys(s, nodes + {x}) && |s.next[x]| > level && x !in nodes
    requires StopsAt(s, nodes, level, s.keys[x], p) && s.next[x][level] == s.next[p][level]
    ensures LevelLinked(SetLink(s, p, level, Some(x)), nodes + {x}, level)
  {
    hide SetLink, IsNext, DistinctKeys;
    var t := SetLink(s, p, level, Some(x));
    StopPlace(s, nodes, level, s.keys[x], p);
    forall n | n == HEAD || n in nodes + {x} ensures IsNext(t, nodes + {x}, n, t.next[n][level]) {
      if n == p {
        NextOfPrevious(s, nodes, level, x, p);
        SameOrder(s, t, nodes + {x}, n, Some(x));
      } else if n == x {
        NextOfNew(s, nodes, level, x, p);
        SameOrder(s, t, nodes + {x}, n, s.next[n][level]);
      } else {
        NextOfOther(s, nodes, level, x, p, n);
        SameOrder(s, t, nodes + {x}, n, s.next[n][level]);
      }
    }
  }

  lemma SameOrder(s: Links, t: Links, nodes: set<nat>, n: nat, link: Link)
    requires s.keys == t.keys && n < |s.keys| && Allocated(s, nodes) && IsNext(s, nodes, n, link)
    ensures IsNext(t, nodes, n, link)
  {
    assert forall m :: m in nodes ==> (Below(s, n, s.keys[m]) <==> Below(t, n, t.keys[m]));
  }

  lemma NextOfPrevious(s: Links, nodes: set<nat>, level: nat, x: nat, p: nat)
    requires WellShaped(s) && level < MAX_HEIGHT && LevelLinked(s, nodes, level) && x < |s.keys|
    requires StopsAt(s, nodes, level, s.keys[x], p)
    ensures IsNext(s, nodes + {x}, p, Some(x))
  {
    assert IsNext(s, nodes, p, s.next[p][level]);
  }

  lemma NextOfNew(s: Links, nodes: set<nat>, level: nat, x: nat, p: nat)
    requires WellShaped(s) && level < MAX_HEIGHT && LevelLinked(s, nodes, level) && 0 < x < |s.keys|
    requires StopsAt(s, nodes, level, s.keys[x], p)
    ensures IsNext(s, nodes + {x}, x, s.next[p][level])
  {
    assert IsNext(s, nodes, p, s.next[p][level]);
    assert forall m :: m in nodes && Below(s, x, s.keys[m]) ==> Below(s, p, s.keys[m]);
  }

  /** Only the predecessor's link changes: the new key lies between no other pair of neighbours. */
  lemma NextOfOther(s: Links, nodes: set<nat>, level: nat, x: nat, p: nat, n: nat)
    requires WellShaped(s) && level < MAX_HEIGHT && LevelLinked(s, nodes, level)
    requires 0 < x < |s.keys| && DistinctKeys(s, nodes + {x}) && x !in nodes && StopsAt(s, nodes, level, s.keys[x], p)
    requires (n == HEAD || n in nodes) && n != p
    ensures IsNext(s, nodes + {x}, n, s.next[n][level])
  {
    assert IsNext(s, nodes, p, s.next[p][level]);
    assert IsNext(s, nodes, n, s.next[n][level]);
  }

  // --- Searches: they only load links, one at a time ---

  datatype Search = AtOrAfter(target: Key)   // FindGreaterOrEqual
                  | Before(target: Key)      // FindLessThan
                  | ToLast                   // FindLast

  /** Whether a search that loaded `next` moves on to it. */
  predicate GoesOn(s: Links, search: Search, next: Link)
    requires next.Some? ==> next.value < |s.keys|
  {
    next.Some? && (search.ToLast? || s.keys[next.value] < search.target)
  }

  /** The answer a search gives in the bottom level at node `x`, whose successor is `next`. */
  function Answer(search: Search, x: nat, next: Link): Link {
    if search.AtOrAfter? then next else Some(x)
  }

  /** `n` is the head, or a node of the level that the search may stand on. */
  ghost predicate Reached(s: Links, nodes: set<nat>, search: Search, n: nat)
    requires Allocated(s, nodes)
    requires |s.keys| > 0
  {
    (n == HEAD || n in nodes) && (search.ToLast? || Below(s, n, search.target))
  }

  /** What a search is for, over the keys linked in the bottom level. */
  ghost predicate Finds(s: Links, nodes: set<nat>, search: Search, answer: Link)
    requires |s.keys| > 0 && Allocated(s, nodes)
  {
    match search
    case AtOrAfter(target) =>
      (match answer
       case None => forall m :: m in nodes ==> s.keys[m] < target
       case Some(r) =>
         r in nodes && s.keys[r] >= target && forall m :: m in nodes && s.keys[m] >= target ==> s.keys[r] <= s.keys[m])
    case Before(target) =>
      answer.Some? && (answer.value == HEAD || answer.value in nodes) && Below(s, answer.value, target) &&
      forall m :: m in nodes && s.keys[m] < target ==> answer.value != HEAD && s.keys[m] <= s.keys[answer.value]
    case ToLast =>
      answer.Some? && (answer.value == HEAD || answer.value in nodes) &&
      forall m :: m in nodes ==> answer.value != HEAD && s.keys[m] <= s.keys[answer.value]
  }

  /** One load in the bottom level that does not move on finds the answer, as of that load. */
  lemma LastLoadFinds(s: Links, nodes: set<nat>, search: Search, x: nat)
    requires WellShaped(s) && LevelLinked(s, nodes, 0) && Reached(s, nodes, search, x)
    requires s.next[x][0].Some? ==> s.next[x][0].value < |s.keys|
    requires !GoesOn(s, search, s.next[x][0])
    ensures Finds(s, nodes, search, Answer(search, x, s.next[x][0]))
  {
    var next := s.next[x][0];
    assert IsNext(s, nodes, x, next);
    match search {
      case AtOrAfter(target) =>
        forall m | m in nodes && s.keys[m] >= target ensures next.Some? && s.keys[next.value] <= s.keys[m] {
          assert Below(s, x, s.keys[m]);
        }
      case Before(target) =>
        forall m | m in nodes && s.keys[m] < target ensures x != HEAD && s.keys[m] <= s.keys[x] {
          assert !Below(s, x, s.keys[m]);
        }
      case ToLast =>
        forall m | m in nodes ensures x != HEAD && s.keys[m] <= s.keys[x] {
          assert !Below(s, x, s.keys[m]);
        }
    }
  }

  lemma NextIsLinked(s: Links, nodes: set<nat>, level: nat, n: nat)
    requires WellShaped(s) && level < MAX_HEIGHT && LevelLinked(s, nodes, level) && (n == HEAD || n in nodes)
    ensures s.next[n][level].Some? ==> s.next[n][level].value in nodes
  {
    assert IsNext(s, nodes, n, s.next[n][level]);
  }

  lemma StartsAtHead(s: Links, ls: Levels, search: Search, level: nat)
    requires Linked(s, ls) && level < MAX_HEIGHT
    ensures Allocated(s, ls[level])
    ensures Reached(s, ls[level], search, HEAD)
  {
    assert LevelLinked(s, ls[level], level);
  }

  /** One load of a search: it moves right, moves down, or answers. */
  lemma SearchStep(s: Links, ls: Levels, level: nat, search: Search, x: nat)
    requires Linked(s, ls) && level < MAX_HEIGHT && Allocated(s, ls[level])
    requires Reached(s, ls[level], search, x)
    ensures x < |s.keys| && level < |s.next[x]|
    ensures var next := s.next[x][level];
            && (next.Some? ==> next.value < |s.keys|)
            && (GoesOn(s, search, next) ==>
                next.Some? && Reached(s, ls[level], search, next.value) &&
                  After(s, ls[level], next.value) < After(s, ls[level], x))
            && (!GoesOn(s, search, next) && level == 0 ==> Finds(s, ls[0], search, Answer(search, x, next)))
            && (!GoesOn(s, search, next) && level > 0 ==>
                Allocated(s, ls[level - 1]) && Reached(s, ls[level - 1], search, x))
            && (!GoesOn(s, search, next) && search.AtOrAfter? &&
                (forall m :: m in ls[0] ==> m < |s.keys| && s.keys[m] != search.target) ==>
                Tall(s, ls[level], level) && StopsAt(s, ls[level], level, search.target, x))
  {
    hide Finds, After;
    var nodes := ls[level];
    assert LevelLinked(s, nodes, level);
    NextIsLinked(s, nodes, level, x);
    LowerLevels(ls);
    var next := s.next[x][level];
    if GoesOn(s, search, next) {
      assert IsNext(s, nodes, x, next);
      MovingOn(s, nodes, x, next.value);
    } else if level == 0 {
      LastLoadFinds(s, nodes, search, x);
    } else {
      assert LevelLinked(s, ls[level - 1], level - 1);
    }
  }

  // --- The list as its one thread sees it ---

  class SkipList {
    var links: Links
    ghost var levels: Levels

    ghost predicate Valid()
      reads this
    {
      Linked(links, levels)
    }

    /** The nodes the bottom level links. */
    ghost function Nodes(): set<nat>
      requires Valid()
      reads this
    {
      levels[0]
    }

    constructor ()
      ensures Valid() && Nodes() == {}
    {
      links := Links([0.0], [seq(MAX_HEIGHT, i => None)], 1);
      levels := seq(MAX_HEIGHT, i => {});
    }

    /** The search loop; `prev` collects where it stopped at each level. */
    method Find(search: Search) returns (answer: Link, prev: seq<nat>)
      requires Valid()
      ensures Finds(links, Nodes(), search, answer)
      ensures |prev| == links.maxHeight
      ensures search.AtOrAfter? && !Present(search.target) ==>
              forall l :: 0 <= l < |prev| ==> StopsAt(links, levels[l], l, search.target, prev[l])
    {
      hide Linked, StopsAt, Finds, Reached, GoesOn;
      LinkedBounds(links, levels);
      StartsAtHead(links, levels, search, links.maxHeight - 1);
      var x: nat := HEAD;
      var level := links.maxHeight - 1;
      prev := [];
      while true
        invariant 0 <= level && |prev| + level + 1 == links.maxHeight
        invariant Reached(links, levels[level], search, x) && x < |links.keys|
        invariant search.AtOrAfter? && !Present(search.target) ==>
                  forall l :: level < l < links.maxHeight ==>
                    StopsAt(links, levels[l], l, search.target, prev[l - level - 1])
        decreases level, After(links, levels[level], x)
      {
        SearchStep(links, levels, level, search, x);
        var next := links.next[x][level];
        if GoesOn(links, search, next) {
          x := next.value;
        } else {
          prev := [x] + prev;
          if level == 0 {
            answer := Answer(search, x, next);
            return;
          }
          level := level - 1;
        }
      }
    }

    /** Insert; `height` is what RandomHeight returned. Each level is published by one store. */
    method Insert(key: Key, height: nat)
      requires Valid() && !Present(key) && 1 <= height <= MAX_HEIGHT
      modifies this
      ensures Valid() && links.keys == old(links.keys) + [key]
      ensures forall l :: 0 <= l < MAX_HEIGHT ==>
              levels[l] == if l < height then old(levels[l]) + {|old(links.keys)|} else old(levels[l])
    {
      hide Linked, StopsAt, SetLink, Finds, NewNode, PaddedPrev;
      LinkedBounds(links, levels);
      ghost var before := levels;
      var answer, prev := Find(AtOrAfter(key));
      BeginKeeps(links, levels, key, height, prev);
      prev := PadWithHead(prev, height);
      var x := |links.keys|;
      links := NewNode(links, key, height);
      InsertingBounds(links, levels, x, height, prev, 0);
      for i := 0 to height
        invariant Inserting(links, levels, x, height, prev, i) && |levels| == MAX_HEIGHT
        invariant links.keys == old(links.keys) + [key]
        invariant forall l :: 0 <= l < MAX_HEIGHT ==> levels[l] == if l < i then before[l] + {x} else before[l]
      {
        hide Inserting;
        InsertingBounds(links, levels, x, height, prev, i);
        StoreOwnKeeps(links, levels, x, height, prev, i);
        links := SetLink(links, x, i, links.next[prev[i]][i]);
        InsertingBounds(links, levels, x, height, prev, i);
        PublishKeeps(links, levels, x, height, prev, i);
        links := SetLink(links, prev[i], i, Some(x));
        levels := levels[i := levels[i] + {x}];
      }
    }

    static method PadWithHead(found: seq<nat>, height: nat) returns (prev: seq<nat>)
      ensures prev == PaddedPrev(found, height)
    {
      prev := found;
      if height > |found| {
        for i := |found| to height
          invariant |prev| == i && prev == PaddedPrev(found, i)
        {
          prev := prev + [HEAD];
        }
      }
    }

    ghost predicate Present(key: Key)
      requires Valid()
      reads this
    {
      exists n :: n in Nodes() && links.keys[n] == key
    }
  }

  /** The nodes of a level that sort after `x`: fewer at each step to the right. */
  ghost function After(s: Links, nodes: set<nat>, x: nat): set<nat>
    requires x < |s.keys| && Allocated(s, nodes)
  {
    set m | m in nodes && Below(s, x, s.keys[m])
  }

  lemma MovingOn(s: Links, nodes: set<nat>, x: nat, y: nat)
    requires x < |s.keys| && (forall m :: m in nodes ==> 0 < m < |s.keys|) && y in nodes && Below(s, x, s.keys[y])
    ensures After(s, nodes, y) < After(s, nodes, x)
  {
    assert y in After(s, nodes, x) && y !in After(s, nodes, y);
  }

  // --- One insertion under way ---

  /** A node of the given height, not yet linked anywhere. */
  function NewNode(s: Links, key: Key, height: nat): (t: Links)
    ensures t.keys == s.keys + [key] && |t.next| == |s.next| + 1
  {
    Links(s.keys + [key], s.next + [seq(height, i => None)], if height > s.maxHeight then height else s.maxHeight)
  }

  /** New levels start at the head. */
  function PaddedPrev(prev: seq<nat>, height: nat): (r: seq<nat>)
    ensures |r| == if |prev| < height then height else |prev|
    ensures forall l :: 0 <= l < |r| ==> r[l] == if l < |prev| then prev[l] else HEAD
  {
    if |prev| < height then prev + seq(height - |prev|, i => HEAD) else prev
  }

  /** Node `x` is linked below level `i`, and at each level from there on its predecessor is known. */
  ghost predicate Inserting(s: Links, ls: Levels, x: nat, height: nat, prev: seq<nat>, i: nat) {
    && Linked(s, ls) && 0 < x < |s.keys| && |s.next[x]| == height <= |prev| && i <= height <= s.maxHeight
    && (forall l :: 0 <= l < MAX_HEIGHT ==> (x in ls[l] <==> l < i))
    && (forall l :: 0 <= l < MAX_HEIGHT ==> Allocated(s, ls[l]))
    && DistinctKeys(s, ls[0] + {x})
    && (forall l :: i <= l < height ==> StopsAt(s, ls[l], l, s.keys[x], prev[l]))
  }

  lemma LinkedBounds(s: Links, ls: Levels)
    requires Linked(s, ls)
    ensures |ls| == MAX_HEIGHT && WellShaped(s)
    ensures forall l :: 0 <= l < MAX_HEIGHT ==> Tall(s, ls[l], l)
    ensures forall l :: 0 <= l < MAX_HEIGHT ==> Allocated(s, ls[l])
  {
    forall l | 0 <= l < MAX_HEIGHT ensures Tall(s, ls[l], l) {
      assert LevelLinked(s, ls[l], l);
    }
  }

  lemma InsertingBounds(s: Links, ls: Levels, x: nat, height: nat, prev: seq<nat>, i: nat)
    requires Inserting(s, ls, x, height, prev, i)
    ensures |ls| == MAX_HEIGHT && x < |s.keys| == |s.next| && |s.next[x]| == height <= |prev|
    ensures i < height ==> prev[i] < |s.keys| && i < |s.next[prev[i]]|
  {
    hide StopsAt;
    if i < height {
      StopPlace(s, ls[i], i, s.keys[x], prev[i]);
    }
  }

  lemma BeginKeeps(s: Links, ls: Levels, key: Key, height: nat, prev: seq<nat>)
    requires Linked(s, ls) && 1 <= height <= MAX_HEIGHT && |prev| == s.maxHeight
    requires forall n :: n in ls[0] ==> n < |s.keys| && s.keys[n] != key
    requires forall l :: 0 <= l < s.maxHeight ==> Tall(s, ls[l], l) && StopsAt(s, ls[l], l, key, prev[l])
    ensures Inserting(NewNode(s, key, height), ls, |s.keys|, height, PaddedPrev(prev, height), 0)
  {
    hide LevelLinked, StopsAt;
    var t := NewNode(s, key, height);
    LinkedBounds(s, ls);
    forall l | 0 <= l < MAX_HEIGHT ensures LevelLinked(t, ls[l], l) {
      assert LevelLinked(s, ls[l], l);
      SameLevel(s, t, ls[l], l);
    }
    forall l | 0 <= l < height ensures StopsAt(t, ls[l], l, key, PaddedPrev(prev, height)[l]) {
      if l < s.maxHeight {
        StopPlace(s, ls[l], l, key, prev[l]);
        StopsStill(s, t, ls[l], l, key, prev[l]);
      } else {
        StopsAtHead(s, t, ls, l, key);
      }
    }
  }

  lemma StopsStill(s: Links, t: Links, nodes: set<nat>, level: nat, key: Key, p: nat)
    requires WellShaped(s) && level < MAX_HEIGHT && Tall(s, nodes, level) && WellShaped(t) && Tall(t, nodes, level)
    requires StopsAt(s, nodes, level, key, p) && s.keys <= t.keys && t.next[p][level] == s.next[p][level]
    ensures StopsAt(t, nodes, level, key, p)
  {
  }

  lemma StopsAtHead(s: Links, t: Links, ls: Levels, level: nat, key: Key)
    requires Linked(s, ls) && s.maxHeight <= level < MAX_HEIGHT && WellShaped(t) && Tall(t, ls[level], level)
    requires t.next[HEAD][level] == s.next[HEAD][level]
    ensures StopsAt(t, ls[level], level, key, HEAD)
  {
    assert LevelLinked(s, ls[level], level);
    NextIsLinked(s, ls[level], level, HEAD);
  }

  lemma StoreOwnKeeps(s: Links, ls: Levels, x: nat, height: nat, prev: seq<nat>, i: nat)
    requires Inserting(s, ls, x, height, prev, i) && i < height
    ensures prev[i] < |s.keys| && i < |s.next[prev[i]]|
    ensures Inserting(SetLink(s, x, i, s.next[prev[i]][i]), ls, x, height, prev, i)
  {
    hide Linked, StopsAt, SetLink;
    LinkedBounds(s, ls);
    StopPlace(s, ls[i], i, s.keys[x], prev[i]);
    var t := SetLink(s, x, i, s.next[prev[i]][i]);
    OwnLink(s, ls, x, i, s.next[prev[i]][i]);
    LinkedBounds(t, ls);
    forall l | i <= l < height ensures StopsAt(t, ls[l], l, t.keys[x], prev[l]) {
      StopPlace(s, ls[l], l, s.keys[x], prev[l]);
      StopsStill(s, t, ls[l], l, s.keys[x], prev[l]);
    }
  }

  lemma StopPlace(s: Links, nodes: set<nat>, level: nat, key: Key, p: nat)
    requires WellShaped(s) && level < MAX_HEIGHT && Tall(s, nodes, level) && StopsAt(s, nodes, level, key, p)
    ensures (p == HEAD || p in nodes) && p < |s.keys| && level < |s.next[p]|
  {
  }

  lemma PublishKeeps(s: Links, ls: Levels, x: nat, height: nat, prev: seq<nat>, i: nat)
    requires Inserting(s, ls, x, height, prev, i) && i < height
    requires prev[i] < |s.keys| && i < |s.next[prev[i]]| && s.next[x][i] == s.next[prev[i]][i]
    ensures Inserting(SetLink(s, prev[i], i, Some(x)), ls[i := ls[i] + {x}], x, height, prev, i + 1)
  {
    hide Linked, StopsAt, SetLink;
    LinkedBounds(s, ls);
    var t := SetLink(s, prev[i], i, Some(x));
    var ls1 := ls[i := ls[i] + {x}];
    PublishLinks(s, ls, x, height, prev, i);
    LinkedBounds(t, ls1);
    forall l | i + 1 <= l < height ensures StopsAt(t, ls1[l], l, t.keys[x], prev[l]) {
      StopPlace(s, ls[l], l, s.keys[x], prev[l]);
      StopsStill(s, t, ls[l], l, s.keys[x], prev[l]);
    }
    SameKeys(s, t, ls[0] + {x});
    assert ls1[0] + {x} == ls[0] + {x};
  }

  lemma PublishLinks(s: Links, ls: Levels, x: nat, height: nat, prev: seq<nat>, i: nat)
    requires Inserting(s, ls, x, height, prev, i) && i < height
    requires prev[i] < |s.keys| && i < |s.next[prev[i]]| && s.next[x][i] == s.next[prev[i]][i]
    ensures Linked(SetLink(s, prev[i], i, Some(x)), ls[i := ls[i] + {x}])
  {
    hide LevelLinked, StopsAt, SetLink, DistinctKeys;
    var t := SetLink(s, prev[i], i, Some(x));
    var ls1 := ls[i := ls[i] + {x}];
    LinkedBounds(s, ls);
    LowerLevels(ls);
    assert ls[i] <= ls[0];
    Fewer(s, ls[0] + {x}, ls[i] + {x});
    forall l | 0 <= l < MAX_HEIGHT ensures LevelLinked(t, ls1[l], l) {
      assert LevelLinked(s, ls[l], l);
      if l == i {
        PublishLevel(s, ls[i], i, x, prev[i]);
      } else {
        SameLevel(s, t, ls[l], l);
      }
    }
    if i == 0 {
      SameKeys(s, t, ls1[0]);
    } else {
      SameKeys(s, t, ls[0]);
    }
  }

  lemma LowerLevels(ls: Levels)
    requires |ls| == MAX_HEIGHT && forall i :: 0 < i < |ls| ==> ls[i] <= ls[i - 1]
    ensures forall l :: 0 <= l < MAX_HEIGHT ==> ls[l] <= ls[0]
  {
    forall l | 0 <= l < MAX_HEIGHT ensures ls[l] <= ls[0] {
      LowerLevelsHaveMore(ls, l, 0);
    }
  }

  lemma Fewer(s: Links, all: set<nat>, some: set<nat>)
    requires Allocated(s, all) && DistinctKeys(s, all) && some <= all
    ensures DistinctKeys(s, some)
  {
  }

  // --- Iterators ---

  /** Following the bottom links from node `n`. */
  ghost function Walk(s: Links, nodes: set<nat>, n: nat): seq<nat>
    requires WellShaped(s) && LevelLinked(s, nodes, 0) && (n == HEAD || n in nodes)
    decreases After(s, nodes, n)
  {
    NextIsLinked(s, nodes, 0, n);
    match s.next[n][0]
    case None => []
    case Some(x) =>
      assert IsNext(s, nodes, n, Some(x));
      MovingOn(s, nodes, n, x);
      [x] + Walk(s, nodes, x)
  }

  /** An iterator that walks on from a node meets exactly the nodes after it, in the order of their keys. */
  lemma {:induction false} WalkIsSorted(s: Links, nodes: set<nat>, n: nat)
    requires WellShaped(s) && LevelLinked(s, nodes, 0) && DistinctKeys(s, nodes) && (n == HEAD || n in nodes)
    ensures forall m :: m in Walk(s, nodes, n) <==> m in After(s, nodes, n)
    ensures forall i, j :: 0 <= i < j < |Walk(s, nodes, n)| ==>
            Walk(s, nodes, n)[i] < |s.keys| && Walk(s, nodes, n)[j] < |s.keys| &&
            s.keys[Walk(s, nodes, n)[i]] < s.keys[Walk(s, nodes, n)[j]]
    decreases After(s, nodes, n)
  {
    assert IsNext(s, nodes, n, s.next[n][0]);
    if s.next[n][0].Some? {
      var x := s.next[n][0].value;
      MovingOn(s, nodes, n, x);
      WalkIsSorted(s, nodes, x);
      var rest := Walk(s, nodes, x);
      forall j | 0 <= j < |rest| ensures rest[j] < |s.keys| && s.keys[x] < s.keys[rest[j]] {
        assert rest[j] in After(s, nodes, x);
      }
      forall m ensures m in [x] + rest <==> m in After(s, nodes, n) {
        if m in After(s, nodes, n) && m != x {
          assert s.keys[x] <= s.keys[m] && s.keys[x] != s.keys[m];
        }
      }
    }
  }

  // --- Many readers, one writer, one load or store at a time ---

  datatype Reader = Walking(search: Search, x: nat, level: nat) | Done(search: Search, answer: Link)

  datatype Writer = Idle | Linking(x: nat, height: nat, prev: seq<nat>, level: nat, own: bool)

  /** The shared memory, the threads, and (as history) which nodes each level links. */
  datatype Machine = Machine(s: Links, levels: Levels, writer: Writer, readers: map<nat, Reader>)

  datatype Action =
    | Begin(key: Key, height: nat, prev: seq<nat>)   // the search is over: raise max_height_, allocate the node
    | StoreOwn                                       // x->next_[i] = prev[i]->next_[i]
    | Publish                                        // prev[i]->next_[i] = x
    | Start(id: nat, search: Search, height: nat)    // a reader loads max_height_, possibly an old value
    | Load(id: nat)                                  // a reader loads one link

  ghost predicate Enabled(m: Machine, a: Action) {
    match a
    case Begin(key, height, prev) =>
      && m.writer.Idle? && 1 <= height <= MAX_HEIGHT && Linked(m.s, m.levels) && |prev| == m.s.maxHeight
      && (forall n :: n in m.levels[0] ==> n < |m.s.keys| && m.s.keys[n] != key)
      && (forall l :: 0 <= l < m.s.maxHeight ==>
          Tall(m.s, m.levels[l], l) && StopsAt(m.s, m.levels[l], l, key, prev[l]))
    case StoreOwn => m.writer.Linking? && !m.writer.own
    case Publish => m.writer.Linking? && m.writer.own
    case Start(id, search, height) => id !in m.readers && 1 <= height <= m.s.maxHeight
    case Load(id) => id in m.readers && m.readers[id].Walking?
  }

  ghost predicate WriterInv(m: Machine) {
    match m.writer
    case Idle => Linked(m.s, m.levels)
    case Linking(x, height, prev, i, own) =>
      && Inserting(m.s, m.levels, x, height, prev, i) && i < height
      && prev[i] < |m.s.keys| && i < |m.s.next[prev[i]]|
      && (own ==> m.s.next[x][i] == m.s.next[prev[i]][i])
  }

  ghost predicate ReaderInv(s: Links, ls: Levels, r: Reader)
    requires |ls| == MAX_HEIGHT && |s.keys| > 0
  {
    r.Walking? ==> r.level < MAX_HEIGHT && Allocated(s, ls[r.level]) && Reached(s, ls[r.level], r.search, r.x)
  }

  ghost predicate Inv(m: Machine) {
    && WriterInv(m) && Linked(m.s, m.levels)
    && forall id :: id in m.readers ==> ReaderInv(m.s, m.levels, m.readers[id])
  }

  /** What one load does to a reader. */
  function Loaded(s: Links, r: Reader): Reader
    requires r.Walking? && r.x < |s.next| && r.level < |s.next[r.x]|
    requires s.next[r.x][r.level].Some? ==> s.next[r.x][r.level].value < |s.keys|
  {
    var next := s.next[r.x][r.level];
    if GoesOn(s, r.search, next) then Walking(r.search, next.value, r.level)
    else if r.level > 0 then Walking(r.search, r.x, r.level - 1)
    else Done(r.search, Answer(r.search, r.x, next))
  }

  lemma ReaderMayLoad(m: Machine, id: nat)
    requires Inv(m) && Enabled(m, Load(id))
    ensures var r := m.readers[id];
            && r.x < |m.s.next| && r.level < |m.s.next[r.x]|
            && (m.s.next[r.x][r.level].Some? ==> m.s.next[r.x][r.level].value < |m.s.keys|)
  {
    hide Linked, WriterInv, Reached, StopsAt, Finds, After;
    var r := m.readers[id];
    LinkedBounds(m.s, m.levels);
    SearchStep(m.s, m.levels, r.level, r.search, r.x);
  }

  ghost function Apply(m: Machine, a: Action): Machine
    requires Inv(m) && Enabled(m, a)
  {
    match a
    case Begin(key, height, prev) =>
      m.(s := NewNode(m.s, key, height), writer := Linking(|m.s.keys|, height, PaddedPrev(prev, height), 0, false))
    case StoreOwn =>
      var w := m.writer;
      m.(s := SetLink(m.s, w.x, w.level, m.s.next[w.prev[w.level]][w.level]), writer := w.(own := true))
    case Publish =>
      var w := m.writer;
      m.(s := SetLink(m.s, w.prev[w.level], w.level, Some(w.x)),
         levels := m.levels[w.level := m.levels[w.level] + {w.x}],
         writer := if w.level + 1 == w.height then Idle else w.(level := w.level + 1, own := false))
    case Start(id, search, height) => m.(readers := m.readers[id := Walking(search, HEAD, height - 1)])
    case Load(id) =>
      ReaderMayLoad(m, id);
      m.(readers := m.readers[id := Loaded(m.s, m.readers[id])])
  }

  /** Memory only grows: nodes are never changed in key, moved or unlinked. */
  ghost predicate Grows(m: Machine, n: Machine) {
    && m.s.keys <= n.s.keys && |m.levels| == |n.levels| == MAX_HEIGHT
    && (forall l :: 0 <= l < MAX_HEIGHT ==> m.levels[l] <= n.levels[l])
  }

  lemma WriterKeeps(m: Machine, a: Action)
    requires Inv(m) && Enabled(m, a) && (a.Begin? || a.StoreOwn? || a.Publish?)
    ensures var n := Apply(m, a); WriterInv(n) && Linked(n.s, n.levels) && Grows(m, n) && n.readers == m.readers
  {
    hide Linked, StopsAt, SetLink, NewNode, ReaderInv, Inserting;
    LinkedBounds(m.s, m.levels);
    var n := Apply(m, a);
    match a {
      case Begin(key, height, prev) =>
        BeginKeeps(m.s, m.levels, key, height, prev);
        InsertingBounds(n.s, n.levels, n.writer.x, height, n.writer.prev, 0);
        InsertingIsLinked(n.s, n.levels, n.writer.x, height, n.writer.prev, 0);
      case StoreOwn =>
        var w := m.writer;
        StoreOwnKeeps(m.s, m.levels, w.x, w.height, w.prev, w.level);
        InsertingBounds(m.s, m.levels, w.x, w.height, w.prev, w.level);
        InsertingBounds(n.s, n.levels, w.x, w.height, w.prev, w.level);
        InsertingIsLinked(n.s, n.levels, w.x, w.height, w.prev, w.level);
        OwnStored(m.s, w.x, w.height, w.prev, w.level);
      case Publish =>
        var w := m.writer;
        PublishKeeps(m.s, m.levels, w.x, w.height, w.prev, w.level);
        InsertingIsLinked(n.s, n.levels, w.x, w.height, w.prev, w.level + 1);
        InsertingBounds(n.s, n.levels, w.x, w.height, w.prev, w.level + 1);
    }
  }

  lemma InsertingIsLinked(s: Links, ls: Levels, x: nat, height: nat, prev: seq<nat>, i: nat)
    requires Inserting(s, ls, x, height, prev, i)
    ensures Linked(s, ls) && (forall l :: 0 <= l < MAX_HEIGHT ==> (x in ls[l] <==> l < i))
    ensures |s.next| == |s.keys|
  {
    hide StopsAt, LevelLinked;
  }

  lemma OwnStored(s: Links, x: nat, height: nat, prev: seq<nat>, i: nat)
    requires i < height <= |prev|
    requires x < |s.keys| == |s.next| && |s.next[x]| == height && prev[i] < |s.keys| && i < |s.next[prev[i]]|
    ensures var t := SetLink(s, x, i, s.next[prev[i]][i]); t.next[x][i] == t.next[prev[i]][i]
  {
    hide SetLink;
    var t := SetLink(s, x, i, s.next[prev[i]][i]);
    assert t.next[x][i] == s.next[prev[i]][i];
    assert prev[i] != x ==> t.next[prev[i]][i] == s.next[prev[i]][i];
  }

  lemma ReaderKeeps(s: Links, ls: Levels, t: Links, lt: Levels, r: Reader)
    requires |ls| == |lt| == MAX_HEIGHT && |s.keys| > 0 && ReaderInv(s, ls, r)
    requires s.keys <= t.keys && (forall l :: 0 <= l < MAX_HEIGHT ==> ls[l] <= lt[l] && Allocated(t, lt[l]))
    ensures ReaderInv(t, lt, r)
  {
  }

  /** Every step of every thread keeps the invariant. */
  lemma StepKeeps(m: Machine, a: Action)
    requires Inv(m) && Enabled(m, a)
    ensures Inv(Apply(m, a)) && Grows(m, Apply(m, a))
  {
    hide Linked, WriterInv, ReaderInv, StopsAt, Finds, After, SetLink, NewNode, Inserting;
    var n := Apply(m, a);
    LinkedBounds(m.s, m.levels);
    match a {
      case Start(id, search, height) =>
        StartKeeps(m, id, search, height);
      case Load(id) =>
        LoadKeeps(m, id);
      case _ =>
        WriterKeeps(m, a);
        LinkedBounds(n.s, n.levels);
        forall id | id in n.readers ensures ReaderInv(n.s, n.levels, n.readers[id]) {
          ReaderKeeps(m.s, m.levels, n.s, n.levels, m.readers[id]);
        }
    }
  }

  lemma StartKeeps(m: Machine, id: nat, search: Search, height: nat)
    requires Inv(m) && Enabled(m, Start(id, search, height))
    ensures Inv(Apply(m, Start(id, search, height))) && Grows(m, Apply(m, Start(id, search, height)))
  {
    hide Linked, StopsAt, Finds, Inserting;
    LinkedBounds(m.s, m.levels);
    StartsAtHead(m.s, m.levels, search, height - 1);
  }

  lemma LoadKeeps(m: Machine, id: nat)
    requires Inv(m) && Enabled(m, Load(id))
    ensures Inv(Apply(m, Load(id))) && Grows(m, Apply(m, Load(id)))
    ensures var r := Apply(m, Load(id)).readers[id]; r.Done? ==> Finds(m.s, m.levels[0], r.search, r.answer)
  {
    hide Linked, StopsAt, Finds, Reached, Inserting, After, GoesOn;
    LinkedBounds(m.s, m.levels);
    var r := m.readers[id];
    SearchStep(m.s, m.levels, r.level, r.search, r.x);
  }

  // --- Whole runs ---

  /** A run from `m`: each state with the action taken from it. */
  ghost predicate IsRun(ms: seq<Machine>, actions: seq<Action>) {
    && |ms| == |actions| + 1
    && forall i :: 0 <= i < |actions| ==>
       Inv(ms[i]) && Enabled(ms[i], actions[i]) && ms[i + 1] == Apply(ms[i], actions[i])
  }

  const EMPTY: Machine :=
    Machine(Links([0.0], [seq(MAX_HEIGHT, i => None)], 1), seq(MAX_HEIGHT, i => {}), Idle, map[])

  lemma EmptyIsFine()
    ensures Inv(EMPTY)
  {
    assert forall l :: 0 <= l < MAX_HEIGHT ==> LevelLinked(EMPTY.s, EMPTY.levels[l], l);
  }

  /** In every state of every run, every level is sorted and part of the level below. */
  lemma {:induction false} RunsKeep(ms: seq<Machine>, actions: seq<Action>, i: nat, j: nat)
    requires IsRun(ms, actions) && Inv(ms[0]) && i <= j < |ms|
    ensures Inv(ms[i]) && Inv(ms[j]) && Grows(ms[i], ms[j])
    decreases j
  {
    hide Linked, WriterInv, ReaderInv, Apply, Enabled;
    if j == 0 {
      LinkedBounds(ms[0].s, ms[0].levels);
    } else {
      RunsKeep(ms, actions, if i < j then i else j - 1, j - 1);
      StepKeeps(ms[j - 1], actions[j - 1]);
      LinkedBounds(ms[j].s, ms[j].levels);
    }
  }

  /** A search linearizes at its last load: its answer is right for the keys linked then, which include
      all keys linked in the bottom level at any earlier moment of the run. */
  lemma SearchLinearizes(ms: seq<Machine>, actions: seq<Action>, i: nat, j: nat, id: nat)
    requires IsRun(ms, actions) && Inv(ms[0]) && i <= j < |actions|
    requires actions[j] == Load(id) && id in ms[j + 1].readers && ms[j + 1].readers[id].Done?
    ensures Inv(ms[j]) && |ms[i].levels| == |ms[j].levels| == MAX_HEIGHT && ms[i].levels[0] <= ms[j].levels[0]
    ensures Allocated(ms[j].s, ms[j].levels[0])
    ensures Finds(ms[j].s, ms[j].levels[0], ms[j + 1].readers[id].search, ms[j + 1].readers[id].answer)
  {
    hide Linked, WriterInv, ReaderInv, Apply, Finds;
    RunsKeep(ms, actions, i, j);
    LinkedBounds(ms[j].s, ms[j].levels);
    LoadKeeps(ms[j], id);
  }
}
