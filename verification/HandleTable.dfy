/** HandleTable of util/cache.cc: a hash table of chained handles that doubles as it fills. */
module HandleTables {
  import opened Wrappers
  import opened Bytes

  /** What never changes of a cache entry; the entry's links are kept by whoever owns them. */
  datatype Handle = Handle(id: nat, key: Bytes, hash: nat, charge: nat)

  type Link = Option<Handle>

  predicate Matches(h: Handle, key: Bytes, hash: nat) {
    h.hash == hash && h.key == key
  }

  /** The link to position `i` of a chain. */
  function LinkAt(chain: seq<Handle>, i: nat): Link {
    if i < |chain| then Some(chain[i]) else None
  }

  /** Following `nextHash` from `first` runs along the chain. */
  ghost predicate Chained(first: Link, nextHash: map<Handle, Link>, chain: seq<Handle>) {
    first == LinkAt(chain, 0) &&
    forall i :: 0 <= i < |chain| ==> chain[i] in nextHash && nextHash[chain[i]] == LinkAt(chain, i + 1)
  }

  ghost predicate DistinctLabels(chain: seq<Handle>) {
    forall i, j :: 0 <= i < j < |chain| ==> chain[i].hash != chain[j].hash || chain[i].key != chain[j].key
  }

  /** A slot: the head of a bucket, or the next_hash field of a handle. */
  datatype Slot = Bucket(index: nat) | FieldOf(handle: Handle)

  /** The buckets and chains of a table of `length` buckets that holds exactly `members`. */
  ghost predicate Holds(list: seq<Link>, nextHash: map<Handle, Link>, chains: seq<seq<Handle>>, members: set<Handle>)
    ensures Holds(list, nextHash, chains, members) ==> |list| == |chains| > 0
  {
    && |list| == |chains| > 0
    && (forall b :: 0 <= b < |list| ==> Chained(list[b], nextHash, chains[b]) && DistinctLabels(chains[b]))
    && (forall b, h :: 0 <= b < |list| && h in chains[b] ==> h in members && h.hash % |list| == b)
    && (forall h :: h in members ==> h in chains[h.hash % |list|])
  }

  ghost predicate IsPowerOfTwo(n: nat) {
    n == 1 || (n > 1 && n % 2 == 0 && IsPowerOfTwo(n / 2))
  }

  lemma ChainedFrame(first: Link, nextHash: map<Handle, Link>, chain: seq<Handle>, h: Handle, to: Link)
    requires Chained(first, nextHash, chain) && h !in chain
    ensures Chained(first, nextHash[h := to], chain)
  {
  }

  /** A handle put in place of position `i` of a chain, or at its end. */
  function Placed(chain: seq<Handle>, i: nat, h: Handle): seq<Handle>
    requires i <= |chain|
  {
    if i < |chain| then chain[i := h] else chain + [h]
  }

  /** Writing the link of position `i` of a chain. */
  function WriteFirst(first: Link, i: nat, to: Link): Link {
    if i == 0 then to else first
  }

  function WriteNext(nextHash: map<Handle, Link>, chain: seq<Handle>, i: nat, to: Link): map<Handle, Link>
    requires i <= |chain|
  {
    if i == 0 then nextHash else nextHash[chain[i - 1] := to]
  }

  ghost predicate DistinctHandles(chain: seq<Handle>) {
    forall i, j :: 0 <= i < j < |chain| ==> chain[i] != chain[j]
  }

  lemma LabelsTellApart(chain: seq<Handle>)
    requires DistinctLabels(chain)
    ensures DistinctHandles(chain)
  {
  }

  lemma LinkAtPlaced(chain: seq<Handle>, i: nat, h: Handle, k: nat)
    requires i <= |chain|
    ensures LinkAt(Placed(chain, i, h), k) == if k == i then Some(h) else LinkAt(chain, k)
  {
  }

  lemma PlacedChain(first: Link, nextHash: map<Handle, Link>, chain: seq<Handle>, i: nat, h: Handle)
    requires Chained(first, nextHash, chain) && DistinctHandles(chain) && i <= |chain| && h !in chain
    ensures var linked := nextHash[h := LinkAt(chain, i + 1)];
            Chained(WriteFirst(first, i, Some(h)), WriteNext(linked, chain, i, Some(h)), Placed(chain, i, h))
  {
    hide LinkAt;
    var placed := Placed(chain, i, h);
    var m := WriteNext(nextHash[h := LinkAt(chain, i + 1)], chain, i, Some(h));
    LinkAtPlaced(chain, i, h, 0);
    forall k | 0 <= k < |placed| ensures placed[k] in m && m[placed[k]] == LinkAt(placed, k + 1) {
      LinkAtPlaced(chain, i, h, k + 1);
      if k != i {
        assert placed[k] == chain[k] && nextHash[chain[k]] == LinkAt(chain, k + 1);
        if k + 1 != i && i > 0 {
          assert chain[k] != chain[i - 1];
        }
      } else {
        assert placed[k] == h && (i > 0 ==> chain[i - 1] in chain);
      }
    }
  }

  lemma PlacedLabels(chain: seq<Handle>, i: nat, h: Handle)
    requires DistinctLabels(chain) && i <= |chain|
    requires forall j :: 0 <= j < |chain| && j != i ==> !Matches(chain[j], h.key, h.hash)
    ensures DistinctLabels(Placed(chain, i, h))
  {
  }

  function Cut(chain: seq<Handle>, i: nat): (r: seq<Handle>)
    requires i < |chain|
    ensures |r| == |chain| - 1 && forall k :: 0 <= k < |r| ==> r[k] == chain[if k < i then k else k + 1]
  {
    chain[..i] + chain[i + 1..]
  }

  lemma CutChain(first: Link, nextHash: map<Handle, Link>, chain: seq<Handle>, i: nat)
    requires Chained(first, nextHash, chain) && DistinctHandles(chain) && i < |chain|
    ensures Chained(WriteFirst(first, i, LinkAt(chain, i + 1)), WriteNext(nextHash, chain, i, LinkAt(chain, i + 1)),
                    Cut(chain, i))
  {
    hide Cut;
    var cut := Cut(chain, i);
    var m := WriteNext(nextHash, chain, i, LinkAt(chain, i + 1));
    forall k | 0 <= k < |cut| ensures cut[k] in m && m[cut[k]] == LinkAt(cut, k + 1) {
      CutLink(nextHash, chain, i, k);
    }
  }

  lemma LinkAtCut(chain: seq<Handle>, i: nat, k: nat)
    requires i < |chain|
    ensures LinkAt(Cut(chain, i), k) == LinkAt(chain, if k < i then k else k + 1)
  {
  }

  lemma CutLink(nextHash: map<Handle, Link>, chain: seq<Handle>, i: nat, k: nat)
    requires DistinctHandles(chain) && i < |chain| && k < |Cut(chain, i)|
    requires forall i :: 0 <= i < |chain| ==> chain[i] in nextHash && nextHash[chain[i]] == LinkAt(chain, i + 1)
    ensures var m := WriteNext(nextHash, chain, i, LinkAt(chain, i + 1));
            Cut(chain, i)[k] in m && m[Cut(chain, i)[k]] == LinkAt(Cut(chain, i), k + 1)
  {
    hide Cut, LinkAt;
    var j := if k < i then k else k + 1;
    LinkAtCut(chain, i, k + 1);
    assert Cut(chain, i)[k] == chain[j] && nextHash[chain[j]] == LinkAt(chain, j + 1);
    if k + 1 != i && i > 0 {
      assert chain[j] != chain[i - 1];
    }
  }

  lemma CutLabels(chain: seq<Handle>, i: nat)
    requires DistinctLabels(chain) && i < |chain|
    ensures DistinctLabels(Cut(chain, i))
    ensures forall h :: h in Cut(chain, i) <==> h in chain && h != chain[i]
  {
    hide Cut;
    forall h | h in chain && h != chain[i] ensures h in Cut(chain, i) {
      var j :| 0 <= j < |chain| && chain[j] == h;
      assert Cut(chain, i)[if j < i then j else j - 1] == h;
    }
  }

  /** One bucket changes; what the others hold stays. */
  lemma HoldsAfter(list: seq<Link>, nextHash: map<Handle, Link>, chains: seq<seq<Handle>>, members: set<Handle>, b: nat,
                   first1: Link, nextHash1: map<Handle, Link>, chain1: seq<Handle>, members1: set<Handle>)
    requires Holds(list, nextHash, chains, members) && b < |list|
    requires Chained(first1, nextHash1, chain1) && DistinctLabels(chain1)
    requires forall c :: 0 <= c < |list| && c != b ==> Chained(list[c], nextHash1, chains[c])
    requires forall h: Handle :: h in chain1 <==> h in members1 && h.hash % |list| == b
    requires forall h: Handle :: h.hash % |list| != b ==> (h in members1 <==> h in members)
    ensures Holds(list[b := first1], nextHash1, chains[b := chain1], members1)
  {
    hide DistinctLabels, Chained;
  }

  /** A handle linked in at position `pos` of its bucket, in place of what matched it there. */
  lemma InsertHolds(list: seq<Link>, nextHash: map<Handle, Link>, chains: seq<seq<Handle>>, members: set<Handle>,
                    h: Handle, pos: nat)
    requires Holds(list, nextHash, chains, members) && h !in members && pos <= |chains[h.hash % |list|]|
    requires forall i :: 0 <= i < pos ==> !Matches(chains[h.hash % |list|][i], h.key, h.hash)
    requires pos < |chains[h.hash % |list|]| ==> Matches(chains[h.hash % |list|][pos], h.key, h.hash)
    ensures var b := h.hash % |list|;
            var chain := chains[b];
            Holds(list[b := WriteFirst(list[b], pos, Some(h))],
                  WriteNext(nextHash[h := LinkAt(chain, pos + 1)], chain, pos, Some(h)),
                  chains[b := Placed(chain, pos, h)],
                  (if pos < |chain| then members - {chain[pos]} else members) + {h})
  {
    hide DistinctLabels, Chained, DistinctHandles, Placed, WriteFirst;
    var b := h.hash % |list|;
    var chain := chains[b];
    assert Chained(list[b], nextHash, chain) && DistinctLabels(chain);
    LabelsTellApart(chain);
    AfterMatch(chain, pos, h.key, h.hash);
    PlacedChain(list[b], nextHash, chain, pos, h);
    PlacedLabels(chain, pos, h);
    PlacedMembers(chain, pos, h);
    var nextHash1 := WriteNext(nextHash[h := LinkAt(chain, pos + 1)], chain, pos, Some(h));
    forall c | 0 <= c < |list| && c != b ensures Chained(list[c], nextHash1, chains[c]) {
      ChainedFrame(list[c], nextHash, chains[c], h, LinkAt(chain, pos + 1));
      if pos > 0 {
        assert chain[pos - 1] in chain;
        ChainedFrame(list[c], nextHash[h := LinkAt(chain, pos + 1)], chains[c], chain[pos - 1], Some(h));
      }
    }
    HoldsAfter(list, nextHash, chains, members, b, WriteFirst(list[b], pos, Some(h)), nextHash1, Placed(chain, pos, h),
               (if pos < |chain| then members - {chain[pos]} else members) + {h});
  }

  lemma PlacedMembers(chain: seq<Handle>, pos: nat, h: Handle)
    requires DistinctHandles(chain) && pos <= |chain| && h !in chain
    ensures forall m :: m in Placed(chain, pos, h) <==> m == h || (m in chain && (pos == |chain| || m != chain[pos]))
  {
    forall m | m in chain && (pos == |chain| || m != chain[pos]) ensures m in Placed(chain, pos, h) {
      var j :| 0 <= j < |chain| && chain[j] == m;
      assert Placed(chain, pos, h)[j] == m;
    }
    assert Placed(chain, pos, h)[pos] == h;
  }

  lemma AfterMatch(chain: seq<Handle>, pos: nat, key: Bytes, hash: nat)
    requires DistinctLabels(chain) && pos <= |chain|
    requires forall i :: 0 <= i < pos ==> !Matches(chain[i], key, hash)
    requires pos < |chain| ==> Matches(chain[pos], key, hash)
    ensures forall j :: 0 <= j < |chain| && j != pos ==> !Matches(chain[j], key, hash)
  {
  }

  lemma RemoveHolds(list: seq<Link>, nextHash: map<Handle, Link>, chains: seq<seq<Handle>>, members: set<Handle>,
                    b: nat, pos: nat)
    requires Holds(list, nextHash, chains, members) && b < |list| && pos < |chains[b]|
    ensures var chain := chains[b];
            Holds(list[b := WriteFirst(list[b], pos, LinkAt(chain, pos + 1))],
                  WriteNext(nextHash, chain, pos, LinkAt(chain, pos + 1)),
                  chains[b := Cut(chain, pos)], members - {chain[pos]})
  {
    hide DistinctLabels, Chained, DistinctHandles, Cut, WriteFirst;
    var chain := chains[b];
    var to := LinkAt(chain, pos + 1);
    assert Chained(list[b], nextHash, chain) && DistinctLabels(chain);
    LabelsTellApart(chain);
    CutChain(list[b], nextHash, chain, pos);
    CutLabels(chain, pos);
    assert chain[pos] in chain;
    forall c | 0 <= c < |list| && c != b ensures Chained(list[c], WriteNext(nextHash, chain, pos, to), chains[c]) {
      if pos > 0 {
        assert chain[pos - 1] in chain;
        ChainedFrame(list[c], nextHash, chains[c], chain[pos - 1], to);
      }
    }
    HoldsAfter(list, nextHash, chains, members, b, WriteFirst(list[b], pos, to), WriteNext(nextHash, chain, pos, to),
               Cut(chain, pos), members - {chain[pos]});
  }

  /** A handle linked in at the front of its bucket, as Resize does. */
  lemma FrontHolds(list: seq<Link>, nextHash: map<Handle, Link>, chains: seq<seq<Handle>>, members: set<Handle>,
                   h: Handle)
    requires Holds(list, nextHash, chains, members) && h !in members
    requires forall m :: m in members ==> !Matches(m, h.key, h.hash)
    ensures var b := h.hash % |list|;
            Holds(list[b := Some(h)], nextHash[h := list[b]], chains[b := [h] + chains[b]], members + {h})
  {
    hide DistinctLabels, Chained;
    var b := h.hash % |list|;
    assert Chained(list[b], nextHash, chains[b]) && DistinctLabels(chains[b]);
    FrontChain(list[b], nextHash, chains[b], h);
    forall c | 0 <= c < |list| && c != b ensures Chained(list[c], nextHash[h := list[b]], chains[c]) {
      ChainedFrame(list[c], nextHash, chains[c], h, list[b]);
    }
    HoldsAfter(list, nextHash, chains, members, b, Some(h), nextHash[h := list[b]], [h] + chains[b], members + {h});
  }

  lemma FrontChain(first: Link, nextHash: map<Handle, Link>, chain: seq<Handle>, h: Handle)
    requires Chained(first, nextHash, chain) && DistinctLabels(chain) && h !in chain
    requires forall m :: m in chain ==> !Matches(m, h.key, h.hash)
    ensures Chained(Some(h), nextHash[h := first], [h] + chain) && DistinctLabels([h] + chain)
  {
    var t := [h] + chain;
    forall k | 0 <= k < |t| ensures t[k] in nextHash[h := first] && nextHash[h := first][t[k]] == LinkAt(t, k + 1) {
      if k > 0 {
        assert t[k] == chain[k - 1] && nextHash[chain[k - 1]] == LinkAt(chain, k);
      }
    }
    FrontLabels(chain, h);
  }

  lemma FrontLabels(chain: seq<Handle>, h: Handle)
    requires DistinctLabels(chain) && forall m :: m in chain ==> !Matches(m, h.key, h.hash)
    ensures DistinctLabels([h] + chain)
  {
    var t := [h] + chain;
    forall i, j | 0 <= i < j < |t| ensures t[i].hash != t[j].hash || t[i].key != t[j].key {
      assert t[j] == chain[j - 1] && chain[j - 1] in chain;
      if i > 0 {
        assert t[i] == chain[i - 1];
      }
    }
  }

  class HandleTable {
    var elems: nat
    var list: seq<Link>                   // list_ and length_
    var nextHash: map<Handle, Link>       // the next_hash fields of all handles
    ghost var chains: seq<seq<Handle>>
    ghost var members: set<Handle>

    ghost predicate Valid()
      reads this
    {
      && Holds(list, nextHash, chains, members)
      && elems == |members| <= |list| && IsPowerOfTwo(|list|)
    }

    constructor ()
      ensures Valid() && members == {}
    {
      elems := 0;
      list := [None, None, None, None];
      nextHash := map[];
      chains := [[], [], [], []];
      members := {};
      assert IsPowerOfTwo(1) && IsPowerOfTwo(2) && IsPowerOfTwo(4);
    }

    function Read(slot: Slot): Link
      requires slot.Bucket? ==> slot.index < |list|
      requires slot.FieldOf? ==> slot.handle in nextHash
      reads this
    {
      match slot
      case Bucket(index) => list[index]
      case FieldOf(handle) => nextHash[handle]
    }

    /** The slot is the one that leads to position `i` of the chain. */
    ghost predicate LeadsTo(slot: Slot, b: nat, i: nat)
      requires b < |chains| && i <= |chains[b]|
    reads this
    {
      slot == if i == 0 then Bucket(b) else FieldOf(chains[b][i - 1])
    }

    /** The slot that points to a matching entry, or the trailing slot of its chain. */
    method FindPointer(key: Bytes, hash: nat) returns (ptr: Slot, ghost pos: nat)
      requires Valid()
      ensures var b := hash % |list|;
              && pos <= |chains[b]| && LeadsTo(ptr, b, pos)
              && (forall i :: 0 <= i < pos ==> !Matches(chains[b][i], key, hash))
              && (pos < |chains[b]| ==> Matches(chains[b][pos], key, hash))
      ensures ptr.Bucket? ==> ptr.index < |list|
      ensures ptr.FieldOf? ==> ptr.handle in nextHash
      ensures Read(ptr) == LinkAt(chains[hash % |list|], pos)
    {
      hide DistinctLabels, IsPowerOfTwo, Holds, Matches;
      BucketChained(list, nextHash, chains, members, hash % |list|);
      ghost var b := hash % |list|;   // length_ is a power of two: masking is the remainder
      ptr := Bucket(hash % |list|);
      pos := 0;
      while Read(ptr).Some? && !Matches(Read(ptr).value, key, hash)
        invariant pos <= |chains[b]| && LeadsTo(ptr, b, pos)
        invariant ptr.Bucket? ==> ptr.index < |list|
        invariant ptr.FieldOf? ==> ptr.handle in nextHash
        invariant Read(ptr) == LinkAt(chains[b], pos)
        invariant forall i :: 0 <= i < pos ==> !Matches(chains[b][i], key, hash)
        decreases |chains[b]| - pos
      {
        ptr := FieldOf(Read(ptr).value);
        pos := pos + 1;
      }
    }

    method Lookup(key: Bytes, hash: nat) returns (h: Link)
      requires Valid()
      ensures h.Some? ==> h.value in members && Matches(h.value, key, hash)
      ensures forall m :: m in members && Matches(m, key, hash) ==> h == Some(m)
    {
      var ptr, pos := FindPointer(key, hash);
      h := Read(ptr);
      OneMatches(list, nextHash, chains, members, key, hash, pos);
    }

    /** Stores a link in a slot. */
    method Write(slot: Slot, to: Link)
      requires slot.Bucket? ==> slot.index < |list|
      modifies `list, `nextHash
      ensures list == if slot.Bucket? then old(list)[slot.index := to] else old(list)
      ensures nextHash == if slot.FieldOf? then old(nextHash)[slot.handle := to] else old(nextHash)
    {
      match slot {
        case Bucket(index) => list := list[index := to];
        case FieldOf(handle) => nextHash := nextHash[handle := to];
      }
    }

    /** Returns the entry that `h` displaced. */
    method Insert(h: Handle) returns (displaced: Link)
      requires Valid() && h !in members
      modifies this
      ensures Valid()
      ensures displaced.Some? ==> displaced.value in old(members) && Matches(displaced.value, h.key, h.hash)
      ensures forall m :: m in old(members) && Matches(m, h.key, h.hash) ==> displaced == Some(m)
      ensures members == (if displaced.Some? then old(members) - {displaced.value} else old(members)) + {h}
    {
      hide Holds, IsPowerOfTwo, Placed, Matches, Chained, DistinctLabels;
      var ptr, pos := FindPointer(h.key, h.hash);
      displaced := Read(ptr);
      ghost var b := h.hash % |list|;
      ghost var chain := chains[b];
      OneMatches(list, nextHash, chains, members, h.key, h.hash, pos);
      InsertHolds(list, nextHash, chains, members, h, pos);
      NextOf(list, nextHash, chains, members, b, pos);
      SlotWrites(list, nextHash[h := LinkAt(chain, pos + 1)], chain, b, pos, Some(h));
      nextHash := nextHash[h := if displaced.None? then None else nextHash[displaced.value]];
      Write(ptr, Some(h));
      chains := chains[b := Placed(chain, pos, h)];
      members := (if displaced.Some? then members - {displaced.value} else members) + {h};
      if displaced.None? {
        elems := elems + 1;
        if elems > |list| {
          Resize();
        }
      }
    }

    method Remove(key: Bytes, hash: nat) returns (removed: Link)
      requires Valid()
      modifies this
      ensures Valid()
      ensures removed.Some? ==> removed.value in old(members) && Matches(removed.value, key, hash)
      ensures forall m :: m in old(members) && Matches(m, key, hash) ==> removed == Some(m)
      ensures members == if removed.Some? then old(members) - {removed.value} else old(members)
    {
      hide Holds, IsPowerOfTwo, Cut, Matches, Chained, DistinctLabels;
      var ptr, pos := FindPointer(key, hash);
      removed := Read(ptr);
      ghost var b := hash % |list|;
      ghost var chain := chains[b];
      OneMatches(list, nextHash, chains, members, key, hash, pos);
      if removed.Some? {
        RemoveHolds(list, nextHash, chains, members, b, pos);
        NextOf(list, nextHash, chains, members, b, pos);
        SlotWrites(list, nextHash, chain, b, pos, LinkAt(chain, pos + 1));
        Write(ptr, nextHash[removed.value]);
        elems := elems - 1;
        chains := chains[b := Cut(chain, pos)];
        members := members - {removed.value};
      }
    }

    /** Moves every handle to the front of its bucket in a table of at least as many buckets as handles. */
    method Resize()
      requires Holds(list, nextHash, chains, members) && elems == |members|
      modifies this
      ensures Valid() && members == old(members) && elems == old(elems)
    {
      hide Moving, Holds, IsPowerOfTwo;
      var newLength := NewLength(elems);
      var newList: seq<Link> := seq(newLength, i => None);
      ghost var newChains: seq<seq<Handle>> := seq(newLength, i => []);
      ghost var moved: set<Handle> := {};
      NothingMoved(list, nextHash, chains, members, newLength);
      var count := 0;
      for i := 0 to |list|
        invariant Moving(list, old(nextHash), chains, members, newList, nextHash, newChains, moved)
        invariant |newList| == newLength && count == |moved| && moved == Below(members, |list|, i)
        invariant unchanged(`list, `chains, `members, `elems)
      {
        newList, newChains, moved, count := MoveBucket(old(nextHash), i, newList, newChains, moved, count);
      }
      AllMoved(list, old(nextHash), chains, members, newList, nextHash, newChains, moved);
      assert elems == count;
      list := newList;
      chains := newChains;
    }

    /** The inner loop of Resize: one bucket of the old table. */
    method MoveBucket(ghost nextHash0: map<Handle, Link>, i: nat, newList: seq<Link>, ghost newChains: seq<seq<Handle>>,
                      ghost moved: set<Handle>, count: nat)
      returns (newList1: seq<Link>, ghost newChains1: seq<seq<Handle>>, ghost moved1: set<Handle>, count1: nat)
      requires Moving(list, nextHash0, chains, members, newList, nextHash, newChains, moved)
      requires i < |list| == |chains| && count == |moved| && moved == Below(members, |list|, i)
      modifies `nextHash
      ensures Moving(list, nextHash0, chains, members, newList1, nextHash, newChains1, moved1)
      ensures |newList1| == |newList| && count1 == |moved1| && moved1 == Below(members, |list|, i + 1)
    {
      hide Moving, LinkAt, Below, First;
      var h := list[i];
      ghost var k := 0;
      newList1, newChains1, moved1, count1 := newList, newChains, moved, count;
      BucketStart(list, nextHash0, chains, members, newList, nextHash, newChains, moved, i);
      while h.Some?
        invariant k <= |chains[i]| && h == LinkAt(chains[i], k) && |newList1| == |newList| > 0 && count1 == |moved1|
        invariant Moving(list, nextHash0, chains, members, newList1, nextHash, newChains1, moved1)
        invariant moved1 == Below(members, |list|, i) + First(chains[i], k)
        decreases |chains[i]| - k
      {
        MoveOne(list, nextHash0, chains, members, newList1, nextHash, newChains1, moved1, i, k);
        var next := nextHash[h.value];
        var b := h.value.hash % |newList1|;
        nextHash := nextHash[h.value := newList1[b]];
        newChains1 := newChains1[b := [h.value] + newChains1[b]];
        newList1 := newList1[b := h];
        moved1 := moved1 + {h.value};
        h := next;
        k := k + 1;
        count1 := count1 + 1;
      }
      BucketEnd(list, nextHash0, chains, members, newList1, nextHash, newChains1, moved1, i, k);
    }
  }

  /** Resize half way: the old chains are intact where not yet moved, and the new table holds the moved handles. */
  ghost predicate Moving(list: seq<Link>, nextHash0: map<Handle, Link>, chains: seq<seq<Handle>>, members: set<Handle>,
                         newList: seq<Link>, nextHash: map<Handle, Link>, newChains: seq<seq<Handle>>,
                         moved: set<Handle>)
    ensures Moving(list, nextHash0, chains, members, newList, nextHash, newChains, moved) ==>
            |list| == |chains| > 0 && |newList| == |newChains| > 0
  {
    && Holds(list, nextHash0, chains, members) && Holds(newList, nextHash, newChains, moved)
    && forall g :: g in members && g !in moved && g in nextHash0 ==> g in nextHash && nextHash[g] == nextHash0[g]
  }

  /** The members of the buckets before `i`. */
  ghost function Below(members: set<Handle>, length: nat, i: nat): set<Handle>
    requires length > 0
  {
    set h | h in members && h.hash % length < i
  }

  ghost function First(chain: seq<Handle>, k: nat): set<Handle>
    requires k <= |chain|
  {
    set i | 0 <= i < k :: chain[i]
  }

  lemma NothingMoved(list: seq<Link>, nextHash: map<Handle, Link>, chains: seq<seq<Handle>>, members: set<Handle>,
                     length: nat)
    requires Holds(list, nextHash, chains, members) && length > 0
    ensures Moving(list, nextHash, chains, members, seq(length, i => None), nextHash, seq(length, i => []), {})
    ensures Below(members, |list|, 0) == {}
  {
    NothingHeld(length, nextHash);
  }

  lemma AllMoved(list: seq<Link>, nextHash0: map<Handle, Link>, chains: seq<seq<Handle>>, members: set<Handle>,
                 newList: seq<Link>, nextHash: map<Handle, Link>, newChains: seq<seq<Handle>>, moved: set<Handle>)
    requires Moving(list, nextHash0, chains, members, newList, nextHash, newChains, moved)
    requires moved == Below(members, |list|, |list|)
    ensures moved == members && Holds(newList, nextHash, newChains, members)
  {
    hide Holds;
  }

  lemma BucketStart(list: seq<Link>, nextHash0: map<Handle, Link>, chains: seq<seq<Handle>>, members: set<Handle>,
                    newList: seq<Link>, nextHash: map<Handle, Link>, newChains: seq<seq<Handle>>, moved: set<Handle>,
                    i: nat)
    requires Moving(list, nextHash0, chains, members, newList, nextHash, newChains, moved) && i < |list|
    requires moved == Below(members, |list|, i)
    ensures list[i] == LinkAt(chains[i], 0) && moved == moved + First(chains[i], 0)
  {
    assert Chained(list[i], nextHash0, chains[i]);
  }

  lemma BucketEnd(list: seq<Link>, nextHash0: map<Handle, Link>, chains: seq<seq<Handle>>, members: set<Handle>,
                  newList: seq<Link>, nextHash: map<Handle, Link>, newChains: seq<seq<Handle>>, moved: set<Handle>,
                  i: nat, k: nat)
    requires Moving(list, nextHash0, chains, members, newList, nextHash, newChains, moved) && i < |list|
    requires k <= |chains[i]| && LinkAt(chains[i], k) == None
    requires moved == Below(members, |list|, i) + First(chains[i], k)
    ensures moved == Below(members, |list|, i + 1)
  {
    hide Chained, DistinctLabels;
  }

  /** The next handle to move is new to the new table, and its own link still leads to the one after it. */
  lemma MoveOne(list: seq<Link>, nextHash0: map<Handle, Link>, chains: seq<seq<Handle>>, members: set<Handle>,
                newList: seq<Link>, nextHash: map<Handle, Link>, newChains: seq<seq<Handle>>, moved: set<Handle>,
                i: nat, k: nat)
    requires Moving(list, nextHash0, chains, members, newList, nextHash, newChains, moved) && i < |list|
    requires k <= |chains[i]| && LinkAt(chains[i], k).Some? && moved == Below(members, |list|, i) + First(chains[i], k)
    ensures k < |chains[i]| && LinkAt(chains[i], k) == Some(chains[i][k])
    ensures var h := chains[i][k];
            var b := h.hash % |newList|;
            && h in nextHash && nextHash[h] == LinkAt(chains[i], k + 1) && h !in moved
            && Moving(list, nextHash0, chains, members, newList[b := Some(h)], nextHash[h := newList[b]],
                      newChains[b := [h] + newChains[b]], moved + {h})
            && moved + {h} == Below(members, |list|, i) + First(chains[i], k + 1)
  {
    hide Holds;
    var h := chains[i][k];
    MoveFresh(list, nextHash0, chains, members, moved, i, k);
    FrontHolds(newList, nextHash, newChains, moved, h);
  }

  lemma MoveFresh(list: seq<Link>, nextHash: map<Handle, Link>, chains: seq<seq<Handle>>, members: set<Handle>,
                  moved: set<Handle>, i: nat, k: nat)
    requires Holds(list, nextHash, chains, members) && i < |list| && k < |chains[i]|
    requires moved == Below(members, |list|, i) + First(chains[i], k)
    ensures var h := chains[i][k];
            && h in members && h !in moved && h in nextHash && nextHash[h] == LinkAt(chains[i], k + 1)
            && forall m :: m in moved ==> !Matches(m, h.key, h.hash)
  {
    var h := chains[i][k];
    assert h in chains[i] && Chained(list[i], nextHash, chains[i]) && DistinctLabels(chains[i]);
    forall m | m in moved ensures !Matches(m, h.key, h.hash) && m != h {
      if m in First(chains[i], k) {
        var j :| 0 <= j < k && chains[i][j] == m;
      }
    }
  }

  /** The smallest of 4, 8, 16, … that is no smaller than `elems`. */
  method NewLength(elems: nat) returns (n: nat)
    ensures n >= 4 && n >= elems && IsPowerOfTwo(n)
    ensures n > 4 ==> n / 2 < elems
  {
    n := 4;
    assert IsPowerOfTwo(1) && IsPowerOfTwo(2) && IsPowerOfTwo(4);
    while n < elems
      invariant n >= 4 && IsPowerOfTwo(n) && (n > 4 ==> n / 2 < elems)
      decreases elems - n
    {
      assert n * 2 / 2 == n;
      n := n * 2;
    }
  }

  lemma NothingHeld(length: nat, nextHash: map<Handle, Link>)
    requires length > 0
    ensures Holds(seq(length, i => None), nextHash, seq(length, i => []), {})
  {
  }

  lemma NextOf(list: seq<Link>, nextHash: map<Handle, Link>, chains: seq<seq<Handle>>, members: set<Handle>, b: nat,
               pos: nat)
    requires Holds(list, nextHash, chains, members) && b < |list| && pos <= |chains[b]|
    ensures pos < |chains[b]| ==> chains[b][pos] in nextHash && nextHash[chains[b][pos]] == LinkAt(chains[b], pos + 1)
    ensures pos > 0 ==> chains[b][pos - 1] in chains[b]
    ensures forall h :: h in chains[b] ==> h in members
  {
    assert Chained(list[b], nextHash, chains[b]);
  }

  lemma BucketChained(list: seq<Link>, nextHash: map<Handle, Link>, chains: seq<seq<Handle>>, members: set<Handle>,
                      b: nat)
    requires Holds(list, nextHash, chains, members) && b < |list|
    ensures |list| == |chains| && Chained(list[b], nextHash, chains[b]) && DistinctLabels(chains[b])
  {
  }

  /** What FindPointer stops at is the one member that matches, if there is one. */
  lemma OneMatches(list: seq<Link>, nextHash: map<Handle, Link>, chains: seq<seq<Handle>>, members: set<Handle>,
                   key: Bytes, hash: nat, pos: nat)
    requires Holds(list, nextHash, chains, members) && pos <= |chains[hash % |list|]|
    requires forall i :: 0 <= i < pos ==> !Matches(chains[hash % |list|][i], key, hash)
    requires pos < |chains[hash % |list|]| ==> Matches(chains[hash % |list|][pos], key, hash)
    ensures forall m :: m in members && Matches(m, key, hash) ==> LinkAt(chains[hash % |list|], pos) == Some(m)
    ensures pos < |chains[hash % |list|]| ==> chains[hash % |list|][pos] in members
  {
    hide Chained;
    var chain := chains[hash % |list|];
    assert DistinctLabels(chain);
    AfterMatch(chain, pos, key, hash);
    if pos < |chain| {
      assert chain[pos] in chain;
    }
  }

  /** The two forms of a slot, and what a write through it changes. */
  lemma SlotWrites(list: seq<Link>, nextHash: map<Handle, Link>, chain: seq<Handle>, b: nat, pos: nat, to: Link)
    requires b < |list| && pos <= |chain|
    ensures pos == 0 ==>
            list[b := WriteFirst(list[b], pos, to)] == list[b := to] && WriteNext(nextHash, chain, pos, to) == nextHash
    ensures pos > 0 ==> list[b := WriteFirst(list[b], pos, to)] == list
                        && WriteNext(nextHash, chain, pos, to) == nextHash[chain[pos - 1] := to]
  {
  }
}
