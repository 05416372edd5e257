/** LRUCache of util/cache.cc: reference counts, two linked lists and a hash table kept in agreement. */
module LruCaches {
  import opened Wrappers
  import opened Bytes
  import opened HandleTables

  // --- What the cache is, lists as sequences ---

  /** `lru` runs from oldest to newest; `clients` counts the references handed out and not yet released;
      `refs` has the live entries, `deletions` the entries whose deleter has run. */
  datatype Cache = Cache(lru: seq<Handle>, inUse: seq<Handle>, refs: map<Handle, nat>, inCache: set<Handle>,
                         clients: multiset<Handle>, usage: nat, deletions: seq<Handle>, issued: seq<Handle>)

  const NO_ENTRIES := Cache([], [], map[], {}, multiset{}, 0, [], [])

  ghost predicate NoRepeats(s: seq<Handle>) {
    forall i, j :: 0 <= i < j < |s| ==> s[i] != s[j]
  }

  function Charge(s: seq<Handle>): nat {
    if s == [] then 0 else s[0].charge + Charge(s[1..])
  }

  function Without(s: seq<Handle>, e: Handle): seq<Handle> {
    if s == [] then [] else if s[0] == e then s[1..] else [s[0]] + Without(s[1..], e)
  }

  /** Cached entries are on exactly one list: `lru` if only the cache refers to them, `inUse` otherwise. */
  ghost predicate OnLists(c: Cache) {
    && NoRepeats(c.lru) && NoRepeats(c.inUse)
    && (forall e :: e in c.lru ==> e !in c.inUse)
    && (forall e :: e in c.inCache <==> e in c.lru || e in c.inUse)
    && (forall e :: e in c.inCache ==> e in c.refs)
    && (forall e :: e in c.lru ==> c.refs[e] == 1)
    && (forall e :: e in c.inUse ==> c.refs[e] >= 2)
  }

  /** A live entry has one reference for each client hold, and one for the cache if it is cached. */
  ghost predicate Counted(c: Cache) {
    && (forall e :: e in c.refs ==> c.refs[e] == c.clients[e] + (if e in c.inCache then 1 else 0) && c.refs[e] > 0)
    && (forall e :: e in c.clients ==> e in c.refs)
  }

  /** Every entry ever created is live or deleted, never both, and deleted at most once. */
  ghost predicate Accounted(c: Cache) {
    && NoRepeats(c.deletions)
    && (forall i :: 0 <= i < |c.issued| ==> c.issued[i].id == i)
    && (forall e :: e in c.issued <==> e in c.refs || e in c.deletions)
    && (forall e :: e in c.refs ==> e !in c.deletions)
  }

  ghost predicate Consistent(c: Cache) {
    OnLists(c) && Counted(c) && Accounted(c) && c.usage == Charge(c.lru) + Charge(c.inUse)
  }

  /** A client takes a reference. */
  function Referred(c: Cache, e: Handle): Cache
    requires e in c.refs
  {
    var d := c.(refs := c.refs[e := c.refs[e] + 1], clients := c.clients + multiset{e});
    if c.refs[e] == 1 && e in c.inCache then d.(lru := Without(c.lru, e), inUse := c.inUse + [e]) else d
  }

  /** A reference goes away: the last one takes the entry along, the last client's puts it on `lru`. */
  function Unreferred(c: Cache, e: Handle): Cache
    requires e in c.refs && c.refs[e] > 0
  {
    if c.refs[e] == 1 then c.(refs := c.refs - {e}, deletions := c.deletions + [e])
    else
      var d := c.(refs := c.refs[e := c.refs[e] - 1]);
      if e in c.inCache && c.refs[e] == 2 then d.(inUse := Without(c.inUse, e), lru := c.lru + [e]) else d
  }

  function Released(c: Cache, e: Handle): Cache
    requires e in c.refs && c.refs[e] > 0
  {
    Unreferred(c.(clients := c.clients - multiset{e}), e)
  }

  /** The cache gives an entry up. */
  function Dropped(c: Cache, e: Handle): Cache
    requires e in c.refs && c.refs[e] > 0 && e.charge <= c.usage
  {
    Unreferred(c.(lru := Without(c.lru, e), inUse := Without(c.inUse, e), inCache := c.inCache - {e},
                  usage := c.usage - e.charge), e)
  }

  /** A new entry, cached or not, held by the client that inserted it. */
  function Created(c: Cache, e: Handle, cached: bool): Cache {
    var d := c.(clients := c.clients + multiset{e}, issued := c.issued + [e],
                refs := c.refs[e := if cached then 2 else 1]);
    if cached then d.(inUse := c.inUse + [e], inCache := c.inCache + {e}, usage := c.usage + e.charge) else d
  }

  // --- Sequence facts ---

  lemma {:induction false} WithoutMembers(s: seq<Handle>, e: Handle)
    requires NoRepeats(s)
    ensures NoRepeats(Without(s, e)) && forall h :: h in Without(s, e) <==> h in s && h != e
    ensures e !in s ==> Without(s, e) == s
    ensures e in s ==> Charge(s) == Charge(Without(s, e)) + e.charge
  {
    if s != [] {
      WithoutMembers(s[1..], e);
      if s[0] != e {
        NoRepeatsPrepend(s[0], Without(s[1..], e));
        assert Without(s, e)[1..] == Without(s[1..], e);
        assert s == [s[0]] + s[1..];
      }
    }
  }

  lemma {:induction false} ChargeAppend(s: seq<Handle>, e: Handle)
    ensures Charge(s + [e]) == Charge(s) + e.charge
  {
    if s == [] {
      assert s + [e] == [e];
    } else {
      ChargeAppend(s[1..], e);
      assert (s + [e])[1..] == s[1..] + [e];
    }
  }

  lemma NoRepeatsPrepend(e: Handle, s: seq<Handle>)
    requires NoRepeats(s) && e !in s
    ensures NoRepeats([e] + s)
  {
  }

  lemma NoRepeatsAppend(s: seq<Handle>, e: Handle)
    requires NoRepeats(s) && e !in s
    ensures NoRepeats(s + [e])
  {
  }

  // --- Every operation keeps the cache consistent ---

  lemma OnlyHere(c: Cache, e: Handle)
    requires Consistent(c) && e in c.refs
    ensures e in c.lru <==> e in c.inCache && c.refs[e] == 1
    ensures e in c.inUse <==> e in c.inCache && c.refs[e] >= 2
  {
  }

  lemma ReferredKeeps(c: Cache, e: Handle)
    requires Consistent(c) && e in c.inCache
    ensures e in c.refs && Consistent(Referred(c, e))
    ensures e in c.lru <==> c.refs[e] == 1
  {
    hide NoRepeats, Charge, Without;
    OnlyHere(c, e);
    WithoutMembers(c.lru, e);
    ChargeAppend(c.inUse, e);
    if e !in c.inUse {
      NoRepeatsAppend(c.inUse, e);
    }
  }

  lemma ReleasedKeeps(c: Cache, e: Handle)
    requires Consistent(c) && e in c.clients
    ensures e in c.refs && c.refs[e] > 0 && Consistent(Released(c, e))
    ensures e in c.inUse <==> e in c.inCache
  {
    hide OnLists, Counted, Accounted, Charge, Without, NoRepeats, Unreferred;
    assert e in c.refs && c.refs[e] > 0 by { CountOf(c, e); }
    ReleasedLists(c, e);
    ReleasedCounts(c, e);
    ReleasedAccounts(c, e);
  }

  lemma ReleasedLists(c: Cache, e: Handle)
    requires Consistent(c) && e in c.clients && e in c.refs && c.refs[e] > 0
    ensures OnLists(Released(c, e)) && Released(c, e).usage == Charge(Released(c, e).lru) + Charge(Released(c, e).inUse)
    ensures e in c.inUse <==> e in c.inCache
  {
    hide NoRepeats, Charge, Without, Accounted;
    OnlyHere(c, e);
    WithoutMembers(c.inUse, e);
    ChargeAppend(c.lru, e);
    if e !in c.lru {
      NoRepeatsAppend(c.lru, e);
    }
  }

  lemma ReleasedCounts(c: Cache, e: Handle)
    requires Consistent(c) && e in c.clients && e in c.refs && c.refs[e] > 0
    ensures Counted(Released(c, e))
  {
    hide NoRepeats, Charge, Without, Accounted, OnLists;
  }

  lemma ReleasedAccounts(c: Cache, e: Handle)
    requires Consistent(c) && e in c.refs && c.refs[e] > 0
    ensures Accounted(Released(c, e))
  {
    hide NoRepeats, Charge, Without, Counted, OnLists;
    if e !in c.deletions {
      NoRepeatsAppend(c.deletions, e);
    }
  }

  lemma DroppedKeeps(c: Cache, e: Handle)
    requires Consistent(c) && e in c.inCache
    ensures e in c.refs && c.refs[e] > 0 && e.charge <= c.usage && Consistent(Dropped(c, e))
  {
    hide NoRepeats, Charge, Without;
    OnlyHere(c, e);
    WithoutMembers(c.lru, e);
    WithoutMembers(c.inUse, e);
    if e !in c.deletions {
      NoRepeatsAppend(c.deletions, e);
    }
  }

  lemma CreatedKeeps(c: Cache, e: Handle, cached: bool)
    requires Consistent(c) && e.id == |c.issued|
    ensures Consistent(Created(c, e, cached)) && e !in c.refs && e !in c.inCache && e !in c.lru && e !in c.inUse
  {
    hide OnLists, Counted, Accounted, Charge, NoRepeats, Created;
    NewToAll(c, e);
    CreatedLists(c, e, cached);
    CreatedCounts(c, e, cached);
    CreatedAccounts(c, e, cached);
  }

  lemma NewToAll(c: Cache, e: Handle)
    requires Consistent(c) && e.id == |c.issued|
    ensures e !in c.issued && e !in c.refs && e !in c.inCache && e !in c.lru && e !in c.inUse && e !in c.deletions
    ensures e !in c.clients
  {
    hide NoRepeats, Charge;
    assert e !in c.issued;
  }

  lemma CreatedLists(c: Cache, e: Handle, cached: bool)
    requires Consistent(c) && e !in c.refs && e !in c.inCache && e !in c.lru && e !in c.inUse
    ensures OnLists(Created(c, e, cached))
    ensures Created(c, e, cached).usage == Charge(Created(c, e, cached).lru) + Charge(Created(c, e, cached).inUse)
  {
    hide NoRepeats, Charge, Accounted, Counted;
    ChargeAppend(c.inUse, e);
    NoRepeatsAppend(c.inUse, e);
  }

  lemma CreatedCounts(c: Cache, e: Handle, cached: bool)
    requires Counted(c) && e !in c.refs && e !in c.inCache && e !in c.clients
    ensures Counted(Created(c, e, cached))
  {
  }

  lemma CreatedAccounts(c: Cache, e: Handle, cached: bool)
    requires Accounted(c) && e !in c.deletions && e.id == |c.issued|
    ensures Accounted(Created(c, e, cached))
  {
    hide NoRepeats;
  }

  // --- The two circular lists ---

  /** The dummy heads lru_ and in_use_, and the entries. */
  datatype Node = LruHead | InUseHead | Entry(handle: Handle)

  /** Around the ring: the head at both ends, the entries between. */
  function At(head: Node, s: seq<Handle>, i: nat): Node {
    if 1 <= i <= |s| then Entry(s[i - 1]) else head
  }

  /** The node at position `i` and the one after it point at each other. */
  ghost predicate Joined(head: Node, s: seq<Handle>, next: map<Node, Node>, prev: map<Node, Node>, i: nat) {
    && At(head, s, i) in next && next[At(head, s, i)] == At(head, s, i + 1)
    && At(head, s, i + 1) in prev && prev[At(head, s, i + 1)] == At(head, s, i)
  }

  ghost predicate Ring(head: Node, s: seq<Handle>, next: map<Node, Node>, prev: map<Node, Node>) {
    forall i :: 0 <= i <= |s| ==> Joined(head, s, next, prev, i)
  }

  ghost predicate Rings(lru: seq<Handle>, inUse: seq<Handle>, next: map<Node, Node>, prev: map<Node, Node>) {
    && Ring(LruHead, lru, next, prev) && Ring(InUseHead, inUse, next, prev)
    && NoRepeats(lru) && NoRepeats(inUse) && forall e :: e in lru ==> e !in inUse
  }

  predicate OnRing(n: Node, head: Node, s: seq<Handle>) {
    n == head || (n.Entry? && n.handle in s)
  }

  lemma AtOnRing(head: Node, s: seq<Handle>, i: nat)
    ensures OnRing(At(head, s, i), head, s)
  {
  }

  lemma AtDistinct(head: Node, s: seq<Handle>, i: nat, j: nat)
    requires NoRepeats(s) && !head.Entry? && i <= |s| && j <= |s| && i != j
    ensures At(head, s, i) != At(head, s, j) && At(head, s, i + 1) != At(head, s, j + 1)
  {
  }

  /** Links of nodes off the ring may change. */
  lemma RingFrame(head: Node, s: seq<Handle>, next: map<Node, Node>, prev: map<Node, Node>, a: Node, x: Node, b: Node,
                  y: Node)
    requires Ring(head, s, next, prev) && !OnRing(a, head, s) && !OnRing(b, head, s)
    ensures Ring(head, s, next[a := x], prev[b := y])
  {
    var next1, prev1 := next[a := x], prev[b := y];
    forall i | 0 <= i <= |s| ensures Joined(head, s, next1, prev1, i) {
      assert Joined(head, s, next, prev, i);
      AtOnRing(head, s, i);
      AtOnRing(head, s, i + 1);
    }
  }

  /** LRU_Remove: the neighbours are linked to each other. */
  lemma RingCut(head: Node, s: seq<Handle>, next: map<Node, Node>, prev: map<Node, Node>, i: nat)
    requires Ring(head, s, next, prev) && NoRepeats(s) && !head.Entry? && i < |s|
    ensures Entry(s[i]) in prev && Entry(s[i]) in next
    ensures prev[Entry(s[i])] == At(head, s, i) && next[Entry(s[i])] == At(head, s, i + 2)
    ensures Ring(head, Cut(s, i), next[At(head, s, i) := At(head, s, i + 2)],
                 prev[At(head, s, i + 2) := At(head, s, i)])
  {
    hide Cut, NoRepeats;
    var t := Cut(s, i);
    assert At(head, s, i + 1) == Entry(s[i]);
    assert Joined(head, s, next, prev, i) && Joined(head, s, next, prev, i + 1);
    var next1, prev1 := next[At(head, s, i) := At(head, s, i + 2)], prev[At(head, s, i + 2) := At(head, s, i)];
    forall k | 0 <= k <= |t| ensures Joined(head, t, next1, prev1, k) {
      assert Joined(head, s, next, prev, if k <= i then k else k + 1);
      AtCut(head, s, i, k);
      AtCut(head, s, i, k + 1);
      var j := if k <= i then k else k + 1;
      if j != i {
        AtDistinct(head, s, i, j);
      }
      var j1 := if k < i then k else k + 1;   // the old position of what now precedes the node after k
      if j1 != i + 1 {
        AtDistinct(head, s, i + 1, j1);
      }
    }
  }

  lemma AtCut(head: Node, s: seq<Handle>, i: nat, k: nat)
    requires i < |s| && k <= |s|
    ensures At(head, Cut(s, i), k) == At(head, s, if k <= i then k else k + 1)
  {
  }

  /** LRU_Append: in between the newest entry and the head. */
  lemma RingAppend(head: Node, s: seq<Handle>, next: map<Node, Node>, prev: map<Node, Node>, e: Handle)
    requires Ring(head, s, next, prev) && NoRepeats(s) && !head.Entry? && e !in s
    ensures head in prev && prev[head] == At(head, s, |s|)
    ensures Ring(head, s + [e], next[Entry(e) := head][prev[head] := Entry(e)],
                 prev[Entry(e) := prev[head]][head := Entry(e)])
  {
    hide NoRepeats;
    var last := At(head, s, |s|);
    assert At(head, s, |s| + 1) == head;
    var t := s + [e];
    var next1 := next[Entry(e) := head][last := Entry(e)];
    var prev1 := prev[Entry(e) := last][head := Entry(e)];
    assert Joined(head, s, next, prev, |s|);
    forall k | 0 <= k <= |t| ensures Joined(head, t, next1, prev1, k) {
      if k < |s| {
        assert Joined(head, s, next, prev, k);
        AtDistinct(head, s, k, |s|);
        AtOnRing(head, s, k);
        assert At(head, t, k) == At(head, s, k) && At(head, t, k + 1) == At(head, s, k + 1);
      } else {
        AtOnRing(head, s, |s|);
      }
    }
  }

  lemma {:induction false} CutIsWithout(s: seq<Handle>, i: nat)
    requires NoRepeats(s) && i < |s|
    ensures Without(s, s[i]) == Cut(s, i)
  {
    hide Cut, Without, NoRepeats;
    CutSteps(s, i);
    if i > 0 {
      RestRepeatsNot(s);
      CutIsWithout(s[1..], i - 1);
    }
  }

  lemma CutOfFirst(s: seq<Handle>)
    requires s != []
    ensures Cut(s, 0) == s[1..]
  {
  }

  lemma RestRepeatsNot(s: seq<Handle>)
    requires NoRepeats(s) && s != []
    ensures NoRepeats(s[1..])
  {
  }

  lemma CutSteps(s: seq<Handle>, i: nat)
    requires NoRepeats(s) && i < |s|
    ensures i == 0 ==> Cut(s, i) == Without(s, s[i])
    ensures i > 0 ==> Cut(s, i) == [s[0]] + Cut(s[1..], i - 1) && s[i] == s[1..][i - 1]
    ensures i > 0 ==> Without(s, s[i]) == [s[0]] + Without(s[1..], s[i])
  {
    hide Cut;
    CutOfFirst(s);
    if i > 0 {
      assert s[0] != s[i];
      CutOfRest(s, i);
    }
  }

  lemma CutOfRest(s: seq<Handle>, i: nat)
    requires 0 < i < |s|
    ensures Cut(s, i) == [s[0]] + Cut(s[1..], i - 1)
  {
  }

  /** Taking an entry off whichever list it is on. */
  lemma RingsCut(lru: seq<Handle>, inUse: seq<Handle>, next: map<Node, Node>, prev: map<Node, Node>, e: Handle)
    requires Rings(lru, inUse, next, prev) && (e in lru || e in inUse)
    ensures Entry(e) in next && Entry(e) in prev && next[Entry(e)] != Entry(e)
    ensures Rings(Without(lru, e), Without(inUse, e), next[prev[Entry(e)] := next[Entry(e)]],
                  prev[next[Entry(e)] := prev[Entry(e)]])
  {
    hide Ring, NoRepeats, Cut, Without, At;
    WithoutMembers(lru, e);
    WithoutMembers(inUse, e);
    if e in lru {
      var i :| 0 <= i < |lru| && lru[i] == e;
      RingCut(LruHead, lru, next, prev, i);
      CutIsWithout(lru, i);
      NotItself(LruHead, lru, i);
      OffRing(LruHead, lru, i, InUseHead, inUse);
      RingFrame(InUseHead, inUse, next, prev, At(LruHead, lru, i), At(LruHead, lru, i + 2), At(LruHead, lru, i + 2),
                At(LruHead, lru, i));
    } else {
      var i :| 0 <= i < |inUse| && inUse[i] == e;
      RingCut(InUseHead, inUse, next, prev, i);
      CutIsWithout(inUse, i);
      NotItself(InUseHead, inUse, i);
      OffRing(InUseHead, inUse, i, LruHead, lru);
      RingFrame(LruHead, lru, next, prev, At(InUseHead, inUse, i), At(InUseHead, inUse, i + 2),
                At(InUseHead, inUse, i + 2), At(InUseHead, inUse, i));
    }
  }

  lemma NotItself(head: Node, s: seq<Handle>, i: nat)
    requires NoRepeats(s) && i < |s| && !head.Entry?
    ensures At(head, s, i + 2) != Entry(s[i])
  {
  }

  lemma OffRing(head: Node, s: seq<Handle>, i: nat, other: Node, t: seq<Handle>)
    requires head != other && !head.Entry? && !other.Entry? && forall e :: e in s ==> e !in t
    ensures !OnRing(At(head, s, i), other, t) && !OnRing(At(head, s, i + 2), other, t)
  {
  }

  function HeadOf(onLru: bool): Node {
    if onLru then LruHead else InUseHead
  }

  lemma RingsAppend(lru: seq<Handle>, inUse: seq<Handle>, next: map<Node, Node>, prev: map<Node, Node>, onLru: bool,
                    e: Handle)
    requires Rings(lru, inUse, next, prev) && e !in lru && e !in inUse
    ensures HeadOf(onLru) in prev && prev[HeadOf(onLru)] != Entry(e)
    ensures var head := HeadOf(onLru);
            Rings(if onLru then lru + [e] else lru, if onLru then inUse else inUse + [e],
                  next[Entry(e) := head][prev[head] := Entry(e)], prev[Entry(e) := prev[head]][head := Entry(e)])
  {
    hide Ring, NoRepeats, At;
    var mine, others := if onLru then lru else inUse, if onLru then inUse else lru;
    var head, other := HeadOf(onLru), HeadOf(!onLru);
    RingAppend(head, mine, next, prev, e);
    AtOnRing(head, mine, |mine|);
    NoRepeatsAppend(mine, e);
    OffRing(head, mine, |mine|, other, others);
    RingFrame(other, others, next, prev, Entry(e), head, Entry(e), prev[head]);
    RingFrame(other, others, next[Entry(e) := head], prev[Entry(e) := prev[head]], prev[head], Entry(e), head,
              Entry(e));
  }

  lemma EmptyRings()
    ensures Rings([], [], map[LruHead := LruHead, InUseHead := InUseHead],
                  map[LruHead := LruHead, InUseHead := InUseHead])
  {
  }

  lemma EmptyIsConsistent()
    ensures Consistent(NO_ENTRIES)
  {
  }

  lemma LruFirst(lru: seq<Handle>, inUse: seq<Handle>, next: map<Node, Node>, prev: map<Node, Node>)
    requires Rings(lru, inUse, next, prev)
    ensures LruHead in next && next[LruHead] == if lru == [] then LruHead else Entry(lru[0])
  {
    assert Joined(LruHead, lru, next, prev, 0);
  }

  // --- The cache itself ---

  class LRUCache {
    var capacity: nat
    var usage: nat
    var next: map<Node, Node>
    var prev: map<Node, Node>
    var refs: map<Handle, nat>
    var inCache: set<Handle>             // the in_cache flags
    var deletions: seq<Handle>           // calls of deleters
    var created: nat                     // entries allocated so far
    const table: HandleTable
    ghost var lru: seq<Handle>
    ghost var inUse: seq<Handle>
    ghost var clients: multiset<Handle>
    ghost var issued: seq<Handle>

    ghost function State(): Cache
      reads this
    {
      Cache(lru, inUse, refs, inCache, clients, usage, deletions, issued)
    }

    ghost predicate Valid()
      reads this, table
    {
      && Consistent(State()) && Rings(lru, inUse, next, prev) && created == |issued|
      && table.Valid() && table.members == inCache
    }

    constructor (capacity: nat)
      ensures Valid() && State() == NO_ENTRIES && this.capacity == capacity && fresh(table)
    {
      hide Rings, Consistent, HandleTable.Valid;
      this.capacity := capacity;
      usage, refs, inCache, deletions, created := 0, map[], {}, [], 0;
      next := map[LruHead := LruHead, InUseHead := InUseHead];
      prev := map[LruHead := LruHead, InUseHead := InUseHead];
      lru, inUse, clients, issued := [], [], multiset{}, [];
      table := new HandleTable();
      new;
      EmptyRings();
      EmptyIsConsistent();
    }

    method LruRemove(e: Handle)
      requires Rings(lru, inUse, next, prev) && (e in lru || e in inUse)
      modifies `next, `prev, `lru, `inUse
      ensures Rings(lru, inUse, next, prev)
      ensures lru == Without(old(lru), e) && inUse == Without(old(inUse), e)
    {
      hide Rings, Without;
      RingsCut(lru, inUse, next, prev, e);
      prev := prev[next[Entry(e)] := prev[Entry(e)]];
      next := next[prev[Entry(e)] := next[Entry(e)]];
      lru, inUse := Without(lru, e), Without(inUse, e);
    }

    method LruAppend(onLru: bool, e: Handle)
      requires Rings(lru, inUse, next, prev) && e !in lru && e !in inUse
      modifies `next, `prev, `lru, `inUse
      ensures Rings(lru, inUse, next, prev)
      ensures lru == if onLru then old(lru) + [e] else old(lru)
      ensures inUse == if onLru then old(inUse) else old(inUse) + [e]
    {
      hide Rings;
      RingsAppend(lru, inUse, next, prev, onLru, e);
      var list := HeadOf(onLru);
      next := next[Entry(e) := list];
      prev := prev[Entry(e) := prev[list]];
      next := next[prev[Entry(e)] := Entry(e)];
      prev := prev[next[Entry(e)] := Entry(e)];
      if onLru { lru := lru + [e]; } else { inUse := inUse + [e]; }
    }

    method Ref(e: Handle)
      requires Rings(lru, inUse, next, prev) && e in refs
      requires e in lru <==> refs[e] == 1 && e in inCache
      modifies `next, `prev, `lru, `inUse, `refs, `clients
      ensures Rings(lru, inUse, next, prev) && State() == Referred(old(State()), e)
    {
      hide Rings, Without;
      RemovedEverywhere(lru, inUse, next, prev, e);
      if refs[e] == 1 && e in inCache {
        LruRemove(e);
        LruAppend(false, e);
      }
      refs := refs[e := refs[e] + 1];
      clients := clients + multiset{e};
    }

    method Unref(e: Handle)
      requires Rings(lru, inUse, next, prev) && e in refs && refs[e] > 0
      requires e in inCache && refs[e] == 2 ==> e in inUse
      requires refs[e] == 1 ==> e !in inCache
      modifies `next, `prev, `lru, `inUse, `refs, `deletions
      ensures Rings(lru, inUse, next, prev) && State() == Unreferred(old(State()), e)
    {
      hide Rings, Without;
      RemovedEverywhere(lru, inUse, next, prev, e);
      refs := refs[e := refs[e] - 1];
      if refs[e] == 0 {
        deletions := deletions + [e];
        refs := refs - {e};
        assert refs == old(refs) - {e};
      } else if e in inCache && refs[e] == 1 {
        LruRemove(e);
        LruAppend(true, e);
      }
    }

    /** Gives up an entry that the table no longer has. */
    method FinishErase(e: Link) returns (erased: bool)
      requires Consistent(State()) && Rings(lru, inUse, next, prev) && (e.Some? ==> e.value in inCache)
      modifies `next, `prev, `lru, `inUse, `refs, `deletions, `inCache, `usage
      ensures e.Some? ==> e.value in old(refs) && old(refs)[e.value] > 0 && e.value.charge <= old(usage)
      ensures erased == e.Some? && Consistent(State()) && Rings(lru, inUse, next, prev)
      ensures State() == if e.Some? then Dropped(old(State()), e.value) else old(State())
    {
      hide Rings, Consistent, Without;
      if e.Some? {
        DroppedKeeps(State(), e.value);
        OnSomeList(State(), e.value);
        LruRemove(e.value);
        inCache := inCache - {e.value};
        usage := usage - e.value.charge;
        Unref(e.value);
      }
      erased := e.Some?;
    }

    /** Returns the cached entry of this key, held for the client. */
    method Lookup(key: Bytes, hash: nat) returns (e: Link)
      requires Valid()
      modifies `next, `prev, `lru, `inUse, `refs, `clients
      ensures Valid()
      ensures e.Some? ==> e.value in old(inCache) && Matches(e.value, key, hash)
      ensures forall h :: h in inCache && Matches(h, key, hash) ==> e == Some(h)
      ensures e.Some? ==> e.value in old(refs) && State() == Referred(old(State()), e.value)
      ensures e.None? ==> State() == old(State())
    {
      hide Rings, Consistent, Referred, Matches, HandleTable.Valid;
      e := table.Lookup(key, hash);
      if e.Some? {
        ReferredKeeps(State(), e.value);
        OnSomeList(State(), e.value);
        Ref(e.value);
        ReferredCaches(old(State()), e.value);
      }
    }

    /** A client lets go of an entry it holds. */
    method Release(e: Handle)
      requires Valid() && e in clients
      modifies `next, `prev, `lru, `inUse, `refs, `clients, `deletions
      ensures Valid() && e in old(refs) && old(refs)[e] > 0 && State() == Released(old(State()), e)
    {
      hide Rings, Consistent, Unreferred, HandleTable.Valid;
      ReleasedKeeps(State(), e);
      CountOf(State(), e);
      clients := clients - multiset{e};
      Unref(e);
      UnreferredCaches(old(State()).(clients := clients), e);
    }

    /** Drops the entry of this key; clients may go on using it. */
    method Erase(key: Bytes, hash: nat) returns (ghost erased: Link)
      requires Valid()
      modifies this, table
      ensures Valid()
      ensures forall h :: h in old(inCache) && Matches(h, key, hash) ==> erased == Some(h)
      ensures erased.Some? ==> erased.value in old(inCache) && Matches(erased.value, key, hash)
      ensures erased.Some? ==>
              erased.value in old(refs) && old(refs)[erased.value] > 0 && erased.value.charge <= old(usage)
      ensures State() == if erased.Some? then Dropped(old(State()), erased.value) else old(State())
      ensures capacity == old(capacity)
    {
      hide Rings, Consistent, Unreferred, Matches, HandleTable.Valid;
      var removed := table.Remove(key, hash);
      var b := FinishErase(removed);
      erased := removed;
      if removed.Some? {
        DroppedCaches(old(State()), removed.value);
      }
    }

    /** Drops every entry that no client holds. */
    method Prune()
      requires Valid()
      modifies this, table
      ensures Valid() && lru == [] && EvictsTo(old(State()), State(), old(lru)) && capacity == old(capacity)
    {
      hide Rings, Consistent, Unreferred, Matches, HandleTable.Valid, EvictsTo;
      ghost var evicted: seq<Handle> := [];
      EvictNone(State());
      LruFirst(lru, inUse, next, prev);
      while next[LruHead] != LruHead
        invariant Valid() && EvictsTo(old(State()), State(), evicted) && LruHead in next && capacity == old(capacity)
        decreases |lru|
      {
        LruFirst(lru, inUse, next, prev);
        EvictOne(old(State()), State(), evicted);
        evicted := evicted + [lru[0]];
        EvictOldest();
        LruFirst(lru, inUse, next, prev);
      }
      LruFirst(lru, inUse, next, prev);
      EvictedAll(old(State()), State(), evicted);
    }

    /** One turn of the eviction loops: the oldest entry that no client holds. */
    method EvictOldest()
      requires Valid() && lru != []
      modifies this, table
      ensures Valid() && old(lru)[0] in old(refs) && old(refs)[old(lru)[0]] > 0 && old(lru)[0].charge <= old(usage)
      ensures State() == Dropped(old(State()), old(lru)[0]) && capacity == old(capacity)
    {
      hide Rings, Consistent, Unreferred, Matches, HandleTable.Valid;
      LruFirst(lru, inUse, next, prev);
      OldestIsCached(State());
      var e := next[LruHead].handle;
      MatchesItself(e);
      var removed := table.Remove(e.key, e.hash);
      var erased := FinishErase(removed);
      assert erased;
      DroppedCaches(old(State()), e);
    }

    /** Allocates the entry, with the client's reference and, if caching is on, the cache's. */
    method NewHandle(key: Bytes, hash: nat, charge: nat) returns (e: Handle)
      requires Valid()
      modifies `next, `prev, `lru, `inUse, `refs, `clients, `inCache, `usage, `issued, `created
      ensures Consistent(State()) && Rings(lru, inUse, next, prev) && created == |issued|
      ensures e == Handle(old(created), key, hash, charge) && e !in old(inCache)
      ensures State() == Created(old(State()), e, capacity > 0)
      ensures inCache == if capacity > 0 then old(inCache) + {e} else old(inCache)
    {
      hide Rings, Consistent, HandleTable.Valid;
      e := Handle(created, key, hash, charge);
      CreatedKeeps(State(), e, capacity > 0);
      created := created + 1;
      issued := issued + [e];
      clients := clients + multiset{e};
      if capacity > 0 {
        CacheNew(e);
      } else {
        refs := refs[e := 1];   // for the returned handle
      }
    }

    /** The cache's share in a new entry. */
    method CacheNew(e: Handle)
      requires Rings(lru, inUse, next, prev) && e !in lru && e !in inUse
      modifies `next, `prev, `lru, `inUse, `refs, `inCache, `usage
      ensures Rings(lru, inUse, next, prev) && lru == old(lru) && inUse == old(inUse) + [e]
      ensures refs == old(refs)[e := 2] && inCache == old(inCache) + {e} && usage == old(usage) + e.charge
    {
      hide Rings;
      refs := refs[e := 2];   // for the returned handle and the cache's reference
      inCache := inCache + {e};
      LruAppend(false, e);
      usage := usage + e.charge;
    }

    /** Puts the new entry into the table and gives up the entry it displaces there. */
    method AddToTable(e: Handle) returns (displaced: Link)
      requires Consistent(State()) && Rings(lru, inUse, next, prev) && created == |issued|
      requires table.Valid() && e in inCache && table.members == inCache - {e}
      modifies this, table
      ensures Valid() && capacity == old(capacity) && created == old(created)
      ensures displaced.Some? ==> displaced.value in old(table.members) && Matches(displaced.value, e.key, e.hash)
      ensures forall h :: h in old(table.members) && Matches(h, e.key, e.hash) ==> displaced == Some(h)
      ensures Displaceable(old(State()), displaced) && State() == Displaced(old(State()), displaced)
    {
      hide Rings, Consistent, Unreferred, Matches, HandleTable.Valid;
      displaced := table.Insert(e);
      var erased := FinishErase(displaced);
      if displaced.Some? {
        DroppedCaches(old(State()), displaced.value);
      }
    }

    /** Inserts an entry held by the caller; the entry it displaces and those it evicts are returned as ghosts. */
    method Insert(key: Bytes, hash: nat, charge: nat)
      returns (e: Handle, ghost displaced: Link, ghost evicted: seq<Handle>)
      requires Valid()
      modifies this, table
      ensures Valid() && capacity == old(capacity)
      ensures e == Handle(old(created), key, hash, charge)
      ensures displaced.Some? ==> capacity > 0 && displaced.value in old(inCache) && Matches(displaced.value, key, hash)
      ensures capacity > 0 ==> forall h :: h in old(inCache) && Matches(h, key, hash) ==> displaced == Some(h)
      ensures Displaceable(Created(old(State()), e, capacity > 0), displaced)
      ensures EvictsTo(Displaced(Created(old(State()), e, capacity > 0), displaced), State(), evicted)
      ensures usage <= capacity || lru == []
      ensures evicted != [] ==> usage + evicted[|evicted| - 1].charge > capacity
    {
      hide Rings, Consistent, Unreferred, Dropped, Matches, HandleTable.Valid, EvictsTo, Created;
      e := NewHandle(key, hash, charge);
      displaced := None;
      if capacity > 0 {
        var removed := AddToTable(e);
        displaced := removed;
      }
      ghost var c := State();
      evicted := [];
      EvictNone(c);
      LruFirst(lru, inUse, next, prev);
      while usage > capacity && next[LruHead] != LruHead
        invariant Valid() && EvictsTo(c, State(), evicted) && LruHead in next
        invariant evicted != [] ==> usage + evicted[|evicted| - 1].charge > capacity
        invariant capacity == old(capacity)
        decreases |lru|
      {
        LruFirst(lru, inUse, next, prev);
        EvictOne(c, State(), evicted);
        evicted := evicted + [lru[0]];
        EvictOldest();
        LruFirst(lru, inUse, next, prev);
      }
      LruFirst(lru, inUse, next, prev);
    }

    /** The destructor. No entry may be in use by a client, which is asserted of the cached ones; what is left in the
        cache is deleted, oldest first. */
    method Destroy()
      requires Valid() && inUse == []
      modifies `next, `prev, `lru, `inUse, `refs, `inCache, `deletions
      ensures inCache == {} && deletions == old(deletions) + old(lru) && NoRepeats(deletions)
      ensures forall e :: e in issued <==> e in deletions || e in clients
      ensures forall e :: e in deletions ==> e !in clients
    {
      hide Rings, Consistent, HandleTable.Valid, Unreferred;
      LruFirst(lru, inUse, next, prev);
      var n, i := next[LruHead], 0;
      while n != LruHead
        invariant i <= |lru| && n == At(LruHead, lru, i + 1) && lru == old(lru) && inUse == []
        invariant Rings(lru, inUse, next, prev) && HalfDestroyed(old(State()), State(), i)
        decreases |lru| - i
      {
        LruNext(lru, inUse, next, prev, i);
        HalfLeft(old(State()), State(), i);
        var e, following := n.handle, next[n];
        DestroyedOne(old(State()), State(), i, e);
        inCache := inCache - {e};
        Unref(e);
        n, i := following, i + 1;
      }
      AllDestroyed(old(State()), State(), i);
    }
  }

  lemma RemovedEverywhere(lru: seq<Handle>, inUse: seq<Handle>, next: map<Node, Node>, prev: map<Node, Node>, e: Handle)
    requires Rings(lru, inUse, next, prev)
    ensures e !in Without(lru, e) && e !in Without(inUse, e)
    ensures e !in lru ==> Without(lru, e) == lru
    ensures e !in inUse ==> Without(inUse, e) == inUse
    ensures e in lru ==> e !in inUse
  {
    hide NoRepeats, Ring, Without;
    WithoutMembers(lru, e);
    WithoutMembers(inUse, e);
  }

  lemma OnSomeList(c: Cache, e: Handle)
    requires Consistent(c) && e in c.inCache
    ensures e in c.refs && (e in c.lru || e in c.inUse)
    ensures e in c.lru <==> c.refs[e] == 1
  {
    OnlyHere(c, e);
  }

  lemma CountOf(c: Cache, e: Handle)
    requires Consistent(c) && e in c.clients
    ensures e in c.refs && c.refs[e] > 0
    ensures e in c.inCache && c.refs[e] == 2 ==> e in c.inUse
    ensures c.refs[e] == 1 ==> e !in c.inCache
  {
    OnlyHere(c, e);
  }

  lemma ReferredCaches(c: Cache, e: Handle)
    requires e in c.refs
    ensures Referred(c, e).inCache == c.inCache && Referred(c, e).issued == c.issued
  {
  }

  lemma UnreferredCaches(c: Cache, e: Handle)
    requires e in c.refs && c.refs[e] > 0
    ensures Unreferred(c, e).inCache == c.inCache && Unreferred(c, e).issued == c.issued
  {
  }

  lemma DroppedCaches(c: Cache, e: Handle)
    requires e in c.refs && c.refs[e] > 0 && e.charge <= c.usage
    ensures Dropped(c, e).inCache == c.inCache - {e} && Dropped(c, e).issued == c.issued
  {
  }

  lemma OldestIsCached(c: Cache)
    requires Consistent(c) && c.lru != []
    ensures c.lru[0] in c.inCache && c.lru[0] in c.refs && c.refs[c.lru[0]] == 1
  {
    assert c.lru[0] in c.lru;
  }

  lemma MatchesItself(e: Handle)
    ensures Matches(e, e.key, e.hash)
  {
  }

  // --- The destructor ---

  /** The entries at the first `i` places of `lru` are deleted, the others untouched. */
  ghost predicate HalfDestroyed(c: Cache, d: Cache, i: nat) {
    && i <= |c.lru| && d.lru == c.lru && d.inUse == c.inUse && d.clients == c.clients && d.issued == c.issued
    && d.deletions == c.deletions + c.lru[..i]
    && (forall e :: e in d.inCache <==> e in c.inCache && e !in c.lru[..i])
    && (forall e :: e in d.refs <==> e in c.refs && e !in c.lru[..i])
    && (forall e :: e in d.refs ==> d.refs[e] == c.refs[e])
  }

  lemma LruNext(lru: seq<Handle>, inUse: seq<Handle>, next: map<Node, Node>, prev: map<Node, Node>, i: nat)
    requires Rings(lru, inUse, next, prev) && i <= |lru| && At(LruHead, lru, i + 1) != LruHead
    ensures i < |lru| && At(LruHead, lru, i + 1) == Entry(lru[i])
    ensures Entry(lru[i]) in next && next[Entry(lru[i])] == At(LruHead, lru, i + 2)
  {
    assert i < |lru|;
    assert Joined(LruHead, lru, next, prev, i + 1);
  }

  lemma HalfLeft(c: Cache, d: Cache, i: nat)
    requires Consistent(c) && HalfDestroyed(c, d, i) && i < |c.lru|
    ensures c.lru[i] in d.inCache && c.lru[i] in d.refs && d.refs[c.lru[i]] == 1
  {
    hide Counted, Accounted, Charge;
    assert c.lru[i] in c.lru && c.lru[i] !in c.lru[..i];
  }

  lemma DestroyedOne(c: Cache, d: Cache, i: nat, e: Handle)
    requires HalfDestroyed(c, d, i) && i < |c.lru| && e == c.lru[i] && e in d.refs && d.refs[e] == 1
    ensures HalfDestroyed(c, Unreferred(d.(inCache := d.inCache - {e}), e), i + 1)
  {
    assert c.lru[..i + 1] == c.lru[..i] + [e];
    assert c.deletions + c.lru[..i + 1] == c.deletions + c.lru[..i] + [e];
  }

  lemma AllDestroyed(c: Cache, d: Cache, i: nat)
    requires Consistent(c) && HalfDestroyed(c, d, i) && i == |c.lru| && c.inUse == []
    ensures d.inCache == {} && d.deletions == c.deletions + c.lru && NoRepeats(d.deletions)
    ensures forall e :: e in d.issued <==> e in d.deletions || e in d.clients
    ensures forall e :: e in d.deletions ==> e !in d.clients
  {
    hide Charge;
    assert c.lru[..i] == c.lru;
    forall j, k | 0 <= j < k < |d.deletions| ensures d.deletions[j] != d.deletions[k] {
      if j < |c.deletions| <= k {
        assert d.deletions[k] in c.lru;
      }
    }
    forall e | e in c.lru ensures e in c.refs && e !in c.deletions && e !in c.clients {
      assert c.refs[e] == 1 && e in c.inCache;
    }
    forall e | e in c.issued ensures e in d.deletions || e in d.clients {
      if e in c.refs && e !in c.lru {
        assert e !in c.inCache;
      }
    }
  }

  // --- Eviction: the oldest entries go, in order, and are deleted ---

  ghost predicate EvictsTo(c: Cache, d: Cache, evicted: seq<Handle>) {
    && c.lru == evicted + d.lru && d.deletions == c.deletions + evicted && d.inUse == c.inUse
    && d.clients == c.clients && d.issued == c.issued && c.usage == d.usage + Charge(evicted)
    && (forall e :: e in d.inCache <==> e in c.inCache && e !in evicted)
    && (forall e :: e in d.refs <==> e in c.refs && e !in evicted)
    && (forall e :: e in d.refs ==> d.refs[e] == c.refs[e])
  }

  predicate Displaceable(c: Cache, displaced: Link) {
    displaced.Some? ==> displaced.value in c.refs && c.refs[displaced.value] > 0 && displaced.value.charge <= c.usage
  }

  function Displaced(c: Cache, displaced: Link): Cache
    requires Displaceable(c, displaced)
  {
    if displaced.Some? then Dropped(c, displaced.value) else c
  }

  lemma EvictNone(c: Cache)
    ensures EvictsTo(c, c, [])
  {
    assert c.lru == [] + c.lru && c.deletions == c.deletions + [];
  }

  lemma EvictedAll(c: Cache, d: Cache, evicted: seq<Handle>)
    requires EvictsTo(c, d, evicted) && d.lru == []
    ensures evicted == c.lru
  {
  }

  lemma EvictOne(c: Cache, d: Cache, evicted: seq<Handle>)
    requires Consistent(d) && EvictsTo(c, d, evicted) && d.lru != []
    ensures var e := d.lru[0];
            && e in d.refs && d.refs[e] > 0 && e.charge <= d.usage
            && EvictsTo(c, Dropped(d, e), evicted + [e]) && |Dropped(d, e).lru| < |d.lru|
            && Dropped(d, e).usage + e.charge == d.usage
  {
    hide NoRepeats, Charge, Accounted, Counted;
    var e := d.lru[0];
    OldestIsCached(d);
    DroppedKeeps(d, e);
    WithoutMembers(d.inUse, e);
    ChargeAppend(evicted, e);
    assert e in d.lru;
    assert c.lru == evicted + [e] + d.lru[1..];
  }
}
