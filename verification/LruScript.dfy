/** Whole runs of an LRUCache of util/cache.cc: what any sequence of client calls makes of it, from its construction to
    its destruction. */
module LruScripts {
  import opened Wrappers
  import opened Bytes
  import opened HandleTables
  import opened LruCaches

  datatype Command =
    | Insert(key: Bytes, hash: nat, charge: nat)
    | Lookup(key: Bytes, hash: nat)
    | Release(handle: Handle)
    | Erase(key: Bytes, hash: nat)
    | Prune

  /** The cached entry of a key, if there is one. */
  ghost predicate Cached(c: Cache, key: Bytes, hash: nat, r: Link) {
    && (r.Some? ==> r.value in c.inCache && Matches(r.value, key, hash))
    && (forall h :: h in c.inCache && Matches(h, key, hash) ==> r == Some(h))
  }

  ghost predicate Inserts(capacity: nat, c: Cache, e: Handle, displaced: Link, evicted: seq<Handle>, d: Cache) {
    && (if capacity > 0 then Cached(c, e.key, e.hash, displaced) else displaced == None)
    && Displaceable(Created(c, e, capacity > 0), displaced)
    && Evicts(capacity, Displaced(Created(c, e, capacity > 0), displaced), evicted, d)
  }

  /** The oldest entries go until the rest fits, and not one more. */
  ghost predicate Evicts(capacity: nat, c: Cache, evicted: seq<Handle>, d: Cache) {
    && EvictsTo(c, d, evicted)
    && (d.usage <= capacity || d.lru == [])
    && (evicted != [] ==> d.usage + evicted[|evicted| - 1].charge > capacity)
  }

  /** What one call does and returns. A client that does not hold an entry does not release it. */
  ghost predicate Does(capacity: nat, c: Cache, command: Command, r: Link, d: Cache) {
    match command
    case Insert(key, hash, charge) =>
      && r == Some(Handle(|c.issued|, key, hash, charge))
      && exists displaced, evicted :: Inserts(capacity, c, r.value, displaced, evicted, d)
    case Lookup(key, hash) =>
      Cached(c, key, hash, r) && if r.Some? then r.value in c.refs && d == Referred(c, r.value) else d == c
    case Release(e) =>
      r == None && if e in c.clients then e in c.refs && c.refs[e] > 0 && d == Released(c, e) else d == c
    case Erase(key, hash) =>
      r == None && exists erased :: Cached(c, key, hash, erased) && Displaceable(c, erased) && d == Displaced(c, erased)
    case Prune =>
      r == None && d.lru == [] && EvictsTo(c, d, c.lru)
  }

  /** An entry that is cached is the one created last for its key. */
  ghost predicate Latest(capacity: nat, c: Cache) {
    && (forall h, g :: h in c.inCache && g in c.issued && Matches(g, h.key, h.hash) ==> g.id <= h.id)
    && (capacity == 0 ==> c.inCache == {})
  }

  /** The entries that the first `n` commands create, in their order. */
  function Entries(script: seq<Command>): (r: seq<Handle>) {
    if script == [] then []
    else
      var before, last := Entries(script[..|script| - 1]), script[|script| - 1];
      if last.Insert? then before + [Handle(|before|, last.key, last.hash, last.charge)] else before
  }

  ghost predicate Runs(capacity: nat, script: seq<Command>, results: seq<Link>, trace: seq<Cache>) {
    && |results| == |script| && |trace| == |script| + 1 && trace[0] == NO_ENTRIES
    && forall i :: 0 <= i < |script| ==> Does(capacity, trace[i], script[i], results[i], trace[i + 1])
  }

  // --- One call ---

  /** Whoever evicts fewer entries is left with one more entry, and with its charge, at least. */
  lemma FewerLeavesMore(c: Cache, d1: Cache, evicted1: seq<Handle>, d2: Cache, evicted2: seq<Handle>)
    requires EvictsTo(c, d1, evicted1) && EvictsTo(c, d2, evicted2) && |evicted1| < |evicted2|
    ensures d1.lru != [] && d1.usage >= d2.usage + evicted2[|evicted2| - 1].charge
  {
    hide Charge;
    var n := |evicted2| - 1;
    assert c.lru == evicted1 + d1.lru && c.lru == evicted2 + d2.lru;
    assert evicted1 == c.lru[..|evicted1|] && evicted2 == c.lru[..n + 1];
    var more := c.lru[|evicted1|..n];
    assert evicted2 == (evicted1 + more) + [evicted2[n]];
    ChargeAppend(evicted1 + more, evicted2[n]);
    ChargeOfParts(evicted1, more);
  }

  lemma EvictionUnique(capacity: nat, c: Cache, d1: Cache, evicted1: seq<Handle>, d2: Cache, evicted2: seq<Handle>)
    requires Evicts(capacity, c, evicted1, d1) && Evicts(capacity, c, evicted2, d2)
    ensures |evicted1| >= |evicted2|
  {
    hide EvictsTo;
    if |evicted1| < |evicted2| {
      FewerLeavesMore(c, d1, evicted1, d2, evicted2);
      assert false;
    }
  }

  lemma {:induction false} ChargeOfParts(s: seq<Handle>, t: seq<Handle>)
    ensures Charge(s + t) == Charge(s) + Charge(t)
  {
    if s == [] {
      assert s + t == t;
    } else {
      ChargeOfParts(s[1..], t);
      assert (s + t)[1..] == s[1..] + t;
    }
  }

  lemma SameEviction(c: Cache, evicted: seq<Handle>, d1: Cache, d2: Cache)
    requires EvictsTo(c, d1, evicted) && EvictsTo(c, d2, evicted)
    ensures d1 == d2
  {
    hide Charge;
    assert d1.lru == c.lru[|evicted|..] == d2.lru;
    assert d1.inCache == d2.inCache;
    assert d1.refs == d2.refs;
  }

  lemma EvictsUnique(capacity: nat, c: Cache, d1: Cache, evicted1: seq<Handle>, d2: Cache, evicted2: seq<Handle>)
    requires Evicts(capacity, c, evicted1, d1) && Evicts(capacity, c, evicted2, d2)
    ensures d1 == d2
  {
    hide Charge;
    EvictionUnique(capacity, c, d1, evicted1, d2, evicted2);
    EvictionUnique(capacity, c, d2, evicted2, d1, evicted1);
    assert evicted1 == c.lru[..|evicted1|] == evicted2;
    SameEviction(c, evicted1, d1, d2);
  }

  lemma CachedUnique(c: Cache, key: Bytes, hash: nat, q: Link, r: Link)
    requires Cached(c, key, hash, q) && Cached(c, key, hash, r)
    ensures q == r
  {
  }

  /** What a call returns and leaves is determined by the cache it finds. */
  lemma DoesUnique(capacity: nat, c: Cache, command: Command, q: Link, d: Cache, r: Link, e: Cache)
    requires Does(capacity, c, command, q, d) && Does(capacity, c, command, r, e)
    ensures q == r && d == e
  {
    hide Cached, Evicts, EvictsTo, Created, Referred, Released, Dropped, Displaceable, Displaced;
    match command {
      case Insert(_, _, _) =>
        InsertsUnique(capacity, c, q.value, d, e);
      case Lookup(key, hash) =>
        CachedUnique(c, key, hash, q, r);
      case Erase(key, hash) =>
        var x :| Cached(c, key, hash, x) && Displaceable(c, x) && d == Displaced(c, x);
        var y :| Cached(c, key, hash, y) && Displaceable(c, y) && e == Displaced(c, y);
        CachedUnique(c, key, hash, x, y);
      case Release(_) =>
      case Prune =>
        SameEviction(c, c.lru, d, e);
    }
  }

  lemma InsertsUnique(capacity: nat, c: Cache, h: Handle, d: Cache, e: Cache)
    requires exists displaced, evicted :: Inserts(capacity, c, h, displaced, evicted, d)
    requires exists displaced, evicted :: Inserts(capacity, c, h, displaced, evicted, e)
    ensures d == e
  {
    hide Cached, Evicts, Created, Displaceable, Displaced;
    var x, s :| Inserts(capacity, c, h, x, s, d);
    var y, t :| Inserts(capacity, c, h, y, t, e);
    if capacity > 0 {
      CachedUnique(c, h.key, h.hash, x, y);
    }
    EvictsUnique(capacity, Displaced(Created(c, h, capacity > 0), x), d, s, e, t);
  }

  /** A call leaves every deletion as it is, and keeps what is cached the latest of its key. */
  lemma DoesKeeps(capacity: nat, c: Cache, command: Command, r: Link, d: Cache)
    requires Does(capacity, c, command, r, d) && Consistent(c) && Latest(capacity, c)
    ensures Latest(capacity, d) && c.deletions <= d.deletions
    ensures d.issued == if command.Insert? then c.issued + [r.value] else c.issued
  {
    hide Consistent, Charge, Without, Matches;
    if command.Insert? {
      var displaced, evicted :| Inserts(capacity, c, r.value, displaced, evicted, d);
      InsertKeeps(capacity, c, r.value, displaced, evicted, d);
    }
  }

  /** Evictions keep the lists, the counts and the books in agreement. */
  lemma EvictsKeeps(c: Cache, d: Cache, evicted: seq<Handle>)
    requires Consistent(c) && EvictsTo(c, d, evicted)
    ensures Consistent(d)
  {
    hide OnLists, Counted, Accounted, EvictsTo, Charge;
    EvictedLists(c, d, evicted);
    EvictedBooks(c, d, evicted);
    assert d.usage == Charge(d.lru) + Charge(d.inUse) by { EvictedUsage(c, d, evicted); }
  }

  lemma EvictedUsage(c: Cache, d: Cache, evicted: seq<Handle>)
    requires EvictsTo(c, d, evicted) && c.usage == Charge(c.lru) + Charge(c.inUse)
    ensures d.usage == Charge(d.lru) + Charge(d.inUse)
  {
    hide Charge;
    ChargeOfParts(evicted, d.lru);
  }

  lemma SplitList(c: Cache, d: Cache, evicted: seq<Handle>)
    requires NoRepeats(c.lru) && c.lru == evicted + d.lru
    ensures NoRepeats(evicted) && NoRepeats(d.lru)
    ensures forall e :: e in c.lru <==> e in evicted || e in d.lru
    ensures forall e :: e in evicted ==> e !in d.lru
  {
    assert forall i :: 0 <= i < |evicted| ==> c.lru[i] == evicted[i];
    assert forall i :: 0 <= i < |d.lru| ==> c.lru[|evicted| + i] == d.lru[i];
  }

  lemma EvictedLists(c: Cache, d: Cache, evicted: seq<Handle>)
    requires OnLists(c) && Counted(c) && EvictsTo(c, d, evicted)
    ensures OnLists(d) && Counted(d)
  {
    hide NoRepeats, Charge;
    SplitList(c, d, evicted);
  }

  lemma EvictedBooks(c: Cache, d: Cache, evicted: seq<Handle>)
    requires OnLists(c) && Accounted(c) && EvictsTo(c, d, evicted)
    ensures Accounted(d)
  {
    hide Charge;
    SplitList(c, d, evicted);
    forall i, j | 0 <= i < j < |d.deletions| ensures d.deletions[i] != d.deletions[j] {
      if i < |c.deletions| <= j {
        assert d.deletions[j] == evicted[j - |c.deletions|];
        assert d.deletions[j] in c.lru;
      }
    }
  }

  lemma DoesKeepsConsistent(capacity: nat, c: Cache, command: Command, r: Link, d: Cache)
    requires Does(capacity, c, command, r, d) && Consistent(c)
    ensures Consistent(d)
  {
    hide Consistent, EvictsTo, Created, Dropped, Referred, Released, Matches;
    match command {
      case Insert(_, _, _) =>
        var displaced, evicted :| Inserts(capacity, c, r.value, displaced, evicted, d);
        InsertKeepsConsistent(capacity, c, r.value, displaced, evicted, d);
      case Lookup(_, _) =>
        if r.Some? {
          ReferredKeeps(c, r.value);
        }
      case Release(e) =>
        if e in c.clients {
          ReleasedKeeps(c, e);
        }
      case Erase(key, hash) =>
        var erased :| Cached(c, key, hash, erased) && Displaceable(c, erased) && d == Displaced(c, erased);
        if erased.Some? {
          DroppedKeeps(c, erased.value);
        }
      case Prune =>
        EvictsKeeps(c, d, c.lru);
    }
  }

  lemma InsertKeepsConsistent(capacity: nat, c: Cache, e: Handle, displaced: Link, evicted: seq<Handle>, d: Cache)
    requires Inserts(capacity, c, e, displaced, evicted, d) && Consistent(c) && e.id == |c.issued|
    ensures Consistent(d)
  {
    hide Consistent, EvictsTo, Created, Dropped, Matches;
    var created := Created(c, e, capacity > 0);
    CreatedKeeps(c, e, capacity > 0);
    if displaced.Some? {
      CreatedCaches(c, e);
      DroppedKeeps(created, displaced.value);
    }
    EvictsKeeps(Displaced(created, displaced), d, evicted);
  }

  lemma CreatedCaches(c: Cache, e: Handle)
    ensures Created(c, e, true).inCache == c.inCache + {e}
  {
  }

  lemma InsertKeeps(capacity: nat, c: Cache, e: Handle, displaced: Link, evicted: seq<Handle>, d: Cache)
    requires Inserts(capacity, c, e, displaced, evicted, d) && Consistent(c) && Latest(capacity, c)
    requires e.id == |c.issued|
    ensures Latest(capacity, d) && c.deletions <= d.deletions && d.issued == c.issued + [e]
  {
    hide OnLists, Counted, Charge, Without;
    forall h, g | h in d.inCache && g in d.issued && Matches(g, h.key, h.hash) ensures g.id <= h.id {
      if g == e {
        assert Matches(h, e.key, e.hash);
      } else {
        assert g in c.issued;
      }
    }
  }

  // --- Runs ---

  /** The results and the state of the cache after every call are a function of the script. */
  lemma {:induction false} RunsUnique(capacity: nat, script: seq<Command>, results1: seq<Link>, trace1: seq<Cache>,
                                      results2: seq<Link>, trace2: seq<Cache>, n: nat)
    requires Runs(capacity, script, results1, trace1) && Runs(capacity, script, results2, trace2) && n <= |script|
    ensures results1[..n] == results2[..n] && trace1[..n + 1] == trace2[..n + 1]
  {
    hide Does;
    if n > 0 {
      RunsUnique(capacity, script, results1, trace1, results2, trace2, n - 1);
      assert trace1[..n][n - 1] == trace2[..n][n - 1];
      DoesUnique(capacity, trace1[n - 1], script[n - 1], results1[n - 1], trace1[n], results2[n - 1], trace2[n]);
      assert results1[..n] == results1[..n - 1] + [results1[n - 1]] && trace1[..n + 1] == trace1[..n] + [trace1[n]];
      assert results2[..n] == results2[..n - 1] + [results2[n - 1]] && trace2[..n + 1] == trace2[..n] + [trace2[n]];
    }
  }

  /** In every run the lists, the counts and the books agree after every call, what is cached is the latest of its key,
      and the entries created are those of the script. */
  lemma {:induction false} RunsKeep(capacity: nat, script: seq<Command>, results: seq<Link>, trace: seq<Cache>, n: nat)
    requires Runs(capacity, script, results, trace) && n <= |script|
    ensures Consistent(trace[n]) && Latest(capacity, trace[n]) && trace[n].issued == Entries(script[..n])
    ensures forall i :: 0 <= i <= n ==> trace[i].deletions <= trace[n].deletions
  {
    hide Does, Consistent, Latest;
    if n == 0 {
      EmptyIsConsistent();
      EmptyIsLatest(capacity);
    } else {
      RunsKeep(capacity, script, results, trace, n - 1);
      DoesKeeps(capacity, trace[n - 1], script[n - 1], results[n - 1], trace[n]);
      DoesKeepsConsistent(capacity, trace[n - 1], script[n - 1], results[n - 1], trace[n]);
      assert script[..n][..n - 1] == script[..n - 1];
      if script[n - 1].Insert? {
        InsertResult(capacity, trace[n - 1], script[n - 1], results[n - 1], trace[n]);
      }
    }
  }

  lemma EmptyIsLatest(capacity: nat)
    ensures Latest(capacity, NO_ENTRIES)
  {
  }

  /** A lookup finds only the last entry that the script has created for the key, and one that is not deleted. */
  lemma LookupIsLatest(capacity: nat, script: seq<Command>, results: seq<Link>, trace: seq<Cache>, i: nat)
    requires Runs(capacity, script, results, trace) && i < |script| && script[i].Lookup? && results[i].Some?
    ensures results[i].value in Entries(script[..i]) && Matches(results[i].value, script[i].key, script[i].hash)
    ensures forall g :: g in Entries(script[..i]) && Matches(g, script[i].key, script[i].hash) ==>
            g.id <= results[i].value.id
    ensures forall j :: 0 <= j <= i ==> results[i].value !in trace[j].deletions
  {
    hide Charge, NoRepeats, Counted;
    RunsKeep(capacity, script, results, trace, i);
    assert Does(capacity, trace[i], script[i], results[i], trace[i + 1]);
    forall j | 0 <= j <= i ensures results[i].value !in trace[j].deletions {
      assert trace[j].deletions <= trace[i].deletions;
    }
  }

  /** An entry that a client holds after a call is not deleted. */
  lemma HeldIsAlive(capacity: nat, script: seq<Command>, results: seq<Link>, trace: seq<Cache>, i: nat, e: Handle)
    requires Runs(capacity, script, results, trace) && i <= |script| && e in trace[i].clients
    ensures forall j :: 0 <= j <= i ==> e !in trace[j].deletions
  {
    hide Charge, NoRepeats, OnLists, Does;
    RunsKeep(capacity, script, results, trace, i);
  }

  lemma InsertResult(capacity: nat, c: Cache, command: Command, r: Link, d: Cache)
    requires Does(capacity, c, command, r, d) && command.Insert?
    ensures r == Some(Handle(|c.issued|, command.key, command.hash, command.charge))
  {
  }

  lemma InUseIsHeld(c: Cache)
    requires Consistent(c) && c.clients == multiset{}
    ensures c.inUse == []
  {
    hide Accounted, Charge;
    if c.inUse != [] {
      FirstIsMember(c.inUse);
      assert false;
    }
  }

  lemma FirstIsMember(s: seq<Handle>)
    requires s != []
    ensures s[0] in s
  {
  }

  lemma IssuedNoRepeats(c: Cache)
    requires Consistent(c)
    ensures NoRepeats(c.issued)
  {
    hide OnLists, Counted, Charge;
  }

  lemma {:induction false} OneOfEach(s: seq<Handle>, e: Handle)
    requires NoRepeats(s)
    ensures multiset(s)[e] == if e in s then 1 else 0
  {
    if s != [] {
      OneOfEach(s[1..], e);
      assert s == [s[0]] + s[1..];
    }
  }

  lemma SameMembers(s: seq<Handle>, t: seq<Handle>)
    requires NoRepeats(s) && NoRepeats(t) && forall e :: e in s <==> e in t
    ensures multiset(s) == multiset(t)
  {
    hide NoRepeats;
    forall e: Handle ensures multiset(s)[e] == multiset(t)[e] {
      OneOfEach(s, e);
      OneOfEach(t, e);
    }
  }

  lemma ClientsAfterInsert(c: Cache, e: Handle, cached: bool, displaced: Link, evicted: seq<Handle>, d: Cache)
    requires Displaceable(Created(c, e, cached), displaced)
    requires EvictsTo(Displaced(Created(c, e, cached), displaced), d, evicted)
    ensures d.clients == c.clients + multiset{e}
  {
    hide Charge, Without;
  }

  lemma ClientsKept(c: Cache, displaced: Link)
    requires Displaceable(c, displaced)
    ensures Displaced(c, displaced).clients == c.clients
  {
    hide Without;
  }

  lemma ReleasedClients(c: Cache, e: Handle)
    requires e in c.refs && c.refs[e] > 0
    ensures Released(c, e).clients == c.clients - multiset{e} && Released(c, e).issued == c.issued
  {
    hide Without;
  }

  // --- A client ---

  /** One call of a client that holds `held`. */
  method Do(cache: LRUCache, command: Command, held: multiset<Handle>) returns (r: Link, held1: multiset<Handle>)
    requires cache.Valid() && held == cache.clients
    modifies cache, cache.table
    ensures cache.Valid() && held1 == cache.clients && cache.capacity == old(cache.capacity)
    ensures Does(cache.capacity, old(cache.State()), command, r, cache.State())
  {
    hide *;
    hide LRUCache.Valid;
    r, held1 := None, held;
    match command {
      case Insert(key, hash, charge) =>
        var e := DoInsert(cache, command);
        r, held1 := Some(e), held + multiset{e};
      case Lookup(key, hash) =>
        r := DoLookup(cache, command);
        held1 := if r.Some? then held + multiset{r.value} else held;
      case Release(e) =>
        held1 := DoRelease(cache, command, held);
      case Erase(key, hash) =>
        DoErase(cache, command);
      case Prune =>
        DoPrune(cache, command);
    }
  }

  method DoInsert(cache: LRUCache, command: Command) returns (e: Handle)
    requires cache.Valid() && command.Insert?
    modifies cache, cache.table
    ensures cache.Valid() && cache.clients == old(cache.clients) + multiset{e} && cache.capacity == old(cache.capacity)
    ensures Does(cache.capacity, old(cache.State()), command, Some(e), cache.State())
  {
    hide HandleTable.Valid, Consistent, Rings, EvictsTo, Created, Dropped, Matches, Displaceable, Displaced;
    ghost var c := cache.State();
    var h, displaced, evicted := cache.Insert(command.key, command.hash, command.charge);
    e := h;
    ClientsAfterInsert(c, e, cache.capacity > 0, displaced, evicted, cache.State());
    assert Inserts(cache.capacity, c, e, displaced, evicted, cache.State());
  }

  method DoLookup(cache: LRUCache, command: Command) returns (r: Link)
    requires cache.Valid() && command.Lookup?
    modifies cache, cache.table
    ensures cache.Valid() && cache.capacity == old(cache.capacity)
    ensures cache.clients == if r.Some? then old(cache.clients) + multiset{r.value} else old(cache.clients)
    ensures Does(cache.capacity, old(cache.State()), command, r, cache.State())
  {
    hide HandleTable.Valid, Consistent, Rings, Matches;
    r := cache.Lookup(command.key, command.hash);
  }

  method DoRelease(cache: LRUCache, command: Command, held: multiset<Handle>) returns (held1: multiset<Handle>)
    requires cache.Valid() && command.Release? && held == cache.clients
    modifies cache, cache.table
    ensures cache.Valid() && cache.capacity == old(cache.capacity) && held1 == cache.clients
    ensures Does(cache.capacity, old(cache.State()), command, None, cache.State())
  {
    hide HandleTable.Valid, Consistent, Rings, Released;
    ghost var c := cache.State();
    held1 := held;
    if command.handle in held {
      cache.Release(command.handle);
      held1 := held - multiset{command.handle};
      ReleasedClients(c, command.handle);
    }
  }

  method DoErase(cache: LRUCache, command: Command)
    requires cache.Valid() && command.Erase?
    modifies cache, cache.table
    ensures cache.Valid() && cache.clients == old(cache.clients) && cache.capacity == old(cache.capacity)
    ensures Does(cache.capacity, old(cache.State()), command, None, cache.State())
  {
    hide HandleTable.Valid, Consistent, Rings, Dropped, Matches;
    ghost var c := cache.State();
    var erased := cache.Erase(command.key, command.hash);
    assert Cached(c, command.key, command.hash, erased) && Displaceable(c, erased);
    ClientsKept(c, erased);
  }

  method DoPrune(cache: LRUCache, command: Command)
    requires cache.Valid() && command.Prune?
    modifies cache, cache.table
    ensures cache.Valid() && cache.clients == old(cache.clients) && cache.capacity == old(cache.capacity)
    ensures Does(cache.capacity, old(cache.State()), command, None, cache.State())
  {
    hide HandleTable.Valid, Consistent, Rings, Charge;
    cache.Prune();
  }

  /** A client that makes the calls of a script on a new cache. */
  method Run(capacity: nat, script: seq<Command>)
    returns (cache: LRUCache, results: seq<Link>, held: multiset<Handle>, ghost trace: seq<Cache>)
    ensures fresh(cache) && fresh(cache.table) && cache.Valid() && held == cache.clients
    ensures Runs(capacity, script, results, trace) && trace[|script|] == cache.State()
  {
    hide HandleTable.Valid, Consistent, Rings, Does, Latest;
    cache := new LRUCache(capacity);
    results, held, trace := [], multiset{}, [NO_ENTRIES];
    for n := 0 to |script|
      invariant cache.Valid() && fresh(cache) && fresh(cache.table) && cache.capacity == capacity
      invariant held == cache.clients
      invariant |results| == n && |trace| == n + 1 && trace[0] == NO_ENTRIES && trace[n] == cache.State()
      invariant forall i :: 0 <= i < n ==> Does(capacity, trace[i], script[i], results[i], trace[i + 1])
    {
      var r: Link;
      r, held := Do(cache, script[n], held);
      results, trace := results + [r], trace + [cache.State()];
    }
  }

  /** The client then lets go of what it still holds, and the cache is destroyed: whatever the script was, the deleter
      of every entry it created has run exactly once. */
  method Session(capacity: nat, script: seq<Command>) returns (results: seq<Link>, deletions: seq<Handle>)
    ensures |results| == |script|
    ensures multiset(deletions) == multiset(Entries(script)) && NoRepeats(deletions)
  {
    hide HandleTable.Valid, Consistent, Rings, Does, Latest, Unreferred;
    var cache, rs, held, trace := Run(capacity, script);
    results := rs;
    RunsKeep(capacity, script, results, trace, |script|);
    assert script[..|script|] == script;
    while held != multiset{}
      invariant cache.Valid() && fresh(cache) && fresh(cache.table) && held == cache.clients
      invariant cache.issued == Entries(script)
      decreases |held|
    {
      var e :| e in held;
      ghost var c := cache.State();
      cache.Release(e);
      ReleasedClients(c, e);
      held := held - multiset{e};
    }
    InUseIsHeld(cache.State());
    IssuedNoRepeats(cache.State());
    cache.Destroy();
    deletions := cache.deletions;
    SameMembers(deletions, Entries(script));
  }
}
