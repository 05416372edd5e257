/** The write path of db/db_impl.cc as steps: one leader at the head of the queue logs and inserts for a
    group with the mutex released; memtables are switched and flushed, versions compacted, and readers
    pin what they read. Every interleaving of these steps is a run. */
module WriteQueues {
  import opened Wrappers
  import opened Lsm
  import opened Compactions
  import opened Versions

  datatype Update = Update(user: UserKey, kind: Kind, value: Value)

  /** A queued writer; `batch` is missing when a caller only wants the memtable switched. `size` is the
      batch's size in bytes. */
  datatype Request = Request(batch: Option<seq<Update>>, size: nat, sync: bool)

  datatype Status = OK | Failed

  // --- BuildBatchGroup ---

  function MaxSize(first: nat): nat {
    if first <= 0x2_0000 then first + 0x2_0000 else 0x10_0000
  }

  /** How far the group reaches that already has `n` members of `size` bytes. */
  function Extend(queue: seq<Request>, n: nat, size: nat): (r: nat)
    requires 1 <= n <= |queue|
    ensures n <= r <= |queue|
    decreases |queue| - n
  {
    if n == |queue| || (queue[n].sync && !queue[0].sync) then n
    else if queue[n].batch.None? then Extend(queue, n + 1, size)
    else if size + queue[n].size > MaxSize(queue[0].size) then n
    else Extend(queue, n + 1, size + queue[n].size)
  }

  function GroupSize(queue: seq<Request>): (n: nat)
    requires queue != []
    ensures 1 <= n <= |queue|
  {
    Extend(queue, 1, queue[0].size)
  }

  function Updates(rs: seq<Request>): seq<Update> {
    if rs == [] then [] else (if rs[0].batch.Some? then rs[0].batch.value else []) + Updates(rs[1..])
  }

  function Bytes(rs: seq<Request>): nat {
    if rs == [] then 0 else (if rs[0].batch.Some? then rs[0].size else 0) + Bytes(rs[1..])
  }

  lemma {:induction false} UpdatesAppend(rs: seq<Request>, r: Request)
    ensures Updates(rs + [r]) == Updates(rs) + if r.batch.Some? then r.batch.value else []
    ensures Bytes(rs + [r]) == Bytes(rs) + if r.batch.Some? then r.size else 0
  {
    if rs == [] {
      assert rs + [r] == [r] && Updates([r][1..]) == [] && Bytes([r][1..]) == 0;
    } else {
      assert (rs + [r])[0] == rs[0] && (rs + [r])[1..] == rs[1..] + [r];
      UpdatesAppend(rs[1..], r);
    }
  }

  /** No sync write rides on a group that is not synced, the group stays within its size, and it could
      not have taken the next writer. */
  ghost predicate IsGroup(queue: seq<Request>, n: nat)
    requires 1 <= n <= |queue|
  {
    && (forall i :: 1 <= i < n && queue[i].sync ==> queue[0].sync)
    && (Bytes(queue[..n]) <= MaxSize(queue[0].size) || Bytes(queue[..n]) == queue[0].size)
    && (n < |queue| ==>
        || (queue[n].sync && !queue[0].sync)
        || (queue[n].batch.Some? && Bytes(queue[..n]) + queue[n].size > MaxSize(queue[0].size)))
  }

  lemma {:induction false} ExtendIsGroup(queue: seq<Request>, n: nat, size: nat)
    requires 1 <= n <= |queue| && size == Bytes(queue[..n])
    requires forall i :: 1 <= i < n && queue[i].sync ==> queue[0].sync
    requires size <= MaxSize(queue[0].size) || size == queue[0].size
    ensures IsGroup(queue, Extend(queue, n, size))
    decreases |queue| - n
  {
    hide MaxSize, Bytes;
    if n < |queue| && !(queue[n].sync && !queue[0].sync) {
      UpdatesAppend(queue[..n], queue[n]);
      assert queue[..n + 1] == queue[..n] + [queue[n]];
      if queue[n].batch.None? {
        ExtendIsGroup(queue, n + 1, size);
      } else if size + queue[n].size <= MaxSize(queue[0].size) {
        ExtendIsGroup(queue, n + 1, size + queue[n].size);
      }
    }
  }

  /** The leader's group is the longest the rules allow. */
  lemma GroupIsLongest(queue: seq<Request>)
    requires queue != [] && queue[0].batch.Some?
    ensures IsGroup(queue, GroupSize(queue))
  {
    assert queue[..1] == [queue[0]] && Bytes([queue[0]][1..]) == 0;
    ExtendIsGroup(queue, 1, queue[0].size);
  }

  /** BuildBatchGroup: the members' updates in one batch, and who is the last member. */
  method BuildBatchGroup(queue: seq<Request>) returns (result: seq<Update>, last: nat)
    requires queue != [] && queue[0].batch.Some?
    ensures last + 1 == GroupSize(queue) && result == Updates(queue[..last + 1])
  {
    var first := queue[0];
    result := first.batch.value;
    var size: nat := first.size;
    var maxSize := 0x10_0000;
    if size <= 0x2_0000 {
      maxSize := size + 0x2_0000;
    }
    last := 0;
    assert queue[..1] == [first] && Updates([first][1..]) == [];
    var i: nat := 1;
    while i < |queue|
      invariant 1 <= i <= |queue| && last + 1 == i && maxSize == MaxSize(first.size)
      invariant GroupSize(queue) == Extend(queue, i, size)
      invariant result == Updates(queue[..i])
      decreases |queue| - i
    {
      var w := queue[i];
      UpdatesAppend(queue[..i], w);
      assert queue[..i + 1] == queue[..i] + [w];
      if w.sync && !first.sync {
        break;
      }
      if w.batch.Some? {
        size := size + w.size;
        if size > maxSize {
          break;
        }
        result := result + w.batch.value;
      }
      last := i;
      i := i + 1;
    }
  }

  // --- The state all threads share ---

  /** A group of `size` queued writers, the first of them number `leader` in arrival order; sequence
      numbers start at `first`. Its updates reached the memtable exactly if `ok`. */
  datatype Group = Group(leader: nat, size: nat, first: nat, updates: seq<Update>, ok: bool)

  datatype Phase =
    | Waiting                                   // nobody at the head has started
    | MakingRoom                                // the head is in MakeRoomForWrite
    | Logging(group: Group)                     // mutex released: the group goes to the log
    | Inserting(group: Group, done: nat)        // mutex released: `done` updates are in the memtable
    | LogFailed(group: Group)
    | Retiring(leader: nat, left: nat, status: Status)   // `left` members are still queued

  /** What a reader pins under the mutex. */
  datatype Pinned = Pinned(mem: nat, imm: Option<nat>, files: set<Entry>, snap: nat)

  datatype Retired = Retired(leader: nat, status: Status)

  datatype State = State(
    queue: seq<Request>,           // writers_
    phase: Phase,
    lastSequence: nat,
    tables: seq<set<Entry>>,       // all memtables ever; the last is mem_
    imm: Option<nat>,
    files: set<Entry>,             // the entries of the current version
    snapshots: seq<nat>,           // the snapshot list, oldest first
    compaction: Option<nat>,       // the smallest snapshot a running compaction works with
    readers: map<nat, Pinned>,
    // history
    arrivals: seq<Request>, retired: seq<Retired>, groups: seq<Group>, history: set<Entry>)

  function EntryOf(sequence: nat, u: Update): Entry {
    Entry(Key(u.user, sequence, u.kind), u.value)
  }

  /** The first `n` updates of a group as entries: sequence numbers in order, one each. */
  function EntriesOf(g: Group, n: nat): set<Entry>
    requires n <= |g.updates|
  {
    set i | 0 <= i < n :: EntryOf(g.first + i, g.updates[i])
  }

  function Applied(groups: seq<Group>): set<Entry> {
    set k, i | 0 <= k < |groups| && groups[k].ok && 0 <= i < |groups[k].updates| ::
      EntryOf(groups[k].first + i, groups[k].updates[i])
  }

  /** The last sequence number given out by the first `k` groups. */
  function End(groups: seq<Group>, k: nat): nat
    requires k <= |groups|
  {
    if k == 0 then 0 else End(groups, k - 1) + |groups[k - 1].updates|
  }

  const EMPTY_STATE := State([], Waiting, 0, [{}], None, {}, [], None, map[], [], [], [], {})

  function Imm(s: State): set<Entry>
    requires s.imm.Some? ==> s.imm.value < |s.tables|
  {
    if s.imm.Some? then s.tables[s.imm.value] else {}
  }

  function Mem(s: State): set<Entry>
    requires s.tables != []
  {
    s.tables[|s.tables| - 1]
  }

  /** Everything a read finds now. */
  function Contents(s: State): set<Entry>
    requires s.tables != [] && (s.imm.Some? ==> s.imm.value < |s.tables|)
  {
    Mem(s) + Imm(s) + s.files
  }

  /** The oldest snapshot that can still be asked for: what DoCompactionWork works with. */
  function Smallest(s: State): nat {
    if s.snapshots == [] then s.lastSequence else s.snapshots[0]
  }

  // --- Steps ---

  datatype Action =
    | Enqueue(request: Request)
    | Lead                          // the head finds itself in front
    | RoomFails                     // MakeRoomForWrite returns an error
    | SwitchMemTable
    | RoomMade                      // room: group built, or nothing to write
    | LogSucceeds | LogBreaks       // AddRecord and Sync
    | InsertOne                     // one Add of InsertInto
    | Publish                       // SetLastSequence
    | RetireOne                     // one turn of the final loop
    | Flush                         // CompactMemTable commits
    | StartCompaction
    | InstallCompaction(files: set<Entry>)
    | TakeSnapshot
    | ReleaseSnapshot(index: nat)
    | StartRead(id: nat, snapshot: Option<nat>)   // the index of a snapshot held, or the latest state
    | FinishRead(id: nat)

  /** What a compaction may install: fewer entries, reads kept for every snapshot it must respect. */
  ghost predicate MayInstall(before: set<Entry>, after: set<Entry>, smallest: nat) {
    after <= before && SameReads(before, after, smallest)
  }

  ghost predicate Enabled(s: State, a: Action) {
    match a
    case Enqueue(_) => true
    case Lead => s.phase.Waiting? && s.queue != []
    case RoomFails => s.phase.MakingRoom?
    case SwitchMemTable => s.phase.MakingRoom? && s.imm.None?
    case RoomMade => s.phase.MakingRoom?
    case LogSucceeds => s.phase.Logging?
    case LogBreaks => s.phase.Logging?
    case InsertOne => s.phase.Inserting? && s.phase.done < |s.phase.group.updates|
    case Publish => (s.phase.Inserting? && s.phase.done == |s.phase.group.updates|) || s.phase.LogFailed?
    case RetireOne => s.phase.Retiring?
    case Flush => s.imm.Some?
    case StartCompaction => s.compaction.None?
    case InstallCompaction(files) => s.compaction.Some? && MayInstall(s.files, files, s.compaction.value)
    case TakeSnapshot => true
    case ReleaseSnapshot(index) => index < |s.snapshots|
    case StartRead(id, snapshot) => id !in s.readers && (snapshot.Some? ==> snapshot.value < |s.snapshots|)
    case FinishRead(id) => id in s.readers
  }

  function Built(s: State): Group
    requires s.queue != []
  {
    var n := GroupSize(s.queue);
    Group(|s.retired|, n, s.lastSequence + 1, Updates(s.queue[..n]), false)
  }

  ghost function Apply(s: State, a: Action): State
    requires Shape(s) && Enabled(s, a)
  {
    match a
    case Enqueue(r) => s.(queue := s.queue + [r], arrivals := s.arrivals + [r])
    case Lead => s.(phase := MakingRoom)
    case RoomFails => s.(phase := Retiring(|s.retired|, 1, Failed))
    case SwitchMemTable => s.(imm := Some(|s.tables| - 1), tables := s.tables + [{}])
    case RoomMade => s.(phase := if s.queue[0].batch.None? then Retiring(|s.retired|, 1, OK) else Logging(Built(s)))
    case LogSucceeds => s.(phase := Inserting(s.phase.group, 0))
    case LogBreaks => s.(phase := LogFailed(s.phase.group))
    case InsertOne =>
      var g, i := s.phase.group, s.phase.done;
      var e := EntryOf(g.first + i, g.updates[i]);
      s.(phase := Inserting(g, i + 1), tables := s.tables[|s.tables| - 1 := Mem(s) + {e}], history := s.history + {e})
    case Publish =>
      var g := s.phase.group;
      s.(phase := Retiring(g.leader, g.size, if s.phase.Inserting? then OK else Failed),
         lastSequence := s.lastSequence + |g.updates|,
         groups := s.groups + [g.(ok := s.phase.Inserting?)])
    case RetireOne =>
      var p := s.phase;
      s.(queue := s.queue[1..], retired := s.retired + [Retired(p.leader, p.status)],
         phase := if p.left == 1 then Waiting else p.(left := p.left - 1))
    case Flush => s.(files := s.files + Imm(s), imm := None)
    case StartCompaction => s.(compaction := Some(Smallest(s)))
    case InstallCompaction(files) => s.(files := files, compaction := None)
    case TakeSnapshot => s.(snapshots := s.snapshots + [s.lastSequence])
    case ReleaseSnapshot(i) => s.(snapshots := s.snapshots[..i] + s.snapshots[i + 1..])
    case StartRead(id, snapshot) =>
      s.(readers := s.readers[id := Pinned(|s.tables| - 1, s.imm, s.files,
                                       if snapshot.Some? then s.snapshots[snapshot.value] else s.lastSequence)])
    case FinishRead(id) => s.(readers := s.readers - {id})
  }

  ghost predicate Shape(s: State) {
    && s.tables != [] && (s.imm.Some? ==> s.imm.value < |s.tables|)
    && (!s.phase.Waiting? ==> s.queue != [])
    && (s.phase.Retiring? ==> s.phase.left > 0)
    && (s.phase.Inserting? ==> s.phase.done <= |s.phase.group.updates|)
  }

  // --- The queue: writers retire once each, in arrival order, with their leader's status ---

  ghost predicate GroupFits(s: State, g: Group) {
    && g.leader == |s.retired| && 1 <= g.size <= |s.queue| && g.first == s.lastSequence + 1
    && g.updates == Updates(s.queue[..g.size]) && !g.ok
  }

  ghost predicate QueueInv(s: State)
    ensures QueueInv(s) ==> Shape(s)
  {
    && Shape(s) && |s.arrivals| == |s.retired| + |s.queue| && s.arrivals[|s.retired|..] == s.queue
    && (s.phase.Logging? || s.phase.Inserting? || s.phase.LogFailed? ==> GroupFits(s, s.phase.group))
    && (forall i :: 0 <= i < |s.retired| ==>
        s.retired[i].leader <= i && s.retired[s.retired[i].leader] == s.retired[i])
    && (s.phase.Retiring? ==>
        && s.phase.left <= |s.queue| && s.phase.leader <= |s.retired|
        && (s.phase.leader < |s.retired| ==> s.retired[s.phase.leader] == Retired(s.phase.leader, s.phase.status)))
  }

  lemma QueueKeeps(s: State, a: Action)
    requires QueueInv(s) && Enabled(s, a)
    ensures QueueInv(Apply(s, a))
  {
    hide MayInstall, Updates, EntryOf, Imm, Mem, GroupSize;
    match a {
      case RetireOne => RetireKeeps(s);
      case Enqueue(r) =>
        var t := Apply(s, a);
        assert t.arrivals[|t.retired|..] == t.queue;
        if s.phase.Logging? || s.phase.Inserting? || s.phase.LogFailed? {
          assert t.queue[..s.phase.group.size] == s.queue[..s.phase.group.size];
        }
      case _ =>
    }
  }

  lemma RetireKeeps(s: State)
    requires QueueInv(s) && s.phase.Retiring?
    ensures QueueInv(Apply(s, RetireOne))
  {
    hide Updates, EntryOf, Imm, Mem, MayInstall;
    var t := Apply(s, RetireOne);
    assert t.arrivals[|t.retired|..] == s.arrivals[|s.retired|..][1..];
  }

  // --- The store: no sequence number is used twice, and reads see what was written ---

  /** The last sequence number that any inserted entry may have. */
  function Top(s: State): nat {
    s.lastSequence + if s.phase.Inserting? then s.phase.done else 0
  }

  ghost predicate UniqueSequences(es: set<Entry>) {
    forall e, f :: e in es && f in es && e.key.sequence == f.key.sequence ==> e == f
  }

  ghost predicate Older(a: set<Entry>, b: set<Entry>) {
    forall e, f :: e in a && f in b ==> e.key.sequence < f.key.sequence
  }

  ghost predicate Ascending(ns: seq<nat>, top: nat) {
    (forall i, j :: 0 <= i < j < |ns| ==> ns[i] <= ns[j]) && forall i :: 0 <= i < |ns| ==> ns[i] <= top
  }

  /** The layers a read goes through, newest first. */
  ghost predicate Layered(mem: set<Entry>, imm: set<Entry>, files: set<Entry>) {
    Older(imm, mem) && Older(files, mem) && Older(files, imm)
  }

  ghost predicate StoreInv(s: State) {
    && s.tables != [] && (s.imm.Some? ==> s.imm.value < |s.tables| - 1)
    && Layered(Mem(s), Imm(s), s.files) && Contents(s) <= s.history
    && UniqueSequences(s.history) && (forall e :: e in s.history ==> e.key.sequence <= Top(s))
    && Ascending(s.snapshots, s.lastSequence)
    && (s.compaction.Some? ==> s.compaction.value <= Smallest(s))
    && SameReads(s.history, Contents(s), Smallest(s))
  }

  lemma Unique(es: set<Entry>, some: set<Entry>)
    requires UniqueSequences(es) && some <= es
    ensures Distinct(some)
  {
  }

  /** A newer entry on top of both changes reads of both alike, and reads below it of neither. */
  lemma AddNewest(a: set<Entry>, e: Entry, u: UserKey, n: nat)
    requires Distinct(a + {e}) && forall f :: f in a ==> f.key.sequence < e.key.sequence
    ensures Lookup(a + {e}, u, n) == if u == e.key.user && e.key.sequence <= n then Visible(e) else Lookup(a, u, n)
  {
    if u == e.key.user && e.key.sequence <= n {
      assert Newest(a + {e}, u, n, e);
      LookupNewest(a + {e}, u, n, e);
    } else {
      assert forall f :: Candidate(a + {e}, u, n, f) <==> Candidate(a, u, n, f);
      LookupByCandidates(a + {e}, n, a, n, u);
    }
  }

  lemma InsertKeepsReads(history: set<Entry>, contents: set<Entry>, e: Entry, smallest: nat)
    requires UniqueSequences(history) && contents <= history && SameReads(history, contents, smallest)
    requires forall f :: f in history ==> f.key.sequence < e.key.sequence
    ensures UniqueSequences(history + {e}) && SameReads(history + {e}, contents + {e}, smallest)
  {
    hide Lookup, Visible;
    Unique(history + {e}, history + {e});
    Unique(history + {e}, contents + {e});
    forall u, n: nat | n >= smallest ensures Lookup(history + {e}, u, n) == Lookup(contents + {e}, u, n) {
      AddNewest(history, e, u, n);
      AddNewest(contents, e, u, n);
    }
  }

  /** What lies below may be replaced by anything that reads the same. */
  lemma SwapLower(upper: set<Entry>, lower: set<Entry>, lower1: set<Entry>, smallest: nat)
    requires Distinct(upper + lower) && Older(lower, upper) && MayInstall(lower, lower1, smallest)
    ensures SameReads(upper + lower, upper + lower1, smallest)
  {
    hide Lookup;
    forall u, n: nat | n >= smallest ensures Lookup(upper + lower, u, n) == Lookup(upper + lower1, u, n) {
      if c :| Candidate(upper, u, n, c) {
        NewestExists(upper, u, n, c);
        var e :| Newest(upper, u, n, e);
        LayeredLookup(upper, lower, u, n, Some(e));
        LayeredLookup(upper, lower1, u, n, Some(e));
      } else {
        LayeredLookup(upper, lower, u, n, None);
        LayeredLookup(upper, lower1, u, n, None);
      }
    }
  }

  lemma InsertKeepsStore(s: State)
    requires StoreInv(s) && QueueInv(s) && Enabled(s, InsertOne)
    ensures StoreInv(Apply(s, InsertOne))
  {
    hide Lookup, Updates, SameReads, UniqueSequences, MayInstall;
    var g, i := s.phase.group, s.phase.done;
    var e := EntryOf(g.first + i, g.updates[i]);
    var t := Apply(s, InsertOne);
    InsertKeepsReads(s.history, Contents(s), e, Smallest(s));
    assert Imm(t) == Imm(s) && Mem(t) == Mem(s) + {e};
    assert Contents(t) == Contents(s) + {e};
  }

  lemma InstallKeepsStore(s: State, files: set<Entry>)
    requires StoreInv(s) && Shape(s) && Enabled(s, InstallCompaction(files))
    ensures StoreInv(Apply(s, InstallCompaction(files)))
  {
    hide Lookup, UniqueSequences;
    Unique(s.history, Contents(s));
    var upper := Mem(s) + Imm(s);
    SwapLower(upper, s.files, files, s.compaction.value);
  }

  lemma StoreKeeps(s: State, a: Action)
    requires StoreInv(s) && QueueInv(s) && Enabled(s, a)
    ensures StoreInv(Apply(s, a)) && Smallest(s) <= Smallest(Apply(s, a))
  {
    hide Lookup, Updates, UniqueSequences, MayInstall, QueueInv, SameReads;
    match a {
      case InsertOne =>
        InsertKeepsStore(s);
      case InstallCompaction(files) =>
        InstallKeepsStore(s, files);
      case SwitchMemTable =>
        var t := Apply(s, a);
        assert Mem(t) == {} && Imm(t) == Mem(s) && Contents(t) == Contents(s);
      case Flush =>
        var t := Apply(s, a);
        assert Mem(t) == Mem(s) && Imm(t) == {} && Contents(t) == Contents(s);
      case Publish =>
        PublishKeepsStore(s);
      case _ =>
        SmallestMoves(s, a);
    }
  }

  lemma PublishKeepsStore(s: State)
    requires StoreInv(s) && QueueInv(s) && Enabled(s, Publish)
    ensures StoreInv(Apply(s, Publish)) && Smallest(s) <= Smallest(Apply(s, Publish))
  {
    hide Lookup, Updates, UniqueSequences;
  }

  lemma SmallestMoves(s: State, a: Action)
    requires StoreInv(s) && Shape(s) && Enabled(s, a)
    requires !a.InsertOne? && !a.InstallCompaction? && !a.SwitchMemTable? && !a.Flush? && !a.Publish?
    ensures StoreInv(Apply(s, a)) && Smallest(s) <= Smallest(Apply(s, a))
  {
    hide Lookup, Updates, UniqueSequences, MayInstall, SameReads, Layered, Ascending;
    var t := Apply(s, a);
    assert Mem(t) == Mem(s) && Imm(t) == Imm(s) && Contents(t) == Contents(s) && t.history == s.history &&
           Top(t) == Top(s);
    SnapshotListKeeps(s, a);
    FewerReads(s.history, Contents(s), Smallest(s), Smallest(t));
  }

  lemma FewerReads(a: set<Entry>, b: set<Entry>, m: nat, n: nat)
    requires SameReads(a, b, m) && m <= n
    ensures SameReads(a, b, n)
  {
    hide Lookup;
  }

  lemma SnapshotListKeeps(s: State, a: Action)
    requires Ascending(s.snapshots, s.lastSequence) && Shape(s) && Enabled(s, a)
    requires !a.InsertOne? && !a.InstallCompaction? && !a.SwitchMemTable? && !a.Flush? && !a.Publish?
    ensures var t := Apply(s, a); Ascending(t.snapshots, t.lastSequence) && Smallest(s) <= Smallest(t)
  {
    hide MayInstall, Updates;
  }

  // --- Groups: what is written is exactly the groups that succeeded, whole ---

  function Pending(s: State): set<Entry>
    requires s.phase.Inserting? ==> s.phase.done <= |s.phase.group.updates|
  {
    if s.phase.Inserting? then EntriesOf(s.phase.group, s.phase.done) else {}
  }

  /** The arrival numbers that groups may have reached. */
  function Frontier(s: State): nat {
    |s.retired| + if s.phase.Retiring? then s.phase.left else 0
  }

  /** Groups number their updates consecutively, from 1 on. */
  ghost predicate NumberedInTurn(gs: seq<Group>, last: nat) {
    last == End(gs, |gs|) && forall k :: 0 <= k < |gs| ==> gs[k].first == End(gs, k) + 1
  }

  /** Each group's updates are those of a run of writers that has left the queue, or is leaving it. */
  ghost predicate TakenInTurn(gs: seq<Group>, arrivals: seq<Request>, frontier: nat) {
    frontier <= |arrivals| && forall k :: 0 <= k < |gs| ==>
      gs[k].leader + gs[k].size <= frontier &&
        gs[k].updates == Updates(arrivals[gs[k].leader..gs[k].leader + gs[k].size])
  }

  ghost predicate GroupInv(s: State) {
    && Shape(s) && NumberedInTurn(s.groups, s.lastSequence) && TakenInTurn(s.groups, s.arrivals, Frontier(s))
    && s.history == Applied(s.groups) + Pending(s)
  }

  lemma {:induction false} EndOfPrefix(gs: seq<Group>, hs: seq<Group>, k: nat)
    requires k <= |gs| && gs <= hs
    ensures End(hs, k) == End(gs, k)
  {
    if k > 0 {
      EndOfPrefix(gs, hs, k - 1);
    }
  }

  lemma AppliedAppend(gs: seq<Group>, g: Group)
    ensures Applied(gs + [g]) == Applied(gs) + if g.ok then EntriesOf(g, |g.updates|) else {}
  {
    hide Applied, EntryOf;
    var hs := gs + [g];
    forall e ensures e in Applied(hs) <==> e in Applied(gs) + if g.ok then EntriesOf(g, |g.updates|) else {} {
      AppliedHas(gs, e);
      AppliedHas(hs, e);
      if l: nat, i: nat :| IsUpdate(gs, l, i, e) {
        assert IsUpdate(hs, l, i, e);
      }
      if g.ok && e in EntriesOf(g, |g.updates|) {
        var i :| 0 <= i < |g.updates| && e == EntryOf(g.first + i, g.updates[i]);
        assert IsUpdate(hs, |gs|, i, e);
      }
      if l: nat, i: nat :| IsUpdate(hs, l, i, e) {
        assert l < |gs| ==> IsUpdate(gs, l, i, e);
      }
    }
  }

  lemma NumberedAppend(gs: seq<Group>, last: nat, g: Group)
    requires NumberedInTurn(gs, last) && g.first == last + 1
    ensures NumberedInTurn(gs + [g], last + |g.updates|)
  {
    hide End;
    var hs := gs + [g];
    EndStep(hs, |hs|);
    forall k | 0 <= k < |hs| ensures hs[k].first == End(hs, k) + 1 {
      EndOfPrefix(gs, hs, k);
      assert k < |gs| ==> hs[k] == gs[k];
    }
    EndOfPrefix(gs, hs, |gs|);
  }

  lemma EndStep(gs: seq<Group>, k: nat)
    requires 0 < k <= |gs|
    ensures End(gs, k) == End(gs, k - 1) + |gs[k - 1].updates|
  {
  }

  lemma TakenAppend(gs: seq<Group>, arrivals: seq<Request>, frontier: nat, g: Group)
    requires TakenInTurn(gs, arrivals, frontier) && g.leader == frontier && frontier + g.size <= |arrivals|
    requires g.updates == Updates(arrivals[frontier..][..g.size])
    ensures TakenInTurn(gs + [g], arrivals, frontier + g.size)
  {
    hide Updates;
    assert arrivals[g.leader..g.leader + g.size] == arrivals[frontier..][..g.size];
  }

  lemma TakenEarlier(gs: seq<Group>, arrivals: seq<Request>, frontier: nat, more: seq<Request>, frontier1: nat)
    requires TakenInTurn(gs, arrivals, frontier) && frontier <= frontier1 <= |arrivals + more|
    ensures TakenInTurn(gs, arrivals + more, frontier1)
  {
    hide Updates;
    forall k | 0 <= k < |gs|
      ensures gs[k].updates == Updates((arrivals + more)[gs[k].leader..gs[k].leader + gs[k].size])
    {
      assert (arrivals + more)[gs[k].leader..gs[k].leader + gs[k].size] ==
             arrivals[gs[k].leader..gs[k].leader + gs[k].size];
    }
  }

  lemma PublishKeepsGroups(s: State)
    requires GroupInv(s) && QueueInv(s) && Enabled(s, Publish)
    ensures GroupInv(Apply(s, Publish))
  {
    hide EntryOf, Updates, Applied, EntriesOf, NumberedInTurn, TakenInTurn;
    var g := s.phase.group.(ok := s.phase.Inserting?);
    AppliedAppend(s.groups, g);
    SameEntries(s.phase.group, g);
    NumberedAppend(s.groups, s.lastSequence, g);
    TakenAppend(s.groups, s.arrivals, |s.retired|, g);
  }

  lemma SameEntries(g: Group, h: Group)
    requires h == g.(ok := h.ok)
    ensures EntriesOf(h, |h.updates|) == EntriesOf(g, |g.updates|)
  {
  }

  lemma GroupsKeep(s: State, a: Action)
    requires GroupInv(s) && QueueInv(s) && Enabled(s, a)
    ensures GroupInv(Apply(s, a)) && s.groups <= Apply(s, a).groups && s.arrivals <= Apply(s, a).arrivals
  {
    hide EntryOf, Updates, Applied, EntriesOf, MayInstall, GroupFits, NumberedInTurn, TakenInTurn, GroupSize, Imm, Mem;
    var t := Apply(s, a);
    match a {
      case Publish =>
        PublishKeepsGroups(s);
      case InsertOne =>
        OneMore(s.phase.group, s.phase.done);
      case LogSucceeds =>
        NoneYet(s.phase.group);
      case Enqueue(r) =>
        TakenEarlier(s.groups, s.arrivals, Frontier(s), [r], Frontier(t));
      case _ =>
        TakenEarlier(s.groups, s.arrivals, Frontier(s), [], Frontier(t));
        assert s.arrivals + [] == s.arrivals;
    }
  }

  lemma NoneYet(g: Group)
    ensures EntriesOf(g, 0) == {}
  {
  }

  lemma OneMore(g: Group, i: nat)
    requires i < |g.updates|
    ensures EntriesOf(g, i + 1) == EntriesOf(g, i) + {EntryOf(g.first + i, g.updates[i])}
  {
    hide EntryOf;
  }

  // --- Statuses: a writer is told OK exactly if its updates were applied ---

  ghost predicate Covered(gs: seq<Group>, i: nat) {
    exists k :: 0 <= k < |gs| && gs[k].ok && gs[k].leader <= i < gs[k].leader + gs[k].size
  }

  ghost predicate StatusInv(s: State) {
    && Frontier(s) <= |s.arrivals| && |s.retired| <= |s.arrivals|
    && (forall i :: 0 <= i < |s.retired| && s.arrivals[i].batch.Some? ==>
        (s.retired[i].status.OK? <==> Covered(s.groups, i)))
    && (s.phase.Retiring? ==> forall i :: |s.retired| <= i < Frontier(s) && s.arrivals[i].batch.Some? ==>
        (s.phase.status.OK? <==> Covered(s.groups, i)))
    && (forall k :: 0 <= k < |s.groups| ==> s.groups[k].leader + s.groups[k].size <= Frontier(s))
  }

  lemma StatusKeeps(s: State, a: Action)
    requires StatusInv(s) && QueueInv(s) && Enabled(s, a)
    ensures StatusInv(Apply(s, a))
  {
    hide EntryOf, Updates, MayInstall, Covered, Imm, Mem, GroupSize;
    match a {
      case Publish =>
        PublishKeepsStatus(s);
      case RoomMade =>
        NotCovered(s.groups, |s.retired|);
        assert s.arrivals[|s.retired|] == s.arrivals[|s.retired|..][0];
      case RoomFails =>
        NotCovered(s.groups, |s.retired|);
      case _ =>
    }
  }

  lemma NotCovered(gs: seq<Group>, i: nat)
    requires forall k :: 0 <= k < |gs| ==> gs[k].leader + gs[k].size <= i
    ensures !Covered(gs, i)
  {
  }

  lemma PublishKeepsStatus(s: State)
    requires StatusInv(s) && QueueInv(s) && Enabled(s, Publish)
    ensures StatusInv(Apply(s, Publish))
  {
    hide EntryOf, Updates, Covered;
    var t := Apply(s, Publish);
    var g := s.phase.group.(ok := s.phase.Inserting?);
    forall i | 0 <= i < |s.retired| ensures Covered(t.groups, i) <==> Covered(s.groups, i) {
      CoveredAppend(s.groups, g, i);
    }
    forall i | |s.retired| <= i < Frontier(t) ensures Covered(t.groups, i) <==> s.phase.Inserting? {
      CoveredAppend(s.groups, g, i);
      NotCovered(s.groups, i);
    }
  }

  lemma CoveredAppend(gs: seq<Group>, g: Group, i: nat)
    ensures Covered(gs + [g], i) <==> Covered(gs, i) || (g.ok && g.leader <= i < g.leader + g.size)
  {
    var hs := gs + [g];
    if Covered(gs, i) {
      var k :| 0 <= k < |gs| && gs[k].ok && gs[k].leader <= i < gs[k].leader + gs[k].size;
      assert hs[k] == gs[k];
    }
    assert hs[|gs|] == g;
  }

  // --- Readers ---

  function ViewOf(s: State, v: Pinned): set<Entry>
    requires v.mem < |s.tables| && (v.imm.Some? ==> v.imm.value < |s.tables|)
  {
    s.tables[v.mem] + (if v.imm.Some? then s.tables[v.imm.value] else {}) + v.files
  }

  /** A pinned view reads at its snapshot as the whole history does, though its memtable may still grow. */
  ghost predicate PinnedOk(s: State, v: Pinned) {
    && v.mem < |s.tables| && (v.imm.Some? ==> v.imm.value < v.mem) && v.snap <= s.lastSequence
    && Layered(s.tables[v.mem], if v.imm.Some? then s.tables[v.imm.value] else {}, v.files)
    && ViewOf(s, v) <= s.history
    && forall u :: Lookup(ViewOf(s, v), u, v.snap) == Lookup(s.history, u, v.snap)
  }

  ghost predicate ReadInv(s: State) {
    forall id :: id in s.readers ==> PinnedOk(s, s.readers[id])
  }

  lemma InsertedIsNewest(s: State)
    requires StoreInv(s) && QueueInv(s) && Enabled(s, InsertOne)
    ensures var e := EntryOf(s.phase.group.first + s.phase.done, s.phase.group.updates[s.phase.done]);
            && (forall f :: f in s.history ==> f.key.sequence < e.key.sequence) && e.key.sequence > s.lastSequence
            && UniqueSequences(s.history + {e})
  {
    hide Lookup, Updates, SameReads, Layered, Ascending;
  }

  /** Only the last table grows, and only by the newest entry. */
  lemma InsertKeepsPinned(s: State, v: Pinned)
    requires StoreInv(s) && QueueInv(s) && Enabled(s, InsertOne) && PinnedOk(s, v)
    ensures PinnedOk(Apply(s, InsertOne), v)
  {
    hide Lookup, Updates, UniqueSequences, StoreInv, GroupFits, QueueInv;
    var e := EntryOf(s.phase.group.first + s.phase.done, s.phase.group.updates[s.phase.done]);
    var t := Apply(s, InsertOne);
    InsertedIsNewest(s);
    Unique(t.history, t.history);
    Unique(t.history, ViewOf(s, v) + {e});
    assert ViewOf(t, v) == if v.mem == |s.tables| - 1 then ViewOf(s, v) + {e} else ViewOf(s, v);
    forall u ensures Lookup(ViewOf(t, v), u, v.snap) == Lookup(t.history, u, v.snap) {
      AddNewest(s.history, e, u, v.snap);
      AddNewest(ViewOf(s, v), e, u, v.snap);
    }
  }

  lemma NewPinned(s: State, snapshot: Option<nat>)
    requires StoreInv(s) && Shape(s) && (snapshot.Some? ==> snapshot.value < |s.snapshots|)
    ensures PinnedOk(s, Pinned(|s.tables| - 1, s.imm, s.files,
                               if snapshot.Some? then s.snapshots[snapshot.value] else s.lastSequence))
  {
    hide Lookup, UniqueSequences;
    var v := Pinned(|s.tables| - 1, s.imm, s.files,
                    if snapshot.Some? then s.snapshots[snapshot.value] else s.lastSequence);
    assert ViewOf(s, v) == Contents(s);
  }

  lemma PinnedStays(s: State, t: State, v: Pinned)
    requires PinnedOk(s, v) && s.tables <= t.tables && t.history == s.history && s.lastSequence <= t.lastSequence
    ensures PinnedOk(t, v)
  {
    hide Lookup, Layered;
    assert ViewOf(t, v) == ViewOf(s, v);
  }

  lemma ReadsKeep(s: State, a: Action)
    requires ReadInv(s) && StoreInv(s) && QueueInv(s) && Enabled(s, a)
    ensures ReadInv(Apply(s, a))
  {
    hide Lookup, Updates, StoreInv, MayInstall, PinnedOk, QueueInv;
    var t := Apply(s, a);
    forall id | id in t.readers ensures PinnedOk(t, t.readers[id]) {
      if a.InsertOne? {
        InsertKeepsPinned(s, s.readers[id]);
      } else {
        if a.StartRead? && a.id == id {
          NewPinned(s, a.snapshot);
          PinnedStays(s, t, t.readers[id]);
        } else {
          PinnedStays(s, t, s.readers[id]);
        }
      }
    }
  }

  // --- Snapshots stand at the ends of groups ---

  ghost predicate AtBoundary(gs: seq<Group>, n: nat) {
    exists k :: 0 <= k <= |gs| && End(gs, k) == n
  }

  ghost predicate BoundaryInv(s: State) {
    && AtBoundary(s.groups, s.lastSequence)
    && (forall i :: 0 <= i < |s.snapshots| ==> AtBoundary(s.groups, s.snapshots[i]))
    && (forall id :: id in s.readers ==> AtBoundary(s.groups, s.readers[id].snap))
  }

  lemma BoundaryStays(gs: seq<Group>, hs: seq<Group>, n: nat)
    requires AtBoundary(gs, n) && gs <= hs
    ensures AtBoundary(hs, n)
  {
    var k :| 0 <= k <= |gs| && End(gs, k) == n;
    EndOfPrefix(gs, hs, k);
  }

  lemma BoundariesKeep(s: State, a: Action)
    requires BoundaryInv(s) && GroupInv(s) && QueueInv(s) && Enabled(s, a)
    ensures BoundaryInv(Apply(s, a))
  {
    hide Updates, EntryOf, Applied, MayInstall, AtBoundary, GroupFits, End, TakenInTurn;
    var t := Apply(s, a);
    GroupsKeep(s, a);
    forall n | AtBoundary(s.groups, n) ensures AtBoundary(t.groups, n) {
      BoundaryStays(s.groups, t.groups, n);
    }
    assert AtBoundary(t.groups, t.lastSequence) by {
      LastIsBoundary(t.groups, t.lastSequence);
    }
  }

  lemma LastIsBoundary(gs: seq<Group>, n: nat)
    requires n == End(gs, |gs|)
    ensures AtBoundary(gs, n)
  {
  }

  // --- Whole runs ---

  ghost predicate Inv(s: State) {
    QueueInv(s) && StoreInv(s) && GroupInv(s) && StatusInv(s) && ReadInv(s) && BoundaryInv(s)
  }

  lemma EmptyIsFine()
    ensures Inv(EMPTY_STATE)
  {
    hide Lookup;
    assert AtBoundary([], 0) by {
      assert End([], 0) == 0;
    }
  }

  lemma StepKeeps(s: State, a: Action)
    requires Inv(s) && Enabled(s, a)
    ensures Inv(Apply(s, a))
    ensures s.groups <= Apply(s, a).groups && s.arrivals <= Apply(s, a).arrivals && s.retired <= Apply(s, a).retired
    ensures s.lastSequence <= Apply(s, a).lastSequence
  {
    hide QueueInv, StoreInv, GroupInv, StatusInv, ReadInv, BoundaryInv, Enabled, Apply;
    QueueKeeps(s, a);
    StoreKeeps(s, a);
    GroupsKeep(s, a);
    StatusKeeps(s, a);
    ReadsKeep(s, a);
    BoundariesKeep(s, a);
    HistoryGrows(s, a);
  }

  lemma HistoryGrows(s: State, a: Action)
    requires Shape(s) && Enabled(s, a)
    ensures s.retired <= Apply(s, a).retired && s.lastSequence <= Apply(s, a).lastSequence
  {
    hide MayInstall, Imm, Mem, EntryOf, Updates;
  }

  ghost predicate IsRun(ss: seq<State>, actions: seq<Action>) {
    && |ss| == |actions| + 1 && Inv(ss[0])
    && forall i :: 0 <= i < |actions| ==>
         Shape(ss[i]) && Enabled(ss[i], actions[i]) && ss[i + 1] == Apply(ss[i], actions[i])
  }

  /** Every state of every run keeps the invariants, and history only grows. */
  lemma {:induction false} RunsKeep(ss: seq<State>, actions: seq<Action>, i: nat, j: nat)
    requires IsRun(ss, actions) && i <= j < |ss|
    ensures Inv(ss[i]) && Inv(ss[j])
    ensures ss[i].groups <= ss[j].groups && ss[i].arrivals <= ss[j].arrivals && ss[i].retired <= ss[j].retired
    decreases j
  {
    hide Inv, Shape, Enabled, Apply;
    if j > 0 {
      RunsKeep(ss, actions, if i < j then i else j - 1, j - 1);
      StepKeeps(ss[j - 1], actions[j - 1]);
    }
  }

  /** No sequence number is given to two updates, and none is skipped within a group. */
  lemma SequencesAreUnique(ss: seq<State>, actions: seq<Action>, i: nat, e: Entry, f: Entry)
    requires IsRun(ss, actions) && i < |ss|
    requires e in ss[i].history && f in ss[i].history && e.key.sequence == f.key.sequence
    ensures e == f
  {
    hide Shape, Enabled, Apply, QueueInv, GroupInv, StatusInv, ReadInv, BoundaryInv, SameReads, Layered, IsRun;
    RunsKeep(ss, actions, i, i);
  }

  /** What is visible at the end of the first `k` groups: those groups that succeeded, whole, and nothing else. */
  lemma WholeGroupsOrNone(s: State, k: nat, e: Entry)
    requires GroupInv(s) && k <= |s.groups|
    requires s.phase.Inserting? ==> s.phase.group.first == s.lastSequence + 1
    ensures e in s.history && e.key.sequence <= End(s.groups, k) <==> e in Applied(s.groups[..k])
  {
    hide TakenInTurn, NumberedInTurn, Updates, Applied, End, EntryOf;
    EndsAscend(s.groups, k, |s.groups|);
    AppliedUpTo(s.groups, s.lastSequence, k, e);
    if e in Pending(s) {
      PendingIsLater(s.phase.group, s.phase.done, e);
      assert s.lastSequence == End(s.groups, |s.groups|) by { LastIsEnd(s.groups, s.lastSequence); }
    }
  }

  lemma LastIsEnd(gs: seq<Group>, last: nat)
    requires NumberedInTurn(gs, last)
    ensures last == End(gs, |gs|)
  {
  }

  lemma PendingIsLater(g: Group, done: nat, e: Entry)
    requires done <= |g.updates| && e in EntriesOf(g, done)
    ensures e.key.sequence >= g.first
  {
  }

  /** `e` is update `i` of group `l`, which succeeded. */
  predicate IsUpdate(gs: seq<Group>, l: nat, i: nat, e: Entry) {
    l < |gs| && gs[l].ok && i < |gs[l].updates| && e == EntryOf(gs[l].first + i, gs[l].updates[i])
  }

  lemma AppliedHas(gs: seq<Group>, e: Entry)
    ensures e in Applied(gs) <==> exists l: nat, i: nat :: IsUpdate(gs, l, i, e)
  {
    if e in Applied(gs) {
      var l, i :| 0 <= l < |gs| && gs[l].ok && 0 <= i < |gs[l].updates| &&
        e == EntryOf(gs[l].first + i, gs[l].updates[i]);
      assert IsUpdate(gs, l, i, e);
    }
  }

  lemma SequenceOfUpdate(gs: seq<Group>, last: nat, l: nat, i: nat, e: Entry)
    requires NumberedInTurn(gs, last) && IsUpdate(gs, l, i, e)
    ensures End(gs, l) < e.key.sequence <= End(gs, l + 1)
  {
    EndStep(gs, l + 1);
  }

  lemma AppliedUpTo(gs: seq<Group>, last: nat, k: nat, e: Entry)
    requires NumberedInTurn(gs, last) && k <= |gs|
    ensures e in Applied(gs) && e.key.sequence <= End(gs, k) <==> e in Applied(gs[..k])
  {
    hide End, Applied, NumberedInTurn;
    AppliedHas(gs, e);
    AppliedHas(gs[..k], e);
    if l: nat, i: nat :| IsUpdate(gs[..k], l, i, e) {
      assert IsUpdate(gs, l, i, e);
      SequenceOfUpdate(gs, last, l, i, e);
      EndsAscend(gs, l + 1, k);
    }
    if e.key.sequence <= End(gs, k) {
      if l: nat, i: nat :| IsUpdate(gs, l, i, e) {
        SequenceOfUpdate(gs, last, l, i, e);
        if l >= k {
          EndsAscend(gs, k, l);
        }
        assert IsUpdate(gs[..k], l, i, e);
      }
    }
  }

  lemma {:induction false} EndsAscend(gs: seq<Group>, k: nat, l: nat)
    requires k <= l <= |gs|
    ensures End(gs, k) <= End(gs, l)
  {
    if k < l {
      EndsAscend(gs, k, l - 1);
    }
  }

  /** A read pinned at a snapshot sees exactly the first `k` groups, for some `k`: whole groups or none of
      them; and what it sees is what any other read pinned at the same snapshot sees, at any time. */
  lemma ReadsAreConsistent(ss: seq<State>, actions: seq<Action>, i: nat, j: nat, id: nat, id1: nat, user: UserKey)
    requires IsRun(ss, actions) && i <= j < |ss|
    requires id in ss[i].readers && id1 in ss[j].readers && ss[i].readers[id].snap == ss[j].readers[id1].snap
    ensures PinnedOk(ss[i], ss[i].readers[id]) && PinnedOk(ss[j], ss[j].readers[id1])
    ensures exists k :: 0 <= k <= |ss[i].groups| && End(ss[i].groups, k) == ss[i].readers[id].snap &&
              Lookup(ViewOf(ss[i], ss[i].readers[id]), user, ss[i].readers[id].snap) ==
              Lookup(Applied(ss[i].groups[..k]), user, ss[i].readers[id].snap)
    ensures Lookup(ViewOf(ss[i], ss[i].readers[id]), user, ss[i].readers[id].snap) ==
            Lookup(ViewOf(ss[j], ss[j].readers[id1]), user, ss[j].readers[id1].snap)
  {
    hide Shape, Enabled, Apply, Lookup, IsRun, Applied, StoreInv, GroupInv, QueueInv, StatusInv;
    RunsKeep(ss, actions, i, j);
    var s, t := ss[i], ss[j];
    var snap := s.readers[id].snap;
    assert AtBoundary(s.groups, snap);
    var k :| 0 <= k <= |s.groups| && End(s.groups, k) == snap;
    EndOfPrefix(s.groups, t.groups, k);
    assert t.groups[..k] == s.groups[..k];
    ReadsGroups(s, k, user);
    ReadsGroups(t, k, user);
  }

  /** Reading at the end of a group is reading the groups up to it. */
  lemma ReadsGroups(s: State, k: nat, user: UserKey)
    requires Inv(s) && k <= |s.groups|
    ensures Lookup(s.history, user, End(s.groups, k)) == Lookup(Applied(s.groups[..k]), user, End(s.groups, k))
  {
    hide Lookup, Applied, SameReads, Layered, Ascending, StatusInv, ReadInv, BoundaryInv, NumberedInTurn, TakenInTurn,
         End;
    var n, some := End(s.groups, k), Applied(s.groups[..k]);
    forall e ensures (e in s.history && e.key.sequence <= n) <==> e in some {
      WholeGroupsOrNone(s, k, e);
    }
    Unique(s.history, s.history);
    Unique(s.history, some);
    LookupByCandidates(s.history, n, some, n, user);
  }

  /** A writer that has returned was the oldest still waiting when it was retired; it got its leader's
      status; and it was told OK exactly if its updates are in a group that was applied. */
  lemma WritersRetireInOrder(ss: seq<State>, actions: seq<Action>, i: nat, w: nat)
    requires IsRun(ss, actions) && i < |ss|
    ensures |ss[i].arrivals| == |ss[i].retired| + |ss[i].queue| && ss[i].arrivals[|ss[i].retired|..] == ss[i].queue
    ensures w < |ss[i].retired| ==>
            && ss[i].retired[w].leader <= w && ss[i].retired[ss[i].retired[w].leader] == ss[i].retired[w]
            && (ss[i].arrivals[w].batch.Some? ==> (ss[i].retired[w].status.OK? <==> Covered(ss[i].groups, w)))
  {
    hide Shape, Enabled, Apply, StoreInv, GroupInv, ReadInv, BoundaryInv, IsRun, Covered;
    RunsKeep(ss, actions, i, i);
  }
}
