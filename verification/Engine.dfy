/** The write protocol over real versions: flushes and compactions install files as db/version_set.cc does, and what the
    protocol asks of them holds. */
module Engines {
  import opened Lsm
  import opened Wrappers
  import opened Files
  import opened Versions
  import opened InputPicking
  import opened Compactions
  import opened Installs
  import opened StraddlingKeys
  import CompactionRuns
  import WriteQueues

  type Version = seq<seq<File>>

  /** The files of the protocol's state are those of a version in shape. */
  ghost predicate Linked(s: WriteQueues.State, v: Version) {
    WriteQueues.Inv(s) && s.files == All(v) && Shape(v)
  }

  /** A compaction that ran from picking to installation, on inputs that no straddling key spoils. */
  ghost predicate Compacts(v: Version, v1: Version, level: nat, in0: seq<File>, in1: seq<File>, outputs: seq<File>,
                           es: seq<Entry>, snap: nat) {
    Ran(v, v1, level, in0, in1, outputs, es, snap) && GoesWell(v, level, in0, in1, snap)
  }

  /** A trivial move of files whose last user keys do not go on in a file left behind. */
  ghost predicate Moves(v: Version, v1: Version, level: nat, in0: seq<File>) {
    && Setting(v, level, in0, []) && Compacted(v, level, in0, [], in0) && Installed(v, v1, level, in0, [], in0)
    && forall f, g :: !Straddles(v[level], in0, g, f)
  }

  /** A memtable written to a file numbered above those of level 0 and installed at a level that
      PickLevelForMemTableOutput may return. */
  ghost predicate Flushes(mem: set<Entry>, v: Version, v1: Version, level: nat, f: File) {
    && Flushed(v, v1, level, f) && WellFormed(f) && Elements(f.entries) == mem
    && (forall g :: g in v[0] ==> g.number < f.number)
    && (level > 0 ==> forall k :: 0 <= k <= level ==> NoOverlap(v[k], f.smallest.user, f.largest.user))
  }

  /** What a compaction installs is what the protocol lets it install. */
  lemma CompactionMayInstall(v: Version, v1: Version, level: nat, in0: seq<File>, in1: seq<File>, outputs: seq<File>,
                             es: seq<Entry>, snap: nat)
    requires Compacts(v, v1, level, in0, in1, outputs, es, snap)
    ensures WriteQueues.MayInstall(All(v), All(v1), snap) && Shape(v1)
  {
    hide All, Shape, SameReads, GoesWell, Compacted, Installed, Setting, Kept, Flatten, Contents;
    CompactionIsSafeIff(v, v1, level, in0, in1, outputs, es, snap);
    CompactionAddsNothing(v, v1, level, in0, in1, outputs);
  }

  /** So is what a trivial move installs. */
  lemma MoveMayInstall(v: Version, v1: Version, level: nat, in0: seq<File>, snap: nat)
    requires Moves(v, v1, level, in0)
    ensures WriteQueues.MayInstall(All(v), All(v1), snap) && Shape(v1)
  {
    hide All, Shape, Compacted, Installed, Setting, Straddles;
    MoveKeepsShapeIff(v, v1, level, in0);
    CompactionRuns.MoveKeepsContents(v, v1, level, in0);
  }

  /** So it does when what stays outside is newer than the inputs. */
  lemma SafeCompactionMayInstall(v: Version, v1: Version, level: nat, in0: seq<File>, in1: seq<File>,
                                 outputs: seq<File>, es: seq<Entry>, snap: nat)
    requires Shape(v) && Distinct(All(v))
    requires Compacted(v, level, in0, in1, outputs) && Installed(v, v1, level, in0, in1, outputs)
    requires Sorted(es) && Elements(es) == Contents(in0 + in1)
    requires Flatten(outputs) == Kept(es, snap, BaseUsers(v, level), |es|)
    requires NewerPerKey(Upper(v, v1, level, in1), Elements(es))
    ensures WriteQueues.MayInstall(All(v), All(v1), snap) && Shape(v1)
  {
    hide All, Shape, SameReads, Compacted, Installed, Kept, Flatten, Contents, Upper, NewerPerKey, Sorted, Distinct;
    CompactionIsSafe(v, v1, level, in0, in1, outputs, es, snap);
    CompactionAddsNothing(v, v1, level, in0, in1, outputs);
  }

  /** One step of the protocol together with the version it leads to. */
  ghost predicate VersionStep(s: WriteQueues.State, a: WriteQueues.Action, v: Version, v1: Version) {
    match a
    case InstallCompaction(files) =>
      && s.compaction.Some? && files == All(v1)
      && ((exists level, in0, in1, outputs, es :: Compacts(v, v1, level, in0, in1, outputs, es, s.compaction.value))
          || exists level, in0 :: Moves(v, v1, level, in0))
    case Flush =>
      && s.imm.Some? && s.imm.value < |s.tables|
      && exists level, f :: Flushes(WriteQueues.Imm(s), v, v1, level, f)
    case _ => WriteQueues.Enabled(s, a) && v1 == v
  }

  lemma InvParts(s: WriteQueues.State)
    requires WriteQueues.Inv(s)
    ensures WriteQueues.Shape(s) && WriteQueues.StoreInv(s)
  {
    hide WriteQueues.StoreInv, WriteQueues.GroupInv, WriteQueues.StatusInv, WriteQueues.ReadInv,
         WriteQueues.BoundaryInv;
  }

  lemma OlderIsNewerPerKey(upper: set<Entry>, lower: set<Entry>)
    requires WriteQueues.Older(lower, upper)
    ensures NewerPerKey(upper, lower)
  {
  }

  lemma FlushIsEnabled(s: WriteQueues.State, v: Version, v1: Version, level: nat, f: File)
    requires WriteQueues.StoreInv(s) && s.files == All(v) && Shape(v)
    requires Flushes(WriteQueues.Imm(s), v, v1, level, f)
    ensures Shape(v1) && All(v1) == s.files + WriteQueues.Imm(s)
  {
    hide All, Shape, Flushed, WellFormed, NewerPerKey, NoOverlap, WriteQueues.UniqueSequences, SameReads, Contents;
    OlderIsNewerPerKey(WriteQueues.Imm(s), s.files);
    FlushIsSafe(v, v1, level, f);
  }

  /** Every such step is a step of the protocol, and keeps the state linked to the version. */
  lemma VersionStepKeeps(s: WriteQueues.State, a: WriteQueues.Action, v: Version, v1: Version)
    requires Linked(s, v) && VersionStep(s, a, v, v1)
    ensures WriteQueues.Shape(s) && WriteQueues.Enabled(s, a) && Linked(WriteQueues.Apply(s, a), v1)
  {
    hide All, Shape, WriteQueues.Inv, WriteQueues.StoreInv, WriteQueues.Shape, WriteQueues.MayInstall, Compacts, Moves,
         Flushes, WriteQueues.Built, WriteQueues.EntryOf;
    InvParts(s);
    match a {
      case InstallCompaction(files) =>
        if level, in0 :| Moves(v, v1, level, in0) {
          MoveMayInstall(v, v1, level, in0, s.compaction.value);
        } else {
          var level, in0, in1, outputs, es :| Compacts(v, v1, level, in0, in1, outputs, es, s.compaction.value);
          CompactionMayInstall(v, v1, level, in0, in1, outputs, es, s.compaction.value);
        }
      case Flush =>
        var level, f :| Flushes(WriteQueues.Imm(s), v, v1, level, f);
        FlushIsEnabled(s, v, v1, level, f);
      case _ =>
    }
    WriteQueues.StepKeeps(s, a);
  }

  ghost predicate EngineSteps(ss: seq<WriteQueues.State>, actions: seq<WriteQueues.Action>, vs: seq<Version>) {
    && |ss| == |vs| == |actions| + 1
    && forall i :: 0 <= i < |actions| ==>
         && VersionStep(ss[i], actions[i], vs[i], vs[i + 1])
         && (WriteQueues.Shape(ss[i]) && WriteQueues.Enabled(ss[i], actions[i]) ==>
               ss[i + 1] == WriteQueues.Apply(ss[i], actions[i]))
  }

  ghost predicate IsEngineRun(ss: seq<WriteQueues.State>, actions: seq<WriteQueues.Action>, vs: seq<Version>) {
    EngineSteps(ss, actions, vs) && Linked(ss[0], vs[0])
  }

  /** The version of a new database. */
  function NoFiles(): (v: Version)
    ensures |v| == NUM_LEVELS && forall l :: 0 <= l < NUM_LEVELS ==> v[l] == []
  {
    seq(NUM_LEVELS, _ => [])
  }

  lemma EmptyIsLinked()
    ensures Linked(WriteQueues.EMPTY_STATE, NoFiles())
  {
    hide WriteQueues.Inv;
    WriteQueues.EmptyIsFine();
    assert All(NoFiles()) == {};
  }

  /** Over whole runs: nothing is assumed of compactions but how they ran, and every version installed is in shape. */
  lemma {:induction false} EngineRunsKeep(ss: seq<WriteQueues.State>, actions: seq<WriteQueues.Action>,
                                          vs: seq<Version>, i: nat)
    requires IsEngineRun(ss, actions, vs) && i < |ss|
    ensures Linked(ss[i], vs[i])
    ensures i < |actions| ==> WriteQueues.Shape(ss[i]) && WriteQueues.Enabled(ss[i], actions[i])
  {
    hide Linked, VersionStep, WriteQueues.Shape, WriteQueues.Enabled, WriteQueues.Apply;
    if i > 0 {
      EngineRunsKeep(ss, actions, vs, i - 1);
      VersionStepKeeps(ss[i - 1], actions[i - 1], vs[i - 1], vs[i]);
    }
    if i < |actions| {
      VersionStepKeeps(ss[i], actions[i], vs[i], vs[i + 1]);
    }
  }

  /** From a new database on, every state is linked to its version, whatever steps interleave. */
  lemma NewDatabaseRuns(ss: seq<WriteQueues.State>, actions: seq<WriteQueues.Action>, vs: seq<Version>, i: nat)
    requires EngineSteps(ss, actions, vs) && ss[0] == WriteQueues.EMPTY_STATE && vs[0] == NoFiles() && i < |ss|
    ensures IsEngineRun(ss, actions, vs) && Linked(ss[i], vs[i]) && Shape(vs[i]) && ss[i].files == All(vs[i])
  {
    hide VersionStep, Linked, Shape, All, NoFiles;
    EmptyIsLinked();
    EngineRunsKeep(ss, actions, vs, i);
    LinkedInv(ss[i], vs[i]);
  }

  /** So every result about runs of the protocol holds of runs over versions. */
  lemma EngineRunIsRun(ss: seq<WriteQueues.State>, actions: seq<WriteQueues.Action>, vs: seq<Version>)
    requires IsEngineRun(ss, actions, vs)
    ensures WriteQueues.IsRun(ss, actions)
  {
    hide Linked, VersionStep, WriteQueues.Shape, WriteQueues.Enabled, WriteQueues.Apply, WriteQueues.Inv;
    forall i | 0 <= i < |actions|
      ensures WriteQueues.Shape(ss[i]) && WriteQueues.Enabled(ss[i], actions[i])
      ensures ss[i + 1] == WriteQueues.Apply(ss[i], actions[i])
    {
      EngineRunsKeep(ss, actions, vs, i);
    }
    LinkedInv(ss[0], vs[0]);
  }

  lemma LinkedInv(s: WriteQueues.State, v: Version)
    requires Linked(s, v)
    ensures WriteQueues.Inv(s) && s.files == All(v) && Shape(v)
  {
    hide WriteQueues.Inv, All, Shape;
  }

  /** What DBImpl::Get pins at any point of a run is a view it answers from, whose contents are what was written. */
  lemma ViewIsInShape(s: WriteQueues.State, w: View)
    requires Linked(s, w.version) && Sorted(w.mem) && (w.imm.Some? ==> Sorted(w.imm.value))
    requires Elements(w.mem) == WriteQueues.Mem(s) && ImmContent(w) == WriteQueues.Imm(s)
    ensures ViewShape(w) && ViewContent(w) == WriteQueues.Contents(s)
  {
    hide WriteQueues.GroupInv, WriteQueues.StatusInv, WriteQueues.ReadInv, WriteQueues.BoundaryInv,
         WriteQueues.QueueInv, Sorted, All, Shape, SameReads, NewerPerKey;
    OlderIsNewerPerKey(Elements(w.mem), ImmContent(w) + All(w.version));
    OlderIsNewerPerKey(ImmContent(w), All(w.version));
  }
}
