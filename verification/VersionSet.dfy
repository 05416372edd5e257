/** VersionSet::LogAndApply, WriteSnapshot and Recover: the MANIFEST always replays to the live state. */
module VersionSets {
  import opened Wrappers
  import opened Bytes
  import opened Coding
  import opened Files
  import opened VersionEdits
  import opened Builders
  import opened Manifests
  import opened LogFormat
  import opened LogReader
  import opened LogRoundTrip

  /** The records of a MANIFEST as bytes. */
  function Recs(es: seq<VersionEdit>): (r: seq<Bytes>)
    ensures |r| == |es| && forall i :: 0 <= i < |es| ==> r[i] == EncodeFields(Fields(es[i]))
  {
    seq(|es|, i requires 0 <= i < |es| => EncodeFields(Fields(es[i])))
  }

  // --- Recovery ---

  /** What Recover has gathered so far. */
  datatype Gathered = Gathered(levels: seq<LevelState>, logNumber: Option<nat>, prevLogNumber: Option<nat>,
                               nextFile: Option<nat>, lastSequence: Option<nat>)

  function Nothing(): (r: Gathered)
    ensures |r.levels| == NUM_LEVELS
  {
    Gathered(EmptyLevels(), None, None, None, None)
  }

  function Later<T>(before: Option<T>, now: Option<T>): Option<T> {
    if now.Some? then now else before
  }

  function Absorb(g: Gathered, e: VersionEdit): (r: Gathered)
    ensures |r.levels| == |g.levels|
  {
    Gathered(ApplyEdit(g.levels, e), Later(g.logNumber, e.logNumber), Later(g.prevLogNumber, e.prevLogNumber),
             Later(g.nextFile, e.nextFileNumber), Later(g.lastSequence, e.lastSequence))
  }

  function AbsorbAll(g: Gathered, es: seq<VersionEdit>): (r: Gathered)
    ensures |r.levels| == |g.levels|
    decreases |es|
  {
    if es == [] then g else AbsorbAll(Absorb(g, es[0]), es[1..])
  }

  datatype Reading = Broken(message: string) | Complete(gathered: Gathered)

  /** Reads edits from position `p` of the MANIFEST on. */
  function ReadEdits(file: Bytes, p: nat, name: Bytes, g: Gathered): (r: Reading)
    requires p <= |file|
    ensures r.Complete? ==> |r.gathered.levels| == |g.levels|
    decreases |file| - p
  {
    var r := NextRecord(file, p, false, []);
    if r.drops != [] then Broken("corruption reported")
    else if r.record.None? then Complete(g)
    else
      match DecodeInto(EMPTY_EDIT, r.record.value)
      case Corruption(message) => Broken(message)
      case Decoded(e) =>
        if e.comparator.Some? && e.comparator.value != name then Broken("comparator does not match")
        else ReadEdits(file, r.next, name, Absorb(g, e))
  }

  datatype Recovered = Unrecoverable(message: string)
                     | Recovered(version: Version, logNumber: nat, prevLogNumber: nat, nextFileNumber: nat,
                                 lastSequence: nat, manifestFileNumber: nat)

  function Finish(base: Version, r: Reading): Recovered
    requires |base| == NUM_LEVELS && (r.Complete? ==> |r.gathered.levels| == NUM_LEVELS)
  {
    match r
    case Broken(message) => Unrecoverable(message)
    case Complete(g) =>
      if g.nextFile.None? then Unrecoverable("no meta-nextfile entry in descriptor")
      else if g.logNumber.None? then Unrecoverable("no meta-lognumber entry in descriptor")
      else if g.lastSequence.None? then Unrecoverable("no last-sequence-number entry in descriptor")
      else
        Recovered(Saved(base, g.levels), g.logNumber.value,
                  if g.prevLogNumber.Some? then g.prevLogNumber.value else 0,
                  g.nextFile.value + 1, g.lastSequence.value, g.nextFile.value)
  }

  // --- What the MANIFEST of a running database looks like ---

  ghost predicate Complete4(e: VersionEdit) {
    e.logNumber.Some? && e.prevLogNumber.Some? && e.nextFileNumber.Some? && e.lastSequence.Some?
  }

  /** The log of edits since the MANIFEST was started: a snapshot, then complete edits, each file number new. */
  ghost predicate Logged(es: seq<VersionEdit>, name: Bytes) {
    && (forall i :: 0 <= i < |es| ==> ValidEdit(es[i]) && (es[i].comparator.Some? ==> es[i].comparator.value == name))
    && (forall i :: 1 <= i < |es| ==> Complete4(es[i]))
    && FreshRun({}, es)
  }

  /** The next file number logged with an edit exceeds all file and log numbers logged up to it. */
  ghost predicate Numbered(es: seq<VersionEdit>) {
    && (forall j :: 1 <= j < |es| && Complete4(es[j]) ==> es[j].logNumber.value < es[j].nextFileNumber.value)
    && (forall i, j, p :: 0 <= i <= j < |es| && 1 <= j && Complete4(es[j]) && p in Placements(es[i].newFiles) ==>
        p.1 < es[j].nextFileNumber.value)
  }

  function UsedBy(used: set<Placed>, es: seq<VersionEdit>): set<Placed>
    decreases |es|
  {
    if es == [] then used else UsedBy(used + Placements(es[0].newFiles), es[1..])
  }

  lemma {:induction false} RunAppend(used: set<Placed>, es: seq<VersionEdit>, e: VersionEdit)
    requires FreshRun(used, es) && FreshFiles(UsedBy(used, es), e.newFiles)
    ensures FreshRun(used, es + [e])
    ensures UsedBy(used, es + [e]) == UsedBy(used, es) + Placements(e.newFiles)
    decreases |es|
  {
    hide FreshFiles;
    if es == [] {
      assert es + [e] == [e] && [e][1..] == [];
    } else {
      assert (es + [e])[0] == es[0] && (es + [e])[1..] == es[1..] + [e];
      RunAppend(used + Placements(es[0].newFiles), es[1..], e);
    }
  }

  lemma {:induction false} RunPrefix(used: set<Placed>, es: seq<VersionEdit>, k: nat)
    requires FreshRun(used, es) && k <= |es|
    ensures FreshRun(used, es[..k])
    decreases |es|
  {
    hide FreshFiles;
    if k > 0 {
      RunPrefix(used + Placements(es[0].newFiles), es[1..], k - 1);
      assert es[..k][0] == es[0] && es[..k][1..] == es[1..][..k - 1];
    }
  }

  lemma {:induction false} ReplayAppend(v: Version, es: seq<VersionEdit>, e: VersionEdit)
    requires |v| == NUM_LEVELS
    ensures Replay(v, es + [e]) == Step(Replay(v, es), e)
    decreases |es|
  {
    hide Step;
    if es == [] {
      assert es + [e] == [e];
      assert Replay(Step(v, e), [e][1..]) == Step(v, e);
    } else {
      assert (es + [e])[0] == es[0] && (es + [e])[1..] == es[1..] + [e];
      ReplayAppend(Step(v, es[0]), es[1..], e);
    }
  }

  lemma {:induction false} AbsorbedLevels(g: Gathered, es: seq<VersionEdit>)
    ensures AbsorbAll(g, es).levels == ApplyEdits(g.levels, es)
    decreases |es|
  {
    hide ApplyEdit;
    if es != [] {
      AbsorbedLevels(Absorb(g, es[0]), es[1..]);
    }
  }

  lemma {:induction false} AbsorbedNumbers(g: Gathered, es: seq<VersionEdit>)
    requires es != [] && Complete4(es[|es| - 1])
    ensures var r, e := AbsorbAll(g, es), es[|es| - 1];
            r.logNumber == e.logNumber && r.prevLogNumber == e.prevLogNumber &&
            r.nextFile == e.nextFileNumber && r.lastSequence == e.lastSequence
    decreases |es|
  {
    hide ApplyEdit;
    if |es| == 1 {
      assert AbsorbAll(g, es) == AbsorbAll(Absorb(g, es[0]), []);
    } else {
      AbsorbedNumbers(Absorb(g, es[0]), es[1..]);
    }
  }

  /** Recovery of a log that reads back as `es` absorbs them all. */
  lemma {:induction false} ReadBack(file: Bytes, p: nat, name: Bytes, g: Gathered, es: seq<VersionEdit>)
    requires p <= |file| && ReadAll(file, p) == (Recs(es), [])
    requires forall i :: 0 <= i < |es| ==>
             ValidEdit(es[i]) && (es[i].comparator.Some? ==> es[i].comparator.value == name)
    ensures ReadEdits(file, p, name, g) == Complete(AbsorbAll(g, es))
    decreases |es|
  {
    hide NextRecord, DecodeInto, EncodeFields, Fields, ValidEdit, Absorb;
    var r := NextRecord(file, p, false, []);
    ReadAllParts(file, p, Recs(es));
    if es != [] {
      EditRoundTrip(es[0]);
      assert Recs(es)[1..] == Recs(es[1..]);
      ReadBack(file, r.next, name, Absorb(g, es[0]), es[1..]);
    }
  }

  lemma ReadAllParts(file: Bytes, p: nat, rs: seq<Bytes>)
    requires p <= |file| && ReadAll(file, p) == (rs, [])
    ensures var r := NextRecord(file, p, false, []);
            && r.drops == []
            && (rs == [] <==> r.record.None?)
            && (rs != [] ==> r.record == Some(rs[0]) && ReadAll(file, r.next) == (rs[1..], []))
  {
    hide NextRecord;
    var r := NextRecord(file, p, false, []);
    if r.record.Some? {
      var rest := ReadAll(file, r.next);
      assert rs == [r.record.value] + rest.0;
      assert r.drops + rest.1 == [];
      assert |r.drops| + |rest.1| == 0;
      assert rs[1..] == rest.0 && rest.1 == [];
    }
  }

  /** The main result: cut the MANIFEST anywhere; if at least the snapshot and one edit survive, recovery
      gives the files, log number and last sequence of the version live when the last surviving edit was
      logged, and a next file number above every file and log number in it. */
  lemma RecoveryIsLiveState(es: seq<VersionEdit>, name: Bytes, n: nat, k: nat)
    requires Logged(es, name) && Numbered(es) && Cut(es, n, k)
    ensures Complete4(es[k - 1])
    ensures var r := Finish(NoFiles(), ReadEdits(Written(0, Recs(es))[..n], 0, name, Nothing()));
            && r == Recovered(Replay(NoFiles(), es[..k]), es[k - 1].logNumber.value, es[k - 1].prevLogNumber.value,
                              es[k - 1].nextFileNumber.value + 1, es[k - 1].lastSequence.value,
                              es[k - 1].nextFileNumber.value)
            && r.logNumber < r.nextFileNumber
            && forall p :: p in UsedBy({}, es[..k]) ==> p.1 < r.nextFileNumber
  {
    hide *;
    LastIsComplete(es, name, n, k);
    var g := AbsorbAll(Nothing(), es[..k]);
    CutReads(es, name, n, k);
    AbsorbedNumbers(Nothing(), es[..k]);
    FilesRecovered(es, k);
    NumbersBelow(es, k);
    Finished(g);
  }

  lemma LastIsComplete(es: seq<VersionEdit>, name: Bytes, n: nat, k: nat)
    requires Logged(es, name) && Numbered(es) && Cut(es, n, k)
    ensures 2 <= k <= |es| && Complete4(es[k - 1]) && FreshRun({}, es)
    ensures var e := es[k - 1];
            e.logNumber.Some? && e.prevLogNumber.Some? && e.nextFileNumber.Some? && e.lastSequence.Some?
    ensures es[k - 1].logNumber.value < es[k - 1].nextFileNumber.value
  {
    hide FreshRun, ValidEdit, Placements, Written, Recs;
  }

  lemma Finished(g: Gathered)
    requires g.nextFile.Some? && g.logNumber.Some? && g.prevLogNumber.Some? && g.lastSequence.Some?
    requires |g.levels| == NUM_LEVELS
    ensures Finish(NoFiles(), Complete(g)) ==
            Recovered(Saved(NoFiles(), g.levels), g.logNumber.value, g.prevLogNumber.value, g.nextFile.value + 1,
                      g.lastSequence.value, g.nextFile.value)
  {
    hide Saved;
  }

  /** The first `n` bytes of the MANIFEST hold `k` whole records: the snapshot and at least one edit. */
  predicate Cut(es: seq<VersionEdit>, n: nat, k: nat) {
    && n <= |Written(0, Recs(es))|
    && 2 <= k <= |es| && |Written(0, Recs(es)[..k])| <= n
    && (k < |es| ==> n < |Written(0, Recs(es)[..k + 1])|)
  }

  lemma CutReads(es: seq<VersionEdit>, name: Bytes, n: nat, k: nat)
    requires Logged(es, name) && Cut(es, n, k)
    ensures ReadEdits(Written(0, Recs(es))[..n], 0, name, Nothing()) == Complete(AbsorbAll(Nothing(), es[..k]))
  {
    hide Written, ReadAll, ReadEdits, Recs, ValidEdit, AbsorbAll, FreshRun;
    TruncatedLogReads(Recs(es), n, k);
    assert Recs(es)[..k] == Recs(es[..k]);
    ReadBack(Written(0, Recs(es))[..n], 0, name, Nothing(), es[..k]);
  }

  lemma FilesRecovered(es: seq<VersionEdit>, k: nat)
    requires FreshRun({}, es) && k <= |es|
    ensures Saved(NoFiles(), AbsorbAll(Nothing(), es[..k]).levels) == Replay(NoFiles(), es[..k])
  {
    hide ApplyEdits, Replay, Saved, FreshRun, AbsorbAll;
    AbsorbedLevels(Nothing(), es[..k]);
    RunPrefix({}, es, k);
    NothingIsReady();
    BatchIsReplay(NoFiles(), EmptyLevels(), es[..k], {});
    NothingIsSaved();
  }

  lemma NothingIsReady()
    ensures BatchReady(NoFiles(), EmptyLevels(), {})
  {
    hide MetaSorted;
    forall l | 0 <= l < NUM_LEVELS ensures Kept(NoFiles()[l], l, {}) && Kept(EmptyLevels()[l].added, l, {}) {
      NothingKept(l, {});
    }
  }

  lemma NothingIsSaved()
    ensures Saved(NoFiles(), EmptyLevels()) == NoFiles()
  {
    assert Merge([], [], {}) == Undeleted([], {}) == [];
    assert forall l :: 0 <= l < NUM_LEVELS ==> Saved(NoFiles(), EmptyLevels())[l] == [] == NoFiles()[l];
  }

  lemma {:induction false} UsedMembers(used: set<Placed>, es: seq<VersionEdit>, p: Placed)
    ensures p in UsedBy(used, es) <==> p in used || exists i :: 0 <= i < |es| && p in Placements(es[i].newFiles)
    decreases |es|
  {
    hide Placements;
    if es != [] {
      UsedMembers(used + Placements(es[0].newFiles), es[1..], p);
      if p in UsedBy(used, es) && p !in used && p !in Placements(es[0].newFiles) {
        var i :| 0 <= i < |es[1..]| && p in Placements(es[1..][i].newFiles);
        assert es[1..][i] == es[i + 1];
      }
      if i :| 0 <= i < |es| && p in Placements(es[i].newFiles) {
        if i > 0 { assert es[1..][i - 1] == es[i]; }
      }
    }
  }

  lemma NumbersBelow(es: seq<VersionEdit>, k: nat)
    requires Numbered(es) && 2 <= k <= |es| && Complete4(es[k - 1])
    ensures forall p :: p in UsedBy({}, es[..k]) ==> p.1 < es[k - 1].nextFileNumber.value
  {
    hide Placements;
    forall p | p in UsedBy({}, es[..k]) ensures p.1 < es[k - 1].nextFileNumber.value {
      UsedMembers({}, es[..k], p);
      var i :| 0 <= i < k && p in Placements(es[..k][i].newFiles);
    }
  }

  lemma {:induction false} DecodedLevels(e: VersionEdit, input: Bytes)
    requires InLevels(e)
    ensures var r := DecodeInto(e, input); r.Decoded? ==> InLevels(r.edit)
    decreases |input|
  {
    hide UnVarint32, ReadTagged, SetField, DecodeInto, InLevels;
    DecodeStep(e, input);
    if UnVarint32(input).Got? {
      var f := ReadTagged(UnVarint32(input).value, UnVarint32(input).rest);
      if f.ReadField? {
        SetKeepsLevels(e, UnVarint32(input).value, UnVarint32(input).rest);
        DecodedLevels(SetField(e, f.field), f.rest);
      }
    }
  }

  lemma SetKeepsLevels(e: VersionEdit, tag: nat, input: Bytes)
    requires InLevels(e) && ReadTagged(tag, input).ReadField?
    ensures InLevels(SetField(e, ReadTagged(tag, input).field))
  {
    hide UnVarint32, UnVarint64, UnPrefixed;
    var f := ReadTagged(tag, input).field;
    if f.DeletedFile? {
      InsertedMembers(e.deletedFiles, (f.level, f.number));
    }
  }

  lemma {:induction false} InsertedMembers(s: seq<Deleted>, d: Deleted)
    ensures forall x :: x in InsertDeleted(s, d) <==> x in s || x == d
  {
    if s != [] {
      InsertedMembers(s[1..], d);
    }
  }

  predicate InLevels(e: VersionEdit) {
    (forall d :: d in e.deletedFiles ==> d.0 < NUM_LEVELS) && (forall f :: f in e.newFiles ==> f.0 < NUM_LEVELS)
  }

  /** What LogAndApply fills in before it logs an edit. */
  function Completed(e: VersionEdit, logNumber: nat, prevLogNumber: nat, nextFileNumber: nat,
                     lastSequence: nat): VersionEdit {
    e.(logNumber := if e.logNumber.Some? then e.logNumber else Some(logNumber),
       prevLogNumber := if e.prevLogNumber.Some? then e.prevLogNumber else Some(prevLogNumber),
       nextFileNumber := Some(nextFileNumber), lastSequence := Some(lastSequence))
  }

  /** The version in memory, the log it was built by, and the numbers given out. */
  ghost predicate Consistent(started: bool, current: Version, used: set<Placed>, records: seq<VersionEdit>, name: Bytes,
                             logNumber: nat, nextFileNumber: nat)
    ensures Consistent(started, current, used, records, name, logNumber, nextFileNumber) ==>
            |current| == NUM_LEVELS && logNumber < nextFileNumber
  {
    && |current| == NUM_LEVELS && KeptVersion(current, used)
    && logNumber < nextFileNumber && (forall p :: p in used ==> p.1 < nextFileNumber)
    && Logged(records, name) && Numbered(records)
    && (if started then |records| >= 1 && current == Replay(NoFiles(), records) && used == UsedBy({}, records)
        else records == [] && used == Placements(SnapshotFiles(current, 0)))
  }

  class VersionSet {
    const name: Bytes                // the user comparator's
    var current: Version
    var logNumber: nat
    var prevLogNumber: nat
    var nextFileNumber: nat
    var lastSequence: nat
    var manifestFileNumber: nat
    var descriptorLog: Writer?       // null until the first LogAndApply
    ghost var records: seq<VersionEdit>   // what the MANIFEST holds
    ghost var used: set<Placed>           // levels and numbers of all files ever added

    ghost predicate Live()
      reads this
      ensures Live() ==> |current| == NUM_LEVELS && logNumber < nextFileNumber
    {
      Consistent(descriptorLog != null, current, used, records, name, logNumber, nextFileNumber)
    }

    /** The MANIFEST holds exactly `records`, and its writer stands at its end. */
    ghost predicate OnDisk()
      reads `records, `descriptorLog, descriptorLog
    {
      descriptorLog != null ==>
        && descriptorLog.Valid() && descriptorLog.dest == Written(0, Recs(records))
        && descriptorLog.blockOffset == Ends(0, Recs(records))
    }

    constructor (name: Bytes)
      ensures Live() && OnDisk() && this.name == name && current == NoFiles() && descriptorLog == null
    {
      hide FreshRun, Merge;
      this.name := name;
      current := NoFiles();
      logNumber, prevLogNumber, nextFileNumber, lastSequence, manifestFileNumber := 0, 0, 2, 0, 0;
      descriptorLog := null;
      records := [];
      used := {};
      new;
      FreshStart();
    }

    method NewFileNumber() returns (n: nat)
      requires Live()
      modifies `nextFileNumber
      ensures Live() && n == old(nextFileNumber) && nextFileNumber == n + 1
      ensures forall p :: p in used ==> p.1 < n
    {
      hide KeptVersion, Logged, Numbered, Replay, UsedBy;
      n := nextFileNumber;
      nextFileNumber := nextFileNumber + 1;
    }

    /** Logs the edit, preceded by a snapshot if the MANIFEST is new, and installs the version it leads to. */
    method LogAndApply(edit: VersionEdit)
      requires Live() && OnDisk()
      requires edit.logNumber.Some? ==> logNumber <= edit.logNumber.value < nextFileNumber
      requires edit.comparator.None? && FreshFiles(used, edit.newFiles)
      requires forall p :: p in Placements(edit.newFiles) ==> p.1 < nextFileNumber
      requires ValidEdit(Completed(edit, logNumber, prevLogNumber, nextFileNumber, lastSequence))
      requires descriptorLog == null ==> ValidEdit(SnapshotEdit(current, name))
      modifies this, descriptorLog
      ensures Live() && OnDisk() && descriptorLog != null
      ensures current == Step(old(current), edit)
      ensures records == (if old(descriptorLog) == null then [SnapshotEdit(old(current), name)] else old(records))
                         + [old(Completed(edit, logNumber, prevLogNumber, nextFileNumber, lastSequence))]
      ensures logNumber == (if edit.logNumber.Some? then edit.logNumber.value else old(logNumber))
      ensures prevLogNumber == (if edit.prevLogNumber.Some? then edit.prevLogNumber.value else old(prevLogNumber))
      ensures unchanged(`nextFileNumber, `lastSequence, `manifestFileNumber)
    {
      hide Consistent, VersionSet.OnDisk, ValidEdit, FreshFiles, Placements, SnapshotFiles, Step;
      var e := Completed(edit, logNumber, prevLogNumber, nextFileNumber, lastSequence);
      var v := Build(e);
      CompletedStep(current, edit, e);
      if descriptorLog == null {
        WriteSnapshot();
      }
      RunsOn(current, records, e, name, used, logNumber, nextFileNumber);
      AppendRecord(e);
      used := used + Placements(e.newFiles);
      current := v;
      logNumber := e.logNumber.value;
      prevLogNumber := e.prevLogNumber.value;
    }

    method Build(e: VersionEdit) returns (v: Version)
      requires |current| == NUM_LEVELS && FreshFiles(used, e.newFiles) && ValidEdit(e)
      ensures |v| == NUM_LEVELS && v == Step(current, e)
    {
      hide Saved, ApplyEdit, ValidEdit, FreshFiles;
      var builder := new Builder(current);
      EditInLevels(e, used);
      builder.Apply(e);
      v := builder.SaveTo();
    }

    method AppendRecord(e: VersionEdit)
      requires OnDisk() && descriptorLog != null
      modifies `records, descriptorLog
      ensures OnDisk() && records == old(records) + [e]
    {
      hide Written, Ends, Recs, EncodeFields, Fields, Writer.Valid, Emit, EndOffset;
      var record := EncodeTo(e);
      descriptorLog.AddRecord(record);
      RecordAppended(records, e);
      records := records + [e];
    }

    method WriteSnapshot()
      requires Live() && descriptorLog == null && ValidEdit(SnapshotEdit(current, name))
      modifies `descriptorLog, `records
      ensures Live() && OnDisk() && descriptorLog != null && fresh(descriptorLog)
      ensures records == [SnapshotEdit(current, name)]
    {
      hide Written, Ends, Recs, Consistent, ValidEdit, SnapshotFiles, Writer.Valid;
      var edit := EMPTY_EDIT.(comparator := Some(name));
      edit := AddCurrentFiles(edit);
      descriptorLog := new Writer();
      NothingWritten();
      SnapshotLogged(current, used, records, edit, name, logNumber, nextFileNumber);
      records := [];
      AppendRecord(edit);
    }

    /** Reads a MANIFEST; nothing is installed unless all of it is sound. */
    method Recover(file: Bytes) returns (r: Recovered)
      requires |current| == NUM_LEVELS
      modifies this
      ensures r == Finish(old(current), ReadEdits(file, 0, name, Nothing()))
      ensures r.Recovered? ==>
              && current == r.version && logNumber == r.logNumber && prevLogNumber == r.prevLogNumber
              && nextFileNumber == r.nextFileNumber && lastSequence == r.lastSequence
              && manifestFileNumber == r.manifestFileNumber
      ensures r.Unrecoverable? ==> unchanged(`current, `logNumber, `prevLogNumber, `lastSequence, `manifestFileNumber)
      ensures unchanged(`descriptorLog, `records, `used)
    {
      hide ReadEdits, Saved;
      var reading, builder := ReadManifest(file);
      if reading.Broken? {
        return Unrecoverable(reading.message);
      }
      var g := reading.gathered;
      if g.nextFile.None? {
        r := Unrecoverable("no meta-nextfile entry in descriptor");
      } else if g.logNumber.None? {
        r := Unrecoverable("no meta-lognumber entry in descriptor");
      } else if g.lastSequence.None? {
        r := Unrecoverable("no last-sequence-number entry in descriptor");
      }
      var prev := if g.prevLogNumber.Some? then g.prevLogNumber.value else 0;
      MarkFileNumberUsed(prev);
      MarkFileNumberUsed(if g.logNumber.Some? then g.logNumber.value else 0);
      if g.nextFile.None? || g.logNumber.None? || g.lastSequence.None? {
        return;
      }
      var v := builder.SaveTo();
      current := v;
      manifestFileNumber := g.nextFile.value;
      nextFileNumber := g.nextFile.value + 1;
      lastSequence := g.lastSequence.value;
      logNumber := g.logNumber.value;
      prevLogNumber := prev;
      r := Recovered(v, logNumber, prev, nextFileNumber, lastSequence, manifestFileNumber);
    }

    method MarkFileNumberUsed(number: nat)
      modifies `nextFileNumber
      ensures nextFileNumber == if old(nextFileNumber) <= number then number + 1 else old(nextFileNumber)
    {
      if nextFileNumber <= number {
        nextFileNumber := number + 1;
      }
    }

    method ReadManifest(file: Bytes) returns (r: Reading, builder: Builder)
      ensures r == ReadEdits(file, 0, name, Nothing())
      ensures fresh(builder) && builder.base == current && (r.Complete? ==> builder.levels == r.gathered.levels)
    {
      hide NextRecord, ReadEdits, DecodeInto, Reader.Valid, ApplyEdit, InLevels;
      var reader := new Reader(file);
      builder := new Builder(current);
      var g := Nothing();
      while true
        invariant fresh(builder) && builder.base == current && builder.levels == g.levels
        invariant reader.Valid() && fresh(reader) && reader.file == file && reader.reported == []
        invariant |g.levels| == NUM_LEVELS
        invariant ReadEdits(file, 0, name, Nothing()) == ReadEdits(file, reader.Position(), name, g)
        decreases |file| - reader.Position()
      {
        ReadEditsStep(file, reader.Position(), name, g);
        var record := reader.ReadRecord();
        if reader.reported != [] {
          return Broken("corruption reported"), builder;
        }
        if record.None? {
          return Complete(g), builder;
        }
        var d := DecodeFrom(EMPTY_EDIT, record.value);
        if d.Corruption? {
          return Broken(d.message), builder;
        }
        var edit := d.edit;
        if edit.comparator.Some? && edit.comparator.value != name {
          return Broken("comparator does not match"), builder;
        }
        NothingOutside();
        DecodedLevels(EMPTY_EDIT, record.value);
        g := Gather(builder, g, edit);
      }
    }

    static method Gather(builder: Builder, g: Gathered, edit: VersionEdit) returns (r: Gathered)
      requires |g.levels| == NUM_LEVELS && InLevels(edit) && builder.levels == g.levels
      modifies builder
      ensures r == Absorb(g, edit) && builder.levels == r.levels
    {
      hide ApplyEdit;
      r := g;
      builder.Apply(edit);
      r := r.(levels := builder.levels);
      if edit.logNumber.Some? {
        r := r.(logNumber := edit.logNumber);
      }
      if edit.prevLogNumber.Some? {
        r := r.(prevLogNumber := edit.prevLogNumber);
      }
      if edit.nextFileNumber.Some? {
        r := r.(nextFile := edit.nextFileNumber);
      }
      if edit.lastSequence.Some? {
        r := r.(lastSequence := edit.lastSequence);
      }
    }

    method AddCurrentFiles(edit: VersionEdit) returns (e: VersionEdit)
      requires |current| == NUM_LEVELS && edit.newFiles == []
      ensures e == edit.(newFiles := SnapshotFiles(current, 0))
    {
      hide SnapshotFiles, LevelFiles;
      e := edit;
      for level := 0 to NUM_LEVELS
        invariant e == edit.(newFiles := e.newFiles)
        invariant SnapshotFiles(current, 0) == e.newFiles + SnapshotFiles(current, level)
      {
        LevelAppended(e.newFiles, current, level);
        e := AddLevelFiles(e, level, current[level]);
      }
      SnapshotStep(current, NUM_LEVELS);
    }

    method AddLevelFiles(edit: VersionEdit, level: nat, files: seq<FileMeta>) returns (e: VersionEdit)
      ensures e == edit.(newFiles := edit.newFiles + LevelFiles(level, files))
    {
      e := edit;
      ghost var before := e.newFiles;
      for i := 0 to |files|
        invariant e == edit.(newFiles := before + LevelFiles(level, files)[..i])
      {
        e := e.(newFiles := e.newFiles + [(level, files[i])]);
      }
      assert LevelFiles(level, files)[..|files|] == LevelFiles(level, files);
    }
  }

  lemma LevelAppended(before: seq<(nat, FileMeta)>, v: Version, level: nat)
    requires level < |v|
    ensures before + SnapshotFiles(v, level) == (before + LevelFiles(level, v[level])) + SnapshotFiles(v, level + 1)
  {
    hide SnapshotFiles, LevelFiles;
    SnapshotStep(v, level);
  }

  lemma SnapshotStep(v: Version, level: nat)
    requires level <= |v|
    ensures SnapshotFiles(v, level) ==
            if level == |v| then [] else LevelFiles(level, v[level]) + SnapshotFiles(v, level + 1)
  {
  }

  lemma EditInLevels(e: VersionEdit, used: set<Placed>)
    requires FreshFiles(used, e.newFiles) && ValidEdit(e)
    ensures InLevels(e)
  {
    hide Proper, HeaderFields, DeletedSorted;
    assert forall i :: 0 <= i < |e.newFiles| ==> e.newFiles[i].0 < NUM_LEVELS;
    forall d | d in e.deletedFiles ensures d.0 < NUM_LEVELS {
      DeletedHasField(e.deletedFiles, d);
      var h := HeaderFields(e) + PointerFields(e.compactPointers);
      var j :| 0 <= j < |DeletedFields(e.deletedFiles)| && DeletedFields(e.deletedFiles)[j] == DeletedFile(d.0, d.1);
      assert Fields(e)[|h| + j] == DeletedFile(d.0, d.1);
    }
  }

  lemma {:induction false} DeletedHasField(ds: seq<Deleted>, d: Deleted)
    requires d in ds
    ensures DeletedFile(d.0, d.1) in DeletedFields(ds)
  {
    if d != ds[0] {
      DeletedHasField(ds[1..], d);
    }
  }

  lemma NothingWritten()
    ensures Written(0, Recs([])) == [] && Ends(0, Recs([])) == 0
  {
  }

  lemma RecordAppended(es: seq<VersionEdit>, e: VersionEdit)
    ensures var offset, record := Ends(0, Recs(es)), EncodeFields(Fields(e));
            && Written(0, Recs(es + [e])) == Written(0, Recs(es)) + Emit(offset, record, true)
            && Ends(0, Recs(es + [e])) == EndOffset(offset, record)
  {
    hide EncodeFields, Fields, Emit, EndOffset;
    var record := EncodeFields(Fields(e));
    assert Recs(es + [e]) == Recs(es) + [record];
    WrittenConcat(0, Recs(es), [record]);
    EndsConcat(0, Recs(es), [record]);
    var offset := Ends(0, Recs(es));
    assert [record][1..] == [];
    assert Written(offset, [record]) == Emit(offset, record, true) + [];
    assert Ends(offset, [record]) == Ends(EndOffset(offset, record), []);
  }

  lemma {:induction false} EndsConcat(offset: nat, a: seq<Bytes>, b: seq<Bytes>)
    requires offset <= BLOCK_SIZE
    ensures Ends(offset, a + b) == Ends(Ends(offset, a), b)
    decreases |a|
  {
    hide EndOffset;
    if a == [] {
      assert a + b == b;
    } else {
      assert (a + b)[0] == a[0] && (a + b)[1..] == a[1..] + b;
      EndsConcat(EndOffset(offset, a[0]), a[1..], b);
    }
  }

  lemma NothingOutside()
    ensures InLevels(EMPTY_EDIT) && EMPTY_EDIT.(compactPointers := EMPTY_EDIT.compactPointers) == EMPTY_EDIT
  {
  }

  lemma ReadEditsStep(file: Bytes, p: nat, name: Bytes, g: Gathered)
    requires p <= |file|
    ensures var r := NextRecord(file, p, false, []);
            && (r.drops != [] ==> ReadEdits(file, p, name, g) == Broken("corruption reported"))
            && (r.drops == [] && r.record.None? ==> ReadEdits(file, p, name, g) == Complete(g))
            && (r.drops == [] && r.record.Some? ==>
                var d := DecodeInto(EMPTY_EDIT, r.record.value);
                ReadEdits(file, p, name, g) ==
                if d.Corruption? then Broken(d.message)
                else if d.edit.comparator.Some? && d.edit.comparator.value != name
                  then Broken("comparator does not match")
                else ReadEdits(file, r.next, name, Absorb(g, d.edit)))
  {
    hide NextRecord, DecodeInto, Absorb;
  }

  lemma {:induction false} ReplayKeeps(v: Version, es: seq<VersionEdit>, used: set<Placed>)
    requires |v| == NUM_LEVELS && KeptVersion(v, used) && FreshRun(used, es)
    ensures KeptVersion(Replay(v, es), UsedBy(used, es))
    decreases |es|
  {
    hide KeptVersion, FreshFiles, Step, Placements;
    if es != [] {
      StepKeeps(v, es[0], used);
      ReplayKeeps(Step(v, es[0]), es[1..], used + Placements(es[0].newFiles));
    }
  }

  /** What a version's own files use. */
  lemma OwnNumbers(v: Version, used: set<Placed>)
    requires |v| == NUM_LEVELS && KeptVersion(v, used)
    ensures KeptVersion(v, Placements(SnapshotFiles(v, 0)))
    ensures Placements(SnapshotFiles(v, 0)) <= used
  {
    hide SnapshotFiles, MetaSorted, AllProper, FreshFiles, Placements;
    SnapshotIsFresh(v, 0, used);
    var own := Placements(SnapshotFiles(v, 0));
    forall l | 0 <= l < NUM_LEVELS ensures Kept(v[l], l, own) {
      SnapshotAt(v, 0, l);
      AddedIsFresh(SnapshotFiles(v, 0), l, {});
    }
    forall p | p in own ensures p in used {
      PlacementIsFile(SnapshotFiles(v, 0), p);
      SnapshotAt(v, 0, p.0);
    }
  }

  lemma PlacementIsFile(fs: seq<(nat, FileMeta)>, p: Placed)
    requires p in Placements(fs) && FreshFiles({}, fs)
    ensures p.0 < NUM_LEVELS && exists f :: f in AddedAt(fs, p.0) && f.number == p.1
  {
    hide Proper;
    var i :| 0 <= i < |fs| && (fs[i].0, fs[i].1.number) == p;
    assert fs[i].1 in AddedAt(fs, p.0);
  }

  /** Crash and recover: whatever prefix of the MANIFEST survives, the new version set stands where the
      old one stood when it logged the last surviving edit, and may go on from there. */
  method Reopen(db: VersionSet, n: nat, ghost k: nat) returns (vs: VersionSet, r: Recovered)
    requires db.Live() && db.OnDisk() && db.descriptorLog != null && Cut(db.records, n, k)
    ensures r.Recovered? && fresh(vs) && vs.Live() && vs.OnDisk()
    ensures vs.current == Replay(NoFiles(), db.records[..k])
    ensures Some(vs.logNumber) == db.records[k - 1].logNumber && Some(vs.lastSequence) == db.records[k - 1].lastSequence
    ensures forall p :: p in UsedBy({}, db.records[..k]) ==> p.1 < vs.nextFileNumber
  {
    hide Logged, Numbered, KeptVersion, Replay, UsedBy, Written, Recs, Saved, ReadEdits, Writer.Valid, Placements,
         SnapshotFiles;
    ghost var es := db.records;
    vs := new VersionSet(db.name);
    r := vs.Recover(db.descriptorLog.dest[..n]);
    RecoveryIsLiveState(es, db.name, n, k);
    RecoveredIsConsistent(es, db.name, k, vs.logNumber, vs.nextFileNumber);
    vs.used := Placements(SnapshotFiles(vs.current, 0));
  }

  lemma RecoveredIsConsistent(es: seq<VersionEdit>, name: Bytes, k: nat, logNumber: nat, next: nat)
    requires Logged(es, name) && k <= |es| && logNumber < next
    requires forall p :: p in UsedBy({}, es[..k]) ==> p.1 < next
    ensures var v := Replay(NoFiles(), es[..k]);
            Consistent(false, v, Placements(SnapshotFiles(v, 0)), [], name, logNumber, next)
  {
    hide KeptVersion, Replay, UsedBy, Placements, SnapshotFiles;
    FreshStart();
    RunPrefix({}, es, k);
    ReplayKeeps(NoFiles(), es[..k], {});
    OwnNumbers(Replay(NoFiles(), es[..k]), UsedBy({}, es[..k]));
  }

  lemma CompletedStep(v: Version, edit: VersionEdit, e: VersionEdit)
    requires |v| == NUM_LEVELS && e.newFiles == edit.newFiles && e.deletedFiles == edit.deletedFiles
    ensures Step(v, e) == Step(v, edit)
  {
    hide Saved, ApplyNew, ApplyDeleted;
  }

  /** A complete, fresh edit may follow any log. */
  lemma RunsOn(v: Version, es: seq<VersionEdit>, e: VersionEdit, name: Bytes, used: set<Placed>, logNumber: nat,
               next: nat)
    requires Consistent(true, v, used, es, name, logNumber, next) && FreshFiles(used, e.newFiles)
    requires ValidEdit(e) && e.comparator.None? && Complete4(e) && e.nextFileNumber.value == next
    requires e.logNumber.value < next
    requires forall p :: p in Placements(e.newFiles) ==> p.1 < next
    ensures Consistent(true, Step(v, e), used + Placements(e.newFiles), es + [e], name, e.logNumber.value, next)
  {
    hide ValidEdit, FreshFiles, Step, Placements, UsedBy, FreshRun, Replay, KeptVersion;
    RunAppend({}, es, e);
    ReplayAppend(NoFiles(), es, e);
    StepKeeps(v, e, used);
    forall i, p | 0 <= i < |es| && p in Placements(es[i].newFiles) ensures p in used {
      UsedMembers({}, es, p);
    }
  }

  lemma SnapshotLogged(v: Version, used: set<Placed>, es: seq<VersionEdit>, e: VersionEdit, name: Bytes, logNumber: nat,
                       next: nat)
    requires Consistent(false, v, used, es, name, logNumber, next) && e == SnapshotEdit(v, name) && ValidEdit(e)
    ensures Consistent(true, v, used, [e], name, logNumber, next) && [] + [e] == [e]
  {
    hide ValidEdit, FreshFiles, Step, Placements, KeptVersion, SnapshotFiles;
    SnapshotRestores(v, name, used);
    assert [e][1..] == [];
    assert FreshRun({} + Placements(e.newFiles), []);
    assert Replay(Step(NoFiles(), e), []) == Step(NoFiles(), e);
    assert UsedBy({} + Placements(e.newFiles), []) == {} + Placements(e.newFiles);
  }

  lemma FreshStart()
    ensures KeptVersion(NoFiles(), {}) && Placements(SnapshotFiles(NoFiles(), 0)) == {}
    ensures forall name :: Logged([], name)
    ensures Numbered([])
  {
    hide MetaSorted;
    forall l | 0 <= l < NUM_LEVELS ensures Kept(NoFiles()[l], l, {}) {
      NothingKept(l, {});
    }
    NoSnapshotFiles(0);
  }

  lemma {:induction false} NoSnapshotFiles(level: nat)
    requires level <= NUM_LEVELS
    ensures SnapshotFiles(NoFiles(), level) == []
    decreases NUM_LEVELS - level
  {
    if level < NUM_LEVELS {
      NoSnapshotFiles(level + 1);
    }
  }
}
