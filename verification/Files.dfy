/** Sorted tables as the version set sees them: a range of internal keys and the entries inside. */
module Files {
  import opened Lsm

  const NUM_LEVELS := 7

  datatype File = File(number: nat, size: nat, smallest: Key, largest: Key, entries: seq<Entry>)

  ghost predicate WellFormed(f: File) {
    |f.entries| > 0 && Sorted(f.entries) &&
    f.smallest == f.entries[0].key && f.largest == f.entries[|f.entries| - 1].key
  }

  /** The user key lies between the file's smallest and largest user keys. */
  predicate Covers(f: File, user: UserKey) {
    f.smallest.user <= user <= f.largest.user
  }

  ghost predicate AllWellFormed(fs: seq<File>) {
    forall i :: 0 <= i < |fs| ==> WellFormed(fs[i])
  }

  /** Levels above 0: files in key order, no two overlapping by internal key. */
  ghost predicate Disjoint(fs: seq<File>) {
    forall i, j :: 0 <= i < j < |fs| ==> Before(fs[i].largest, fs[j].smallest)
  }

  /** All entries of a list of files. */
  ghost function Contents(fs: seq<File>): set<Entry> {
    set f, e | f in fs && e in f.entries :: e
  }

  lemma InRange(f: File, e: Entry)
    requires WellFormed(f) && e in f.entries
    ensures Covers(f, e.key.user) && !Before(e.key, f.smallest) && !Before(f.largest, e.key)
  {
    var i :| 0 <= i < |f.entries| && f.entries[i] == e;
    assert i == 0 || Before(f.entries[0].key, e.key);
    assert i == |f.entries| - 1 || Before(e.key, f.entries[|f.entries| - 1].key);
  }

  lemma EndsInOrder(f: File)
    requires WellFormed(f)
    ensures f.smallest.user <= f.largest.user
  {
    InRange(f, f.entries[0]);
  }

  lemma MemberWellFormed(files: seq<File>, f: File)
    requires AllWellFormed(files) && f in files
    ensures WellFormed(f)
  {
    hide WellFormed;
  }

  /** TotalFileSize. */
  function TotalSize(fs: seq<File>): nat {
    if fs == [] then 0 else TotalSize(fs[..|fs| - 1]) + fs[|fs| - 1].size
  }
}
