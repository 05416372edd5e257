/** db/snapshot.h: the circular doubly-linked list of live snapshots. */
module SnapshotLists {
  class Snapshot {
    const number: nat
    var prev: Snapshot
    var next: Snapshot

    constructor (number: nat)
      ensures this.number == number && prev == this && next == this
    {
      this.number := number;
      prev, next := this, this;
    }
  }

  class SnapshotList {
    const head: Snapshot                   // the dummy list_
    ghost var ring: seq<Snapshot>          // the dummy, then the live snapshots, oldest first

    ghost function Live(): (r: seq<Snapshot>)
      reads this
      requires ring != []
    {
      ring[1..]
    }

    /** The links run round the ring in both directions, and no node occurs twice. */
    ghost predicate Valid()
      reads this, ring
    {
      && |ring| > 0 && ring[0] == head && NoRepeats(ring)
      && (forall i :: 0 < i < |ring| ==> ring[i - 1].next == ring[i] && ring[i].prev == ring[i - 1])
      && ring[|ring| - 1].next == ring[0] && ring[0].prev == ring[|ring| - 1]
    }

    /** Snapshots were taken at sequence numbers that never decreased. */
    ghost predicate Ordered()
      reads this
    {
      Ascending(ring)
    }

    constructor ()
      ensures Valid() && Ordered() && Live() == [] && fresh(ring)
    {
      head := new Snapshot(0);
      ring := [head];
    }

    predicate Empty()
      requires Valid()
      reads this, ring
      ensures Empty() <==> Live() == []
    {
      assert |ring| > 1 ==> ring[1] != ring[0] && ring[0].next == ring[1];
      head.next == head
    }

    /** The oldest snapshot has the least sequence number of all, so nothing a live snapshot sees is dropped
        by a compaction that keeps what the oldest sees. */
    method Oldest() returns (s: Snapshot)
      requires Valid() && Ordered() && Live() != []
      ensures s == Live()[0] && forall t :: t in Live() ==> s.number <= t.number
    {
      assert ring[0].next == ring[1];
      s := head.next;
    }

    method Newest() returns (s: Snapshot)
      requires Valid() && Ordered() && Live() != []
      ensures s == Live()[|Live()| - 1] && forall t :: t in Live() ==> t.number <= s.number
    {
      s := head.prev;
    }

    method New(number: nat) returns (s: Snapshot)
      requires Valid() && Ordered()
      requires forall i :: 0 < i < |ring| ==> ring[i].number <= number
      modifies this, ring
      ensures Valid() && Ordered() && ring == old(ring) + [s] && fresh(s) && s.number == number
    {
      hide NoRepeats, Ascending;
      s := new Snapshot(number);
      AppendedKeeps(ring, s);
      s.next := head;
      s.prev := head.prev;
      s.prev.next := s;
      s.next.prev := s;
      ring := ring + [s];
    }

    /** Unlinks one snapshot; the others keep their order. */
    method Delete(s: Snapshot, ghost at: nat)
      requires Valid() && Ordered() && 0 < at < |ring| && ring[at] == s
      modifies this, ring
      ensures Valid() && Ordered() && ring == old(ring[..at] + ring[at + 1..])
    {
      hide NoRepeats, Ascending;
      ghost var r, after := ring, if at + 1 < |ring| then at + 1 else 0;
      assert s.prev == r[at - 1] && s.next == r[after];
      s.prev.next := s.next;
      s.next.prev := s.prev;
      ring := Without(r, at);
      WithoutKeeps(r, at);
      forall i | 0 < i < |ring| ensures ring[i - 1].next == ring[i] && ring[i].prev == ring[i - 1] {
        var k := if i < at then i else i + 1;
        Apart(r, k, after);
        Apart(r, if i - 1 < at then i - 1 else i, at - 1);
      }
      Apart(r, 0, after);
      Apart(r, |r| - 1, at - 1);
    }
  }

  ghost predicate NoRepeats(r: seq<Snapshot>) {
    forall i, j :: 0 <= i < j < |r| ==> r[i] != r[j]
  }

  /** After the dummy, numbers never decrease. */
  ghost predicate Ascending(r: seq<Snapshot>) {
    forall i, j :: 0 < i < j < |r| ==> r[i].number <= r[j].number
  }

  lemma Apart(r: seq<Snapshot>, i: nat, j: nat)
    requires NoRepeats(r) && i < |r| && j < |r|
    ensures r[i] == r[j] <==> i == j
  {
  }

  /** The ring without the node at `at`. */
  ghost function Without(r: seq<Snapshot>, at: nat): (t: seq<Snapshot>)
    requires at < |r|
    ensures |t| == |r| - 1
    ensures forall i :: 0 <= i < |t| ==> t[i] == r[if i < at then i else i + 1]
  {
    r[..at] + r[at + 1..]
  }

  lemma WithoutKeeps(r: seq<Snapshot>, at: nat)
    requires 0 < at < |r|
    ensures NoRepeats(r) ==> NoRepeats(Without(r, at))
    ensures Ascending(r) ==> Ascending(Without(r, at))
  {
    hide Without;
  }

  lemma AppendedKeeps(r: seq<Snapshot>, s: Snapshot)
    requires NoRepeats(r) && Ascending(r) && s !in r && forall i :: 0 < i < |r| ==> r[i].number <= s.number
    ensures NoRepeats(r + [s]) && Ascending(r + [s])
    ensures forall i, j :: 0 <= i < j < |r| ==> r[i] != r[j]
  {
  }
}
