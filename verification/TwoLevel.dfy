/** table/two_level_iterator.cc: one cursor over the runs that an index names, in the index's order.
    A table is such an index over its blocks, a level is one over its files. */
module TwoLevelIterators {
  import opened Lsm
  import opened MergingIterators

  /** The runs one after the other. */
  ghost function Flat(runs: seq<seq<Entry>>): seq<Entry> {
    if runs == [] then [] else Flat(runs[..|runs| - 1]) + runs[|runs| - 1]
  }

  /** Where run `i` begins. */
  ghost function Start(runs: seq<seq<Entry>>, i: nat): nat
    requires i <= |runs|
  {
    |Flat(runs[..i])|
  }

  /** Index key `i` is at or after every key of run `i` and before every key of the later runs. */
  ghost predicate Separates(index: seq<Entry>, runs: seq<seq<Entry>>) {
    && |index| == |runs| && Sorted(index)
    && (forall i :: 0 <= i < |runs| ==> Sorted(runs[i]))
    && (forall i, k :: 0 <= i < |runs| && 0 <= k < |runs[i]| ==> !Before(index[i].key, runs[i][k].key))
    && (forall i, j, k :: 0 <= i < j < |runs| && 0 <= k < |runs[j]| ==> Before(index[i].key, runs[j][k].key))
  }

  lemma StartSteps(runs: seq<seq<Entry>>, i: nat)
    requires i < |runs|
    ensures Start(runs, i + 1) == Start(runs, i) + |runs[i]|
    ensures Start(runs, 0) == 0 && Start(runs, |runs|) == |Flat(runs)|
  {
    assert runs[..i + 1][..i] == runs[..i] && runs[..|runs|] == runs;
  }

  lemma StartEnds(runs: seq<seq<Entry>>)
    ensures Start(runs, 0) == 0 && Start(runs, |runs|) == |Flat(runs)|
  {
    assert runs[..|runs|] == runs;
  }

  /** Every place in the concatenation is one place in one run. */
  lemma {:induction false} Locate(runs: seq<seq<Entry>>, p: nat) returns (i: nat, k: nat)
    requires p < |Flat(runs)|
    ensures i < |runs| && k < |runs[i]| && p == Start(runs, i) + k && Flat(runs)[p] == runs[i][k]
  {
    var last := |runs| - 1;
    if p < |Flat(runs[..last])| {
      i, k := Locate(runs[..last], p);
      assert runs[..last][..i] == runs[..i];
    } else {
      i, k := last, p - |Flat(runs[..last])|;
    }
  }

  lemma {:induction false} At(runs: seq<seq<Entry>>, i: nat, k: nat)
    requires i < |runs| && k < |runs[i]|
    ensures Start(runs, i) + k < |Flat(runs)| && Flat(runs)[Start(runs, i) + k] == runs[i][k]
  {
    var last := |runs| - 1;
    if i < last {
      At(runs[..last], i, k);
      assert runs[..last][..i] == runs[..i];
    }
  }

  lemma {:induction false} StartAscends(runs: seq<seq<Entry>>, i: nat, j: nat)
    requires i <= j <= |runs|
    ensures Start(runs, i) <= Start(runs, j)
    decreases j - i
  {
    hide Start;
    if i < j {
      StartSteps(runs, i);
      StartAscends(runs, i + 1, j);
    }
  }

  /** The concatenation is sorted, as the separators keep the runs apart. */
  lemma FlatIsSorted(index: seq<Entry>, runs: seq<seq<Entry>>)
    requires Separates(index, runs)
    ensures Sorted(Flat(runs))
  {
    hide Flat, Start;
    var flat := Flat(runs);
    forall p, q | 0 <= p < q < |flat| ensures Before(flat[p].key, flat[q].key) {
      var i, k := Locate(runs, p);
      var j, m := Locate(runs, q);
      if i > j {
        StartAscends(runs, j + 1, i);
        StartSteps(runs, j);
      }
    }
  }

  /** If the index key of run `i` is the first at or after the target, the first entry at or after it is in run `i`
      or begins the next. */
  lemma SeekLands(index: seq<Entry>, runs: seq<seq<Entry>>, i: nat, at: nat, target: Key)
    requires Separates(index, runs) && SplitAt(index, i, target)
    requires if i < |runs| then SplitAt(runs[i], at, target) else at == 0
    ensures SplitAt(Flat(runs), Start(runs, i) + at, target)
  {
    hide Flat, Start;
    var flat, p := Flat(runs), Start(runs, i) + at;
    StartEnds(runs);
    if i < |runs| {
      StartSteps(runs, i);
      StartAscends(runs, i + 1, |runs|);
    }
    forall q | 0 <= q < |flat| ensures Before(flat[q].key, target) <==> q < p {
      var j, m := Locate(runs, q);
      if j < i {
        StartSteps(runs, j);
        StartAscends(runs, j + 1, i);
        assert Before(index[j].key, target);
      } else if j > i {
        StartAscends(runs, i + 1, j);
        assert !Before(index[i].key, target);
      }
    }
  }

  class TwoLevelIterator {
    const index: Cursor
    const runs: seq<seq<Entry>>     // what block_function_ opens for each entry of the index
    var data: Cursor?
    var dataHandle: nat             // the index entry `data` was opened for
    ghost var pos: nat              // position in Flat(runs); its length stands for "not valid"

    ghost function Repr(): set<object>
      reads this
    {
      {this, index} + if data == null then {} else {data}
    }

    ghost predicate Opened()
      reads this, Repr()
    {
      && Separates(index.entries, runs) && index.Ok()
      && (data != null ==> data != index && dataHandle < |runs| && data.entries == runs[dataHandle] && data.Ok())
    }

    /** The data iterator is the one of the index entry the index stands on. */
    ghost predicate Synced()
      reads this, Repr()
    {
      Opened() && (data == null <==> !index.Valid()) && (data != null ==> dataHandle == index.pos)
    }

    ghost predicate Ok()
      reads this, Repr()
    {
      && Synced() && (data != null ==> data.Valid())
      && pos == if data == null then |Flat(runs)| else Start(runs, dataHandle) + data.pos
    }

    predicate Valid()
      reads this, data
    {
      data != null && data.Valid()
    }

    constructor (index: Cursor, runs: seq<seq<Entry>>)
      requires index.Ok() && !index.Valid() && Separates(index.entries, runs)
      ensures Ok() && !Valid() && this.index == index && this.runs == runs && pos == |Flat(runs)|
    {
      this.index, this.runs := index, runs;
      data, dataHandle := null, 0;
      pos := |Flat(runs)|;
    }

    /** A valid iterator shows the entry of the concatenation at `pos`, an invalid one is past its end. */
    function Current(): (e: Entry)
      requires Ok() && Valid()
      reads this, Repr()
      ensures pos < |Flat(runs)| && e == Flat(runs)[pos]
    {
      At(runs, dataHandle, data.pos);
      data.entries[data.pos]
    }

    lemma ValidIsInside()
      requires Ok()
      ensures Valid() <==> pos < |Flat(runs)|
      ensures pos <= |Flat(runs)|
    {
      if data != null {
        At(runs, dataHandle, data.pos);
      }
    }

    method InitDataBlock()
      requires Opened()
      modifies this
      ensures Synced() && (data != null ==> data == old(data) || fresh(data))
      ensures old(data) != null && old(dataHandle) == index.pos && index.Valid() ==> data == old(data)
    {
      if !index.Valid() {
        data := null;
      } else {
        var handle := index.pos;
        if data != null && handle == dataHandle {
        } else {
          var iter := new Cursor(runs[handle]);
          dataHandle := handle;
          data := iter;
        }
      }
    }

    /** With `p` entries of the concatenation behind it, moves to the entry at `p`. */
    method SkipEmptyDataBlocksForward(ghost p: nat)
      requires Synced()
      requires p == if data == null then |Flat(runs)| else Start(runs, dataHandle) + data.pos
      modifies Repr()
      ensures Ok() && pos == p && fresh(Repr() - old(Repr()))
    {
      hide Flat, Start, Sorted, Separates;
      while data == null || !data.Valid()
        invariant Synced() && fresh(Repr() - old(Repr()))
        invariant p == if data == null then |Flat(runs)| else Start(runs, dataHandle) + data.pos
        decreases |index.entries| - index.pos
      {
        if !index.Valid() {
          data := null;
          pos := p;
          return;
        }
        RunsLast(index.pos);
        index.Next();
        InitDataBlock();
        if data != null {
          data.SeekToFirst();
        }
      }
      pos := p;
    }

    /** Moves to the entry before the `p`-th of the concatenation, or off the front. */
    method SkipEmptyDataBlocksBackward(ghost p: nat)
      requires Synced()
      requires p == if data == null then 0 else Start(runs, dataHandle) + (if data.Valid() then data.pos + 1 else 0)
      modifies Repr()
      ensures Ok() && pos == (if p == 0 then |Flat(runs)| else p - 1) && fresh(Repr() - old(Repr()))
    {
      hide Flat, Start, Sorted, Separates;
      ghost var left := if index.Valid() then index.pos + 1 else 0;
      while data == null || !data.Valid()
        invariant Synced() && fresh(Repr() - old(Repr()))
        invariant p == if data == null then 0 else Start(runs, dataHandle) + (if data.Valid() then data.pos + 1 else 0)
        invariant left == if index.Valid() then index.pos + 1 else 0
        decreases left
      {
        if !index.Valid() {
          data := null;
          pos := |Flat(runs)|;
          return;
        }
        RunsBefore(index.pos);
        index.Prev();
        left := if index.Valid() then index.pos + 1 else 0;
        InitDataBlock();
        if data != null {
          data.SeekToLast();
        }
      }
      pos := p - 1;
    }

    lemma RunsLast(i: nat)
      requires Separates(index.entries, runs) && i < |runs|
      ensures |index.entries| == |runs| && Start(runs, i + 1) == Start(runs, i) + |runs[i]|
      ensures i + 1 == |runs| ==> Start(runs, i + 1) == |Flat(runs)|
    {
      StartSteps(runs, i);
    }

    lemma RunsBefore(i: nat)
      requires Separates(index.entries, runs) && i < |runs|
      ensures |index.entries| == |runs|
      ensures if i == 0 then Start(runs, i) == 0 else Start(runs, i) == Start(runs, i - 1) + |runs[i - 1]|
    {
      StartSteps(runs, if i == 0 then 0 else i - 1);
    }

    method Seek(target: Key)
      requires Ok()
      modifies Repr()
      ensures Ok() && fresh(Repr() - old(Repr()))
      ensures SplitAt(Flat(runs), pos, target)
    {
      hide Flat, Start;
      index.Seek(target);
      InitDataBlock();
      if data != null {
        data.Seek(target);
      }
      SeekLands(index.entries, runs, index.pos, if data == null then 0 else data.pos, target);
      StartEnds(runs);
      SkipEmptyDataBlocksForward(Start(runs, index.pos) + if data == null then 0 else data.pos);
    }

    method SeekToFirst()
      requires Ok()
      modifies Repr()
      ensures Ok() && pos == 0 && fresh(Repr() - old(Repr()))
    {
      hide Flat, Start;
      index.SeekToFirst();
      InitDataBlock();
      if data != null {
        data.SeekToFirst();
      }
      StartEnds(runs);
      SkipEmptyDataBlocksForward(0);
    }

    method SeekToLast()
      requires Ok()
      modifies Repr()
      ensures Ok() && pos == (if |Flat(runs)| == 0 then 0 else |Flat(runs)| - 1) && fresh(Repr() - old(Repr()))
    {
      hide Flat, Start;
      index.SeekToLast();
      InitDataBlock();
      if data != null {
        data.SeekToLast();
        StartSteps(runs, index.pos);
      }
      StartEnds(runs);
      SkipEmptyDataBlocksBackward(|Flat(runs)|);
    }

    method Next()
      requires Ok() && Valid()
      modifies Repr()
      ensures Ok() && pos == old(pos) + 1 && fresh(Repr() - old(Repr()))
    {
      hide Flat, Start;
      data.Next();
      SkipEmptyDataBlocksForward(pos + 1);
    }

    method Prev()
      requires Ok() && Valid()
      modifies Repr()
      ensures Ok() && pos == (if old(pos) == 0 then |Flat(runs)| else old(pos) - 1) && fresh(Repr() - old(Repr()))
    {
      hide Flat, Start;
      data.Prev();
      SkipEmptyDataBlocksBackward(pos);
    }
  }
}
