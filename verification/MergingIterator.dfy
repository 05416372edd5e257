/** table/merger.cc: one cursor over the sorted union of several sorted children. */
module MergingIterators {
  import opened Lsm

  /** The interface every leaf iterator offers (memtable, table, level): a position in a sorted run,
      where `|entries|` stands for "not valid". */
  class Cursor {
    const entries: seq<Entry>
    var pos: nat

    ghost predicate Ok()
      reads this
    {
      pos <= |entries| && Sorted(entries)
    }

    constructor (entries: seq<Entry>)
      requires Sorted(entries)
      ensures Ok() && this.entries == entries && pos == |entries|
    {
      this.entries := entries;
      pos := |entries|;
    }

    predicate Valid()
      reads this
    {
      pos < |entries|
    }

    method SeekToFirst()
      modifies this
      ensures pos == 0
    {
      pos := 0;
    }

    method SeekToLast()
      modifies this
      ensures pos == if |entries| == 0 then 0 else |entries| - 1
    {
      pos := if |entries| == 0 then 0 else |entries| - 1;
    }

    method Seek(target: Key)
      requires Sorted(entries)
      modifies this
      ensures pos <= |entries|
      ensures forall j :: 0 <= j < pos ==> Before(entries[j].key, target)
      ensures forall j :: pos <= j < |entries| ==> !Before(entries[j].key, target)
    {
      pos := 0;
      while pos < |entries| && Before(entries[pos].key, target)
        invariant pos <= |entries|
        invariant forall j :: 0 <= j < pos ==> Before(entries[j].key, target)
      {
        pos := pos + 1;
      }
    }

    method Next()
      requires Valid()
      modifies this
      ensures pos == old(pos) + 1
    {
      pos := pos + 1;
    }

    method Prev()
      requires Valid()
      modifies this
      ensures pos == if old(pos) == 0 then |entries| else old(pos) - 1
    {
      pos := if pos == 0 then |entries| else pos - 1;
    }
  }

  class MergingIterator {
    const children: seq<Cursor>
    var current: int          // index of the child; -1 stands for NULL
    var forward: bool         // direction_
    ghost const merged: seq<Entry>
    ghost var pos: nat        // position in `merged`; |merged| stands for "not valid"

    /** The children are distinct objects over disjoint sorted runs whose union is `merged`. */
    ghost predicate Wiring()
      reads this, children
    {
      (forall i, j :: 0 <= i < j < |children| ==> children[i] != children[j]) &&
      (forall i :: 0 <= i < |children| ==> children[i].Ok()) &&
      IsUnion(merged, children)
    }

    /** The first `n` entries of child `i` are among the first `p` of the union, the others are not. */
    ghost predicate Cut(i: int, n: nat, p: nat)
      requires 0 <= i < |children| && p <= |merged|
    {
      var s := children[i].entries;
      n <= |s| &&
      (forall j :: 0 <= j < n ==> s[j] in merged[..p]) &&
      (forall j :: n <= j < |s| ==> s[j] in merged[p..])
    }

    /** How many entries of child `i` lie at or before its position, when it moves backward. */
    ghost function Passed(i: int): nat
      requires 0 <= i < |children|
      reads children[i]
    {
      if children[i].Valid() then children[i].pos + 1 else 0
    }

    ghost predicate Ok()
      reads this, children
      ensures Ok() ==> pos <= |merged| && Sorted(merged) && (Valid() <==> pos < |merged|)
    {
      Wiring() && pos <= |merged| && -1 <= current < |children| &&
      (current == -1 <==> pos == |merged|) &&
      (current != -1 ==>
         children[current].Valid() &&
         children[current].entries[children[current].pos] == merged[pos] &&
         forall i :: 0 <= i < |children| ==>
           if forward then Cut(i, children[i].pos, pos) else Cut(i, Passed(i), pos + 1))
    }

    predicate Valid()
      reads this
    {
      current != -1
    }

    constructor (children: seq<Cursor>, ghost merged: seq<Entry>)
      requires forall i, j :: 0 <= i < j < |children| ==> children[i] != children[j]
      requires forall i :: 0 <= i < |children| ==> children[i].Ok()
      requires IsUnion(merged, children)
      ensures Ok() && !Valid() && this.children == children && this.merged == merged
    {
      this.children, this.merged := children, merged;
      current, forward := -1, true;
      pos := |merged|;
    }

    function Top(): (e: Entry)
      requires Ok() && Valid()
      reads this, children
      ensures e == merged[pos]
    {
      children[current].entries[children[current].pos]
    }

    method FindSmallest(ghost p: nat)
      requires Wiring() && p <= |merged| && forward
      requires forall i :: 0 <= i < |children| ==> Cut(i, children[i].pos, p)
      modifies this
      ensures Ok() && pos == p && forward
    {
      var smallest := -1;
      for i := 0 to |children|
        invariant -1 <= smallest < i
        invariant smallest == -1 ==> forall k :: 0 <= k < i ==> !children[k].Valid()
        invariant smallest != -1 ==> children[smallest].Valid()
        invariant smallest != -1 ==> forall k :: 0 <= k < i && children[k].Valid() ==>
          !Before(Head(k).key, Head(smallest).key)
      {
        var child := children[i];
        if child.Valid() {
          if smallest == -1 {
            smallest := i;
          } else if Before(child.entries[child.pos].key, children[smallest].entries[children[smallest].pos].key) {
            smallest := i;
          }
        }
      }
      SmallestHead(smallest, p);
      current := smallest;
      pos := p;
    }

    method FindLargest(ghost p: nat)
      requires Wiring() && p <= |merged| && !forward
      requires forall i :: 0 <= i < |children| ==> Cut(i, Passed(i), p)
      modifies this
      ensures Ok() && pos == (if p == 0 then |merged| else p - 1) && !forward
    {
      var largest := -1;
      for i := |children| downto 0
        invariant largest == -1 || i <= largest < |children|
        invariant largest == -1 ==> forall k :: i <= k < |children| ==> !children[k].Valid()
        invariant largest != -1 ==> children[largest].Valid()
        invariant largest != -1 ==> forall k :: i <= k < |children| && children[k].Valid() ==>
          !Before(Head(largest).key, Head(k).key)
      {
        var child := children[i];
        if child.Valid() {
          if largest == -1 {
            largest := i;
          } else if Before(children[largest].entries[children[largest].pos].key, child.entries[child.pos].key) {
            largest := i;
          }
        }
      }
      LargestHead(largest, p);
      current := largest;
      pos := if p == 0 then |merged| else p - 1;
    }

    ghost function Head(i: int): Entry
      requires 0 <= i < |children| && children[i].Valid()
      reads children[i]
    {
      children[i].entries[children[i].pos]
    }

    lemma SmallestHead(smallest: int, p: nat)
      requires Wiring() && p <= |merged| && -1 <= smallest < |children|
      requires forall i :: 0 <= i < |children| ==> Cut(i, children[i].pos, p)
      requires smallest == -1 ==> forall k :: 0 <= k < |children| ==> !children[k].Valid()
      requires smallest != -1 ==> children[smallest].Valid()
      requires smallest != -1 ==>
        forall k :: 0 <= k < |children| && children[k].Valid() ==> !Before(Head(k).key, Head(smallest).key)
      ensures smallest == -1 <==> p == |merged|
      ensures smallest != -1 ==> Head(smallest) == merged[p]
    {
      if p < |merged| {
        assert merged[p] in merged;
        var i :| 0 <= i < |children| && merged[p] in children[i].entries;
        var j :| 0 <= j < |children[i].entries| && children[i].entries[j] == merged[p];
        assert merged[p] !in merged[..p];
        assert Cut(i, children[i].pos, p) && children[i].pos <= j;
      }
      assert smallest != -1 ==> Cut(smallest, children[smallest].pos, p) && Head(smallest) in merged[p..];
    }

    lemma LargestHead(largest: int, p: nat)
      requires Wiring() && p <= |merged| && -1 <= largest < |children|
      requires forall i :: 0 <= i < |children| ==> Cut(i, Passed(i), p)
      requires largest == -1 ==> forall k :: 0 <= k < |children| ==> !children[k].Valid()
      requires largest != -1 ==> children[largest].Valid()
      requires largest != -1 ==>
        forall k :: 0 <= k < |children| && children[k].Valid() ==> !Before(Head(largest).key, Head(k).key)
      ensures largest == -1 <==> p == 0
      ensures largest != -1 ==> Head(largest) == merged[p - 1]
    {
      if p > 0 {
        assert merged[p - 1] in merged;
        var i :| 0 <= i < |children| && merged[p - 1] in children[i].entries;
        var j :| 0 <= j < |children[i].entries| && children[i].entries[j] == merged[p - 1];
        assert merged[p - 1] !in merged[p..];
        assert Cut(i, Passed(i), p) && j < Passed(i);
      }
      assert largest != -1 ==> Cut(largest, Passed(largest), p) && Head(largest) in merged[..p];
    }

    lemma CutAtKey(i: int, n: nat, p: nat, key: Key)
      requires Wiring() && 0 <= i < |children| && p <= |merged|
      requires SplitAt(children[i].entries, n, key) && SplitAt(merged, p, key)
      ensures Cut(i, n, p)
    {
      var s := children[i].entries;
      forall j | 0 <= j < |s| ensures if j < n then s[j] in merged[..p] else s[j] in merged[p..] {
        assert s[j] in s && s[j] in merged;
        var k :| 0 <= k < |merged| && merged[k] == s[j];
        if j < n { assert k < p; assert merged[..p][k] == s[j]; }
        else { assert k >= p; assert merged[p..][k - p] == s[j]; }
      }
    }

    /** The entry at `p` belongs to child `owner`, so the other children are cut at `p + 1` too. */
    lemma CutSkips(i: int, n: nat, p: nat, owner: int)
      requires Wiring() && 0 <= i < |children| && 0 <= owner < |children| && i != owner && p < |merged|
      requires merged[p] in children[owner].entries
      ensures Cut(i, n, p) <==> Cut(i, n, p + 1)
    {
      var s := children[i].entries;
      forall j | 0 <= j < |s|
        ensures s[j] in merged[..p] <==> s[j] in merged[..p + 1]
        ensures s[j] in merged[p..] <==> s[j] in merged[p + 1..]
      {
        assert s[j] in s && s[j] != merged[p];
        assert merged[..p + 1] == merged[..p] + [merged[p]];
        assert merged[p..] == [merged[p]] + merged[p + 1..];
      }
    }

    lemma NoSharedKey(i: int, p: nat, owner: int)
      requires Wiring() && 0 <= i < |children| && 0 <= owner < |children| && i != owner && p < |merged|
      requires merged[p] in children[owner].entries
      ensures forall e :: e in children[i].entries ==> e.key != merged[p].key
    {
      forall e | e in children[i].entries ensures e.key != merged[p].key {
        assert e in merged && e != merged[p];
        var k :| 0 <= k < |merged| && merged[k] == e;
        assert k < p || k > p;
      }
    }

    /** The owner of the entry at `p` stands on it exactly when it is cut at `p`. */
    lemma CutOwner(i: int, p: nat)
      requires Wiring() && 0 <= i < |children| && p < |merged|
      requires children[i].Valid() && children[i].entries[children[i].pos] == merged[p]
      ensures Cut(i, children[i].pos, p) && Cut(i, children[i].pos + 1, p + 1)
    {
      var s, c := children[i].entries, children[i].pos;
      CutAtKey(i, c, p, merged[p].key);
      forall j | 0 <= j < |s|
        ensures j <= c ==> s[j] in merged[..p + 1]
        ensures j > c ==> s[j] in merged[p + 1..]
      {
        assert merged[..p + 1] == merged[..p] + [merged[p]];
        assert merged[p..] == [merged[p]] + merged[p + 1..];
        assert j > c ==> s[j] != s[c];
      }
    }

    method SeekToFirst()
      requires Ok()
      modifies this, children
      ensures Ok() && pos == 0
    {
      for i := 0 to |children|
        invariant Wiring()
        invariant forall k :: 0 <= k < i ==> children[k].pos == 0
      {
        children[i].SeekToFirst();
      }
      forward := true;
      FindSmallest(0);
    }

    method SeekToLast()
      requires Ok()
      modifies this, children
      ensures Ok() && pos == if |merged| == 0 then 0 else |merged| - 1
    {
      hide IsUnion, Cut, Sorted;
      for i := 0 to |children|
        modifies children
        invariant Wiring()
        invariant forall k :: 0 <= k < i ==> Cut(k, Passed(k), |merged|)
      {
        children[i].SeekToLast();
        CutAtEnd(i);
      }
      forward := false;
      FindLargest(|merged|);
    }

    lemma CutAtEnd(i: int)
      requires 0 <= i < |children| && Wiring()
      requires children[i].pos == if |children[i].entries| == 0 then 0 else |children[i].entries| - 1
      ensures Cut(i, Passed(i), |merged|)
    {
      hide Sorted;
      assert merged[..|merged|] == merged;
    }

    method Seek(target: Key)
      requires Ok()
      modifies this, children
      ensures Ok() && SplitAt(merged, pos, target)
    {
      ghost var p := LowerBound(merged, target);
      for i := 0 to |children|
        invariant Wiring()
        modifies children
        invariant forall k :: 0 <= k < i ==> Cut(k, children[k].pos, p)
      {
        children[i].Seek(target);
        CutAtKey(i, children[i].pos, p, target);
      }
      forward := true;
      FindSmallest(p);
    }

    method Next()
      requires Ok() && Valid()
      modifies this, children
      ensures Ok() && pos == old(pos) + 1
    {
      hide Cut, IsUnion, Sorted;
      if !forward {
        AllAfterCurrent();
        forward := true;
      } else {
        forall i | 0 <= i < |children| && i != current ensures Cut(i, children[i].pos, pos + 1) {
          CutSkips(i, children[i].pos, pos, current);
        }
      }
      CutOwner(current, pos);
      children[current].Next();
      FindSmallest(pos + 1);
    }

    method Prev()
      requires Ok() && Valid()
      modifies this, children
      ensures Ok() && pos == if old(pos) == 0 then |merged| else old(pos) - 1
    {
      hide Cut, IsUnion, Sorted;
      if forward {
        AllBeforeCurrent();
        forward := false;
      } else {
        forall i | 0 <= i < |children| && i != current ensures Cut(i, Passed(i), pos) {
          CutSkips(i, Passed(i), pos, current);
        }
      }
      CutOwner(current, pos);
      children[current].Prev();
      FindLargest(pos);
    }

    /** The direction switch in Next: put every other child after key(). */
    method AllAfterCurrent()
      requires Ok() && Valid()
      modifies children
      ensures Wiring() && children[current].pos == old(children[current].pos)
      ensures forall i :: 0 <= i < |children| && i != current ==> Cut(i, children[i].pos, pos + 1)
    {
      hide Cut, IsUnion, Sorted;
      var was := children[current].pos;
      var key := children[current].entries[was].key;
      SplitHere(merged, pos);
      for i := 0 to |children|
        modifies children
        invariant Wiring() && children[current].pos == was
        invariant forall k :: 0 <= k < i && k != current ==> Cut(k, children[k].pos, pos + 1)
      {
        var child := children[i];
        if i != current {
          child.Seek(key);
          NoSharedKey(i, pos, current);
          if child.Valid() && child.entries[child.pos].key == key {
            // Only reached when two children hold the same internal key.
            assert false;
          }
          CutAtKey(i, child.pos, pos, key);
          CutSkips(i, child.pos, pos, current);
        }
      }
    }

    /** The direction switch in Prev: put every other child before key(). */
    method AllBeforeCurrent()
      requires Ok() && Valid()
      modifies children
      ensures Wiring() && children[current].pos == old(children[current].pos)
      ensures forall i :: 0 <= i < |children| && i != current ==> Cut(i, Passed(i), pos)
    {
      hide Cut, IsUnion, Sorted;
      var was := children[current].pos;
      var key := children[current].entries[was].key;
      SplitHere(merged, pos);
      for i := 0 to |children|
        modifies children
        invariant Wiring() && children[current].pos == was
        invariant forall k :: 0 <= k < i && k != current ==> Cut(k, Passed(k), pos)
      {
        var child := children[i];
        if i != current {
          child.Seek(key);
          CutAtKey(i, child.pos, pos, key);
          if child.Valid() {
            child.Prev();
          } else {
            child.SeekToLast();
          }
        }
      }
    }
  }

  lemma SplitHere(s: seq<Entry>, p: nat)
    requires Sorted(s) && p < |s|
    ensures SplitAt(s, p, s[p].key)
  {
  }

  /** All entries strictly before `key` lie before index `at`, all others from `at` on. */
  ghost predicate SplitAt(s: seq<Entry>, at: nat, key: Key) {
    at <= |s| &&
    (forall j :: 0 <= j < at ==> Before(s[j].key, key)) &&
    (forall j :: at <= j < |s| ==> !Before(s[j].key, key))
  }

  ghost function LowerBound(s: seq<Entry>, key: Key): (at: nat)
    requires Sorted(s)
    ensures SplitAt(s, at, key)
  {
    if s == [] || !Before(s[|s| - 1].key, key) then
      if s == [] then 0 else LowerBound(s[..|s| - 1], key)
    else |s|
  }

  /** `merged` is the sorted union of the children, no entry of which occurs twice. */
  ghost predicate IsUnion(merged: seq<Entry>, children: seq<Cursor>) {
    Sorted(merged) &&
    (forall i, e :: 0 <= i < |children| && e in children[i].entries ==> e in merged) &&
    (forall e :: e in merged ==> exists i :: 0 <= i < |children| && e in children[i].entries) &&
    (forall i, j, e :: 0 <= i < j < |children| && e in children[i].entries ==> e !in children[j].entries)
  }
}
