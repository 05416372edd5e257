/** table/block_builder.cc: keys stored as what they add to their predecessor, with restart points. */
module BlockFormat {
  import opened Bytes
  import opened Coding

  datatype Pair = Pair(key: Bytes, value: Bytes)

  /** What a key adds to the part it shares with its predecessor. */
  function Delta(key: Bytes, shared: nat): Bytes {
    if shared <= |key| then key[shared..] else []
  }

  function EncodeEntry(shared: nat, e: Pair): (r: Bytes)
    ensures |r| >= 3
  {
    Varint(shared) + Varint(|Delta(e.key, shared)|) + Varint(|e.value|) + Delta(e.key, shared) + e.value
  }

  /** A block's entries, how much of each key it shares with the one before, and which entries are
      restart points. */
  datatype Layout = Layout(entries: seq<Pair>, shares: seq<nat>, restarts: seq<nat>)

  ghost predicate Ascending(s: seq<nat>) {
    forall j, k :: 0 <= j < k < |s| ==> s[j] < s[k]
  }

  ghost predicate ShareOk(es: seq<Pair>, i: nat, shared: nat)
    requires i < |es|
  {
    && shared <= |es[i].key| && (i == 0 ==> shared == 0)
    && (i > 0 ==> shared <= |es[i - 1].key| && es[i].key[..shared] == es[i - 1].key[..shared])
  }

  ghost predicate Sound(l: Layout)
    ensures Sound(l) ==> |l.shares| == |l.entries| && |l.restarts| > 0
  {
    && |l.shares| == |l.entries|
    && (forall i :: 0 <= i < |l.entries| ==> ShareOk(l.entries, i, l.shares[i]))
    && |l.restarts| > 0 && l.restarts[0] == 0 && Ascending(l.restarts)
    && (forall j :: 0 < j < |l.restarts| ==> l.restarts[j] < |l.entries|)
    && (forall j :: 0 <= j < |l.restarts| && l.restarts[j] < |l.entries| ==> l.shares[l.restarts[j]] == 0)
  }

  /** The bytes of the first `n` entries. */
  function Data(l: Layout, n: nat): Bytes
    requires n <= |l.entries| == |l.shares|
  {
    if n == 0 then [] else Data(l, n - 1) + EncodeEntry(l.shares[n - 1], l.entries[n - 1])
  }

  function Offset(l: Layout, n: nat): nat
    requires n <= |l.entries| == |l.shares|
  {
    |Data(l, n)|
  }

  lemma {:induction false} DataPrefix(l: Layout, i: nat, n: nat)
    requires i <= n <= |l.entries| == |l.shares|
    ensures Data(l, i) <= Data(l, n) && Offset(l, i) + 3 * (n - i) <= Offset(l, n)
  {
    hide EncodeEntry;
    if i < n {
      DataPrefix(l, i, n - 1);
    }
  }

  lemma OffsetStep(l: Layout, i: nat)
    requires i < |l.entries| == |l.shares|
    ensures Offset(l, i + 1) == Offset(l, i) + |EncodeEntry(l.shares[i], l.entries[i])|
    ensures Offset(l, i) < Offset(l, i + 1) <= Offset(l, |l.entries|)
    ensures Data(l, |l.entries|)[Offset(l, i)..Offset(l, i + 1)] == EncodeEntry(l.shares[i], l.entries[i])
  {
    hide EncodeEntry;
    DataPrefix(l, i + 1, |l.entries|);
    var d, e := Data(l, |l.entries|), EncodeEntry(l.shares[i], l.entries[i]);
    assert d[..Offset(l, i + 1)] == Data(l, i) + e;
  }

  lemma OffsetsAscend(l: Layout, i: nat, j: nat)
    requires i <= |l.entries| == |l.shares| && j <= |l.entries|
    ensures i < j <==> Offset(l, i) < Offset(l, j)
    ensures Offset(l, 0) == 0
  {
    hide EncodeEntry;
    if i < j {
      DataPrefix(l, i, j);
    } else {
      DataPrefix(l, j, i);
    }
  }

  // --- The builder ---

  /** How long a common prefix is. */
  function CommonPrefix(a: Bytes, b: Bytes): (n: nat)
    ensures n <= |a| && n <= |b| && a[..n] == b[..n]
    ensures n < |a| && n < |b| ==> a[n] != b[n]
  {
    if a == [] || b == [] || a[0] != b[0] then 0
    else
      var n := CommonPrefix(a[1..], b[1..]);
      assert a[..n + 1] == [a[0]] + a[1..][..n] && b[..n + 1] == [b[0]] + b[1..][..n];
      n + 1
  }

  /** counter_ after `n` entries: how many since the last restart point. */
  function Counter(n: nat, interval: nat): (c: nat)
    requires interval >= 1
    ensures c <= interval && (n > 0 ==> c > 0)
  {
    if n == 0 then 0 else (if Counter(n - 1, interval) < interval then Counter(n - 1, interval) else 0) + 1
  }

  /** restarts_ after `n` entries, as entry numbers. */
  function RestartsOf(n: nat, interval: nat): seq<nat>
    requires interval >= 1
  {
    if n == 0 then [0]
    else if Counter(n - 1, interval) < interval then RestartsOf(n - 1, interval)
    else RestartsOf(n - 1, interval) + [n - 1]
  }

  function LastKey(es: seq<Pair>): Bytes {
    if es == [] then [] else es[|es| - 1].key
  }

  function SharesOf(es: seq<Pair>, interval: nat): (r: seq<nat>)
    requires interval >= 1
    ensures |r| == |es|
  {
    if es == [] then []
    else
      var before := es[..|es| - 1];
      SharesOf(before, interval) +
      [if Counter(|before|, interval) < interval then CommonPrefix(LastKey(before), es[|es| - 1].key) else 0]
  }

  /** The layout the builder makes of some entries. */
  function Built(es: seq<Pair>, interval: nat): (l: Layout)
    requires interval >= 1
  {
    Layout(es, SharesOf(es, interval), RestartsOf(|es|, interval))
  }

  /** Restart points lie exactly `interval` entries apart. */
  lemma {:induction false} RestartsAreSpaced(n: nat, interval: nat)
    requires interval >= 1
    ensures var r := RestartsOf(n, interval);
            && |r| > 0 && r[0] == 0 && (forall j :: 0 < j < |r| ==> r[j] == r[j - 1] + interval && r[j] < n)
            && r[|r| - 1] + Counter(n, interval) == n
  {
    if n > 0 {
      RestartsAreSpaced(n - 1, interval);
    }
  }

  lemma {:induction false} RestartsAscend(n: nat, interval: nat)
    requires interval >= 1
    ensures Ascending(RestartsOf(n, interval))
  {
    if n > 0 {
      RestartsAscend(n - 1, interval);
      RestartsAreSpaced(n - 1, interval);
      var r := RestartsOf(n - 1, interval);
      assert forall j :: 0 <= j < |r| ==> r[j] <= r[|r| - 1];
    }
  }

  lemma {:induction false} ShareAt(es: seq<Pair>, interval: nat, i: nat)
    requires interval >= 1 && i < |es|
    ensures SharesOf(es, interval)[i] ==
            if Counter(i, interval) < interval then CommonPrefix(LastKey(es[..i]), es[i].key) else 0
    decreases |es|
  {
    hide CommonPrefix, Counter;
    var before := es[..|es| - 1];
    if i < |before| {
      ShareAt(before, interval, i);
      assert before[..i] == es[..i];
    }
  }

  lemma {:induction false} RestartsFollowFullCounter(n: nat, interval: nat, j: nat)
    requires interval >= 1 && 0 < j < |RestartsOf(n, interval)|
    ensures Counter(RestartsOf(n, interval)[j], interval) == interval
  {
    if n > 0 && j < |RestartsOf(n - 1, interval)| {
      RestartsFollowFullCounter(n - 1, interval, j);
    }
  }

  /** Whatever the entries and the interval, the builder's layout is sound. */
  lemma BuiltIsSound(es: seq<Pair>, interval: nat)
    requires interval >= 1
    ensures Sound(Built(es, interval))
  {
    hide CommonPrefix, Counter, RestartsOf, Ascending, SharesOf;
    var l := Built(es, interval);
    RestartsAreSpaced(|es|, interval);
    RestartsAscend(|es|, interval);
    forall i | 0 <= i < |es| ensures ShareOk(es, i, l.shares[i]) {
      ShareAt(es, interval, i);
    }
    forall j | 0 <= j < |l.restarts| && l.restarts[j] < |es| ensures l.shares[l.restarts[j]] == 0 {
      ShareAt(es, interval, l.restarts[j]);
      if j > 0 {
        RestartsFollowFullCounter(|es|, interval, j);
      }
    }
  }

  lemma RestartsStep(n: nat, interval: nat)
    requires interval >= 1
    ensures RestartsOf(n + 1, interval) ==
            if Counter(n, interval) < interval then RestartsOf(n, interval) else RestartsOf(n, interval) + [n]
    ensures Counter(n + 1, interval) == (if Counter(n, interval) < interval then Counter(n, interval) else 0) + 1
    ensures RestartsOf(0, interval) == [0] && Counter(0, interval) == 0
  {
  }

  lemma SharesStep(es: seq<Pair>, e: Pair, interval: nat)
    requires interval >= 1
    ensures SharesOf(es + [e], interval) ==
            SharesOf(es, interval) +
              [if Counter(|es|, interval) < interval then CommonPrefix(LastKey(es), e.key) else 0]
  {
    assert (es + [e])[..|es|] == es;
  }
}
