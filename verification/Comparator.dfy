/** util/comparator.cc: the bytewise order and the keys it makes up between and above others. */
module Comparator {
  import opened Bytes

  /** Slice::compare: byte by byte, a proper prefix first. */
  predicate Less(a: Bytes, b: Bytes)
    decreases |a|
  {
    b != [] && (a == [] || a[0] < b[0] || (a[0] == b[0] && Less(a[1..], b[1..])))
  }

  lemma {:induction false} LessIsStrict(a: Bytes, b: Bytes)
    ensures !Less(a, a) && !(Less(a, b) && Less(b, a))
    decreases |a|
  {
    if a != [] && b != [] {
      LessIsStrict(a[1..], b[1..]);
    } else if a != [] {
      LessIsStrict(a[1..], []);
    }
  }

  lemma {:induction false} LessIsTotal(a: Bytes, b: Bytes)
    ensures a == b || Less(a, b) || Less(b, a)
    decreases |a|
  {
    if a != [] && b != [] && a[0] == b[0] {
      LessIsTotal(a[1..], b[1..]);
      assert a == [a[0]] + a[1..] && b == [b[0]] + b[1..];
    }
  }

  lemma {:induction false} LessIsTransitive(a: Bytes, b: Bytes, c: Bytes)
    requires Less(a, b) && Less(b, c)
    ensures Less(a, c)
    decreases |a|
  {
    if a != [] && a[0] == b[0] == c[0] {
      LessIsTransitive(a[1..], b[1..], c[1..]);
    }
  }

  /** FindShortestSeparator: the first differing byte is bumped and ends the key, if that stays below. */
  function Separator(start: Bytes, limit: Bytes): (r: Bytes)
    ensures |r| <= |start|
    decreases |start|
  {
    if start == [] || limit == [] then start
    else if start[0] == limit[0] then [start[0]] + Separator(start[1..], limit[1..])
    else if start[0] < 255 && start[0] + 1 < limit[0] then [start[0] + 1]
    else start
  }

  /** The separator lies between: at or above the start, below the limit; and it changes the key
      only to one that is larger. */
  lemma {:induction false} SeparatorSeparates(start: Bytes, limit: Bytes)
    requires Less(start, limit)
    ensures var r := Separator(start, limit); Less(r, limit) && (r == start || Less(start, r))
    decreases |start|
  {
    if start != [] && start[0] == limit[0] {
      SeparatorSeparates(start[1..], limit[1..]);
      assert start == [start[0]] + start[1..];
    }
  }

  /** Edits `start` in place in the source. */
  method FindShortestSeparator(start: Bytes, limit: Bytes) returns (r: Bytes)
    ensures r == Separator(start, limit)
  {
    hide Separator;
    r := start;
    var minLength := if |start| < |limit| then |start| else |limit|;
    var diff: nat := 0;
    assert start[0..] == start && limit[0..] == limit;
    while diff < minLength && start[diff] == limit[diff]
      invariant diff <= minLength
      invariant Separator(start, limit) == start[..diff] + Separator(start[diff..], limit[diff..])
    {
      SeparatorFrom(start, limit, diff);
      diff := diff + 1;
    }
    SeparatorFrom(start, limit, diff);
    if diff >= minLength {
      // one of the two begins with the other: `start` stays as it is
    } else {
      var diffByte := start[diff];
      if diffByte < 0xff && diffByte + 1 < limit[diff] {
        r := r[diff := diffByte + 1];
        r := r[..diff + 1];
      }
    }
  }

  lemma SeparatorStep(start: Bytes, limit: Bytes)
    ensures start == [] || limit == [] ==> Separator(start, limit) == start
    ensures start != [] && limit != [] && start[0] == limit[0] ==>
            Separator(start, limit) == [start[0]] + Separator(start[1..], limit[1..])
    ensures start != [] && limit != [] && start[0] != limit[0] ==>
            Separator(start, limit) == if start[0] < 255 && start[0] + 1 < limit[0] then [start[0] + 1] else start
  {
  }

  /** The separator, when the first `diff` bytes are taken care of. */
  lemma SeparatorFrom(start: Bytes, limit: Bytes, diff: nat)
    requires diff <= |start| && diff <= |limit|
    ensures var r := start[..diff] + Separator(start[diff..], limit[diff..]);
            if diff == |start| || diff == |limit| then r == start
            else if start[diff] == limit[diff] then
              r == start[..diff + 1] + Separator(start[diff + 1..], limit[diff + 1..])
            else if start[diff] < 255 && start[diff] + 1 < limit[diff] then
              r == start[diff := start[diff] + 1][..diff + 1]
            else r == start
  {
    hide Separator;
    var a, b := start[diff..], limit[diff..];
    SeparatorStep(a, b);
    assert start[..diff] + a == start;
    if a != [] && b != [] {
      assert a[1..] == start[diff + 1..] && b[1..] == limit[diff + 1..];
      assert start[..diff] + [a[0]] == start[..diff + 1];
    }
  }

  /** FindShortSuccessor: the first byte that can be bumped is, and ends the key. */
  function Successor(key: Bytes): (r: Bytes)
    ensures |r| <= |key|
    decreases |key|
  {
    if key == [] then [] else if key[0] != 255 then [key[0] + 1] else [255] + Successor(key[1..])
  }

  lemma {:induction false} SuccessorIsAbove(key: Bytes)
    ensures Successor(key) == key || Less(key, Successor(key))
    ensures Successor(key) == key <==> forall i :: 0 <= i < |key| ==> key[i] == 255
    decreases |key|
  {
    if key != [] && key[0] == 255 {
      SuccessorIsAbove(key[1..]);
      assert key == [255] + key[1..];
      assert forall i :: 0 <= i < |key[1..]| ==> key[1..][i] == key[i + 1];
    }
  }

  method FindShortSuccessor(key: Bytes) returns (r: Bytes)
    ensures r == Successor(key)
  {
    hide Successor;
    r := key;
    assert key[0..] == key;
    for i := 0 to |key|
      invariant r == key
      invariant Successor(key) == key[..i] + Successor(key[i..])
    {
      SuccessorStep(key[i..]);
      assert key[i..][1..] == key[i + 1..];
      if key[i] != 0xff {
        r := r[i := key[i] + 1];
        r := r[..i + 1];
        return;
      }
    }
    SuccessorStep(key[|key|..]);
  }

  lemma SuccessorStep(key: Bytes)
    ensures key == [] ==> Successor(key) == []
    ensures key != [] ==> Successor(key) == if key[0] != 255 then [key[0] + 1] else [255] + Successor(key[1..])
  {
  }

  /** A byte string as a fraction in base 257. */
  function Rank(key: Bytes): (r: real)
    ensures 0.0 <= r < 1.0
    decreases |key|
  {
    if key == [] then 0.0 else ((key[0] as nat + 1) as real + Rank(key[1..])) / 257.0
  }

  /** The bytewise order embeds in the order of the reals, so a key may be represented by its rank. */
  lemma {:induction false} RankEmbeds(a: Bytes, b: Bytes)
    ensures Less(a, b) <==> Rank(a) < Rank(b)
    ensures a == b <==> Rank(a) == Rank(b)
    decreases |a|
  {
    if a != [] && b != [] {
      RankEmbeds(a[1..], b[1..]);
      assert a == [a[0]] + a[1..] && b == [b[0]] + b[1..];
      DigitsCompare(a[0] as nat, Rank(a[1..]), b[0] as nat, Rank(b[1..]));
    }
  }

  lemma DigitsCompare(a: nat, x: real, b: nat, y: real)
    requires 0.0 <= x < 1.0 && 0.0 <= y < 1.0
    ensures ((a + 1) as real + x) / 257.0 < ((b + 1) as real + y) / 257.0 <==> a < b || (a == b && x < y)
    ensures ((a + 1) as real + x) / 257.0 == ((b + 1) as real + y) / 257.0 <==> a == b && x == y
  {
    if a < b {
      assert (a + 1) as real + 1.0 <= (b + 1) as real;
    } else if b < a {
      assert (b + 1) as real + 1.0 <= (a + 1) as real;
    }
  }
}
