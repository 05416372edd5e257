/** db/write_batch.cc: a batch of updates as one byte string, appended to and read back. */
module WriteBatches {
  import opened Bytes
  import opened Coding

  datatype Op = Put(key: Bytes, value: Bytes) | Delete(key: Bytes)

  const HEADER: nat := 12
  const TYPE_DELETION: byte := 0
  const TYPE_VALUE: byte := 1

  function EncodeOp(op: Op): (r: Bytes)
    ensures |r| > 0
  {
    match op
    case Put(key, value) => [TYPE_VALUE] + Prefixed(key) + Prefixed(value)
    case Delete(key) => [TYPE_DELETION] + Prefixed(key)
  }

  function EncodeOps(ops: seq<Op>): Bytes {
    if ops == [] then [] else EncodeOp(ops[0]) + EncodeOps(ops[1..])
  }

  /** Eight bytes of sequence number, four of count, then the updates. */
  function Rep(sequence: nat, ops: seq<Op>): Bytes {
    Fixed(sequence, 8) + Fixed(|ops|, 4) + EncodeOps(ops)
  }

  /** What Iterate makes of the bytes after the header: the updates it hands over before it stops. */
  datatype Parse = Parse(ops: seq<Op>, error: string)

  function ParseOp(input: Bytes): (r: (Got<Op>, string))
    requires input != []
    ensures r.0.Got? ==> |r.0.rest| < |input|
  {
    if input[0] == TYPE_VALUE then
      (match UnPrefixed(input[1..])
       case Failed => (Failed, "bad WriteBatch Put")
       case Got(key, rest) =>
         match UnPrefixed(rest)
         case Failed => (Failed, "bad WriteBatch Put")
         case Got(value, rest1) => (Got(Put(key, value), rest1), ""))
    else if input[0] == TYPE_DELETION then
      (match UnPrefixed(input[1..])
       case Failed => (Failed, "bad WriteBatch Delete")
       case Got(key, rest) => (Got(Delete(key), rest), ""))
    else (Failed, "unknown WriteBatch tag")
  }

  function ParseOps(input: Bytes): Parse
    decreases |input|
  {
    if input == [] then Parse([], "")
    else
      var r := ParseOp(input);
      if r.0.Failed? then Parse([], r.1)
      else
        var rest := ParseOps(r.0.rest);
        rest.(ops := [r.0.value] + rest.ops)
  }

  predicate Encodable(op: Op) {
    |op.key| < LIMIT32 && (op.Put? ==> |op.value| < LIMIT32)
  }

  lemma OpRoundTrip(op: Op, rest: Bytes)
    requires Encodable(op)
    ensures EncodeOp(op) + rest != [] && ParseOp(EncodeOp(op) + rest) == (Got(op, rest), "")
  {
    hide Prefixed, UnPrefixed;
    var input := EncodeOp(op) + rest;
    match op {
      case Put(key, value) =>
        assert input[1..] == Prefixed(key) + (Prefixed(value) + rest);
        PrefixedRoundTrip(key, Prefixed(value) + rest);
        PrefixedRoundTrip(value, rest);
      case Delete(key) =>
        assert input[1..] == Prefixed(key) + rest;
        PrefixedRoundTrip(key, rest);
    }
  }

  /** A batch reads back as the updates put into it, in order. */
  lemma {:induction false} OpsRoundTrip(ops: seq<Op>)
    requires forall i :: 0 <= i < |ops| ==> Encodable(ops[i])
    ensures ParseOps(EncodeOps(ops)) == Parse(ops, "")
  {
    hide EncodeOp, ParseOp;
    if ops != [] {
      OpRoundTrip(ops[0], EncodeOps(ops[1..]));
      OpsRoundTrip(ops[1..]);
      assert ops == [ops[0]] + ops[1..];
    }
  }

  lemma {:induction false} EncodeOpsConcat(a: seq<Op>, b: seq<Op>)
    ensures EncodeOps(a + b) == EncodeOps(a) + EncodeOps(b)
  {
    hide EncodeOp;
    if a == [] {
      assert a + b == b;
    } else {
      assert (a + b)[0] == a[0] && (a + b)[1..] == a[1..] + b;
      EncodeOpsConcat(a[1..], b);
    }
  }

  lemma CountReads(sequence: nat, ops: seq<Op>)
    requires |ops| < LIMIT32
    ensures UnFixed(Rep(sequence, ops)[8..12]) == |ops|
  {
    hide EncodeOps, Fixed, UnFixed;
    assert Power256(4) == 256 * 256 * 256 * 256 * Power256(0);
    FixedRoundTrip(|ops|, 4);
    assert Rep(sequence, ops)[8..12] == Fixed(|ops|, 4);
  }

  class WriteBatch {
    var rep: Bytes
    ghost var sequence: nat
    ghost var ops: seq<Op>

    /** Every batch built through the interface. */
    ghost predicate Valid()
      reads this
    {
      && rep == Rep(sequence, ops) && |ops| < LIMIT32
      && forall i :: 0 <= i < |ops| ==> Encodable(ops[i])
    }

    constructor ()
      ensures Valid() && ops == []
    {
      rep := seq(HEADER, i => 0);
      sequence, ops := 0, [];
      ZeroHeader();
    }

    method Count() returns (n: nat)
      requires |rep| >= HEADER
      ensures n == UnFixed(rep[8..12])
      ensures Valid() ==> n == |ops|
    {
      n := UnFixed(rep[8..12]);
      if Valid() {
        CountReads(sequence, ops);
      }
    }

    /** SetCount. */
    method SetCount(n: nat)
      requires |rep| >= HEADER
      modifies `rep
      ensures rep == old(rep)[..8] + Fixed(n, 4) + old(rep)[12..]
    {
      rep := rep[..8] + Fixed(n, 4) + rep[12..];
    }

    method SetSequence(s: nat)
      requires Valid()
      modifies `rep, `sequence
      ensures Valid() && sequence == s
    {
      hide EncodeOps, Fixed;
      rep := Fixed(s, 8) + rep[8..];
      sequence := s;
    }

    method Put(key: Bytes, value: Bytes)
      requires Valid() && |key| < LIMIT32 && |value| < LIMIT32 && |ops| + 1 < LIMIT32
      modifies this
      ensures Valid() && ops == old(ops) + [Op.Put(key, value)] && sequence == old(sequence)
    {
      hide EncodeOps, Fixed, Prefixed, Rep;
      RepParts(sequence, ops);
      var n := Count();
      SetCount(n + 1);
      ghost var before := rep;
      rep := rep + [TYPE_VALUE];
      rep := rep + Prefixed(key);
      rep := rep + Prefixed(value);
      Appended(sequence, ops, Op.Put(key, value));
      assert rep == before + EncodeOp(Op.Put(key, value));
      ops := ops + [Op.Put(key, value)];
    }

    method Delete(key: Bytes)
      requires Valid() && |key| < LIMIT32 && |ops| + 1 < LIMIT32
      modifies this
      ensures Valid() && ops == old(ops) + [Op.Delete(key)] && sequence == old(sequence)
    {
      hide EncodeOps, Fixed, Prefixed, Rep;
      RepParts(sequence, ops);
      var n := Count();
      SetCount(n + 1);
      ghost var before := rep;
      rep := rep + [TYPE_DELETION];
      rep := rep + Prefixed(key);
      Appended(sequence, ops, Op.Delete(key));
      assert rep == before + EncodeOp(Op.Delete(key));
      ops := ops + [Op.Delete(key)];
    }

    /** Appends another batch's updates. */
    method Append(src: WriteBatch)
      requires Valid() && src.Valid() && |ops| + |src.ops| < LIMIT32 && src != this
      modifies this
      ensures Valid() && ops == old(ops) + src.ops && sequence == old(sequence)
    {
      hide EncodeOps, Fixed;
      var n := Count();
      var m := src.Count();
      SetCount(n + m);
      rep := rep + src.rep[HEADER..];
      EncodeOpsConcat(ops, src.ops);
      assert src.rep[HEADER..] == EncodeOps(src.ops);
      ops := ops + src.ops;
    }

    /** Hands over the updates one by one until the bytes end or do not parse. */
    method Iterate() returns (handed: seq<Op>, error: string)
      requires |rep| >= HEADER
      ensures handed == ParseOps(rep[HEADER..]).ops
      ensures error == if ParseOps(rep[HEADER..]).error != "" then ParseOps(rep[HEADER..]).error
                       else if |handed| != UnFixed(rep[8..12]) then "WriteBatch has wrong count" else ""
      ensures Valid() ==> handed == ops && error == ""
    {
      hide UnPrefixed, UnFixed, EncodeOps;
      if Valid() {
        OpsRoundTrip(ops);
        assert rep[HEADER..] == EncodeOps(ops);
      }
      var input := rep[HEADER..];
      handed, error := [], "";
      while input != []
        invariant ParseOps(rep[HEADER..]) == Parse(handed + ParseOps(input).ops, ParseOps(input).error)
        decreases |input|
      {
        hide ParseOp;
        ErrorIsNamed(input);
        var r := ParseOp(input);
        if r.0.Failed? {
          error := r.1;
          return;
        }
        handed := handed + [r.0.value];
        input := r.0.rest;
      }
      var count := Count();
      if |handed| != count {
        error := "WriteBatch has wrong count";
      }
    }
  }

  lemma ErrorIsNamed(input: Bytes)
    requires input != []
    ensures ParseOp(input).0.Failed? ==> ParseOp(input).1 != ""
  {
    hide UnPrefixed;
  }

  lemma ZeroHeader()
    ensures seq(HEADER, i => 0 as byte) == Rep(0, [])
  {
    ZeroFixed(8);
    ZeroFixed(4);
  }

  lemma {:induction false} ZeroFixed(n: nat)
    ensures Fixed(0, n) == seq(n, i => 0 as byte)
  {
    if n > 0 {
      ZeroFixed(n - 1);
    }
  }

  lemma RepParts(sequence: nat, ops: seq<Op>)
    ensures |Rep(sequence, ops)| >= HEADER && Rep(sequence, ops)[..8] == Fixed(sequence, 8)
    ensures Rep(sequence, ops)[12..] == EncodeOps(ops)
  {
    hide Fixed, EncodeOps;
  }

  lemma Appended(sequence: nat, ops: seq<Op>, op: Op)
    ensures Fixed(sequence, 8) + Fixed(|ops| + 1, 4) + EncodeOps(ops) + EncodeOp(op) == Rep(sequence, ops + [op])
  {
    hide Fixed, EncodeOp;
    EncodeOpsConcat(ops, [op]);
    assert EncodeOps([op]) == EncodeOp(op) + EncodeOps([]);
  }
}
