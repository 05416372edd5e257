/** nanopb/pb_decode.c: the streaming decoder, its substreams and its bitmap of required fields. */
module PbDecode {
  import opened Wrappers
  import opened Bytes
  import opened Bits
  import opened Coding
  import opened PbCommon
  import opened PbWire
  import opened PbEncode
  import opened PbDecoding

  // --- Words of fields_seen ---

  /** `allbits >> (32 - n)`. */
  function LowOnes(n: nat): nat {
    if n == 0 then 0 else 2 * LowOnes(n - 1) + 1
  }

  lemma {:induction false} NoBits(w: nat)
    requires forall j: nat :: !Bit(w, j)
    ensures w == 0
  {
    assert !Bit(w, 0);
    if w != 0 {
      forall j: nat ensures !Bit(w / 2, j) {
        assert !Bit(w, j + 1);
      }
      NoBits(w / 2);
    }
  }

  lemma {:induction false} ZeroHasNoBits(j: nat)
    ensures !Bit(0, j)
  {
    if j > 0 {
      ZeroHasNoBits(j - 1);
    }
  }

  lemma {:induction false} LowOnesBits(n: nat, j: nat)
    ensures Bit(LowOnes(n), j) <==> j < n
  {
    if n == 0 {
      ZeroHasNoBits(j);
    } else if j > 0 {
      LowOnesBits(n - 1, j - 1);
    }
  }

  /** A word whose bits are exactly those below `n` is the mask. */
  lemma {:induction false} OnlyLowOnes(w: nat, n: nat)
    requires forall j: nat :: Bit(w, j) <==> j < n
    ensures w == LowOnes(n)
  {
    if n == 0 {
      NoBits(w);
    } else {
      assert Bit(w, 0);
      forall j: nat ensures Bit(w / 2, j) <==> j < n - 1 {
        assert Bit(w, j + 1) == Bit(w / 2, j);
      }
      OnlyLowOnes(w / 2, n - 1);
    }
  }

  /** Word `base / 32` of fields_seen records which indexes from `base` on were seen. */
  ghost predicate Records(w: nat, base: nat, seen: set<nat>) {
    forall j: nat :: Bit(w, j) <==> j < 32 && base + j in seen
  }

  lemma RecordsMore(w: nat, base: nat, seen: set<nat>, k: nat)
    requires Records(w, base, seen) && k < 32
    ensures Records(WithBit(w, k), base, seen + {base + k})
  {
    hide Bit, WithBit;
    forall j: nat ensures Bit(WithBit(w, k), j) <==> j < 32 && base + j in seen + {base + k} {
      WithBitBits(w, k, j);
    }
  }

  lemma RecordsOther(w: nat, base: nat, seen: set<nat>, index: nat)
    requires Records(w, base, seen) && !(base <= index < base + 32)
    ensures Records(w, base, seen + {index})
  {
    hide Bit;
  }

  lemma WordIsFull(w: nat, base: nat, seen: set<nat>, n: nat)
    requires Records(w, base, seen) && n <= 32
    requires forall i :: i in seen && i < base + 32 ==> i < base + n
    ensures w == LowOnes(n) <==> forall i :: base <= i < base + n ==> i in seen
  {
    hide Bit, LowOnes;
    if w == LowOnes(n) {
      forall i | base <= i < base + n ensures i in seen {
        LowOnesBits(n, i - base);
        assert Bit(w, i - base);
      }
    } else if forall i :: base <= i < base + n ==> i in seen {
      forall j: nat ensures Bit(w, j) <==> j < n {
        if j < n {
          assert base <= base + j < base + n;
        }
      }
      OnlyLowOnes(w, n);
    }
  }

  // --- Required fields ---

  /** Indexes of the required fields with these tags, of those that are tracked. */
  ghost predicate Tracks(fields: seq<Field>, tags: seq<nat>, seen: set<nat>)
    requires fields != []
  {
    && (forall i :: i in seen ==> i < MAX_REQUIRED && i < RequiredBefore(fields, |fields| - 1))
    && (forall i :: 0 <= i < |fields| - 1 && fields[i].htype.Required? && RequiredBefore(fields, i) < MAX_REQUIRED ==>
          (RequiredBefore(fields, i) in seen <==> fields[i].tag in tags))
  }

  lemma {:induction false} RequiredAscends(fields: seq<Field>, i: nat, j: nat)
    requires i < j <= |fields|
    ensures RequiredBefore(fields, i) + (if fields[i].htype.Required? then 1 else 0) <= RequiredBefore(fields, j)
  {
    if i < j - 1 {
      RequiredAscends(fields, i, j - 1);
    }
  }

  /** Every index below the number of required fields is that of one of them. */
  lemma {:induction false} RequiredIndexed(fields: seq<Field>, index: nat, n: nat) returns (i: nat)
    requires n <= |fields| && index < RequiredBefore(fields, n)
    ensures i < n && fields[i].htype.Required? && RequiredBefore(fields, i) == index
  {
    if index == RequiredBefore(fields, n - 1) {
      i := n - 1;
    } else {
      i := RequiredIndexed(fields, index, n - 1);
    }
  }

  lemma CompleteIsAllSeen(fields: seq<Field>, tags: seq<nat>, seen: set<nat>)
    requires Terminated(fields) && Tracks(fields, tags, seen)
    ensures Complete(fields, tags) <==>
            forall i :: 0 <= i < MAX_REQUIRED && i < RequiredBefore(fields, |fields| - 1) ==> i in seen
  {
    if Complete(fields, tags) {
      forall i | 0 <= i < MAX_REQUIRED && i < RequiredBefore(fields, |fields| - 1) ensures i in seen {
        var k := RequiredIndexed(fields, i, |fields| - 1);
      }
    } else {
      var i :| 0 <= i < |fields| - 1 && fields[i].htype.Required? && RequiredBefore(fields, i) < MAX_REQUIRED
               && fields[i].tag !in tags;
      RequiredAscends(fields, i, |fields| - 1);
      assert RequiredBefore(fields, i) !in seen;
    }
  }

  lemma TracksMore(fields: seq<Field>, tags: seq<nat>, seen: set<nat>, k: nat)
    requires Terminated(fields) && UniqueTags(fields) && Tracks(fields, tags, seen) && k < |fields| - 1
    ensures var index := RequiredBefore(fields, k);
            Tracks(fields, tags + [fields[k].tag],
                   if fields[k].htype.Required? && index < MAX_REQUIRED then seen + {index} else seen)
  {
    RequiredAscends(fields, k, |fields| - 1);
    forall i | 0 <= i < |fields| - 1 && fields[i].htype.Required? && i != k
      ensures RequiredBefore(fields, i) != RequiredBefore(fields, k) || !fields[k].htype.Required?
      ensures fields[i].tag != fields[k].tag
    {
      if i < k {
        RequiredAscends(fields, i, k);
      } else {
        RequiredAscends(fields, k, i);
      }
    }
  }

  lemma NothingSeen(fields: seq<Field>)
    requires fields != []
    ensures Tracks(fields, [], {}) && Records(0, 0, {}) && Records(0, 32, {})
  {
    hide Bit;
    forall j: nat ensures !Bit(0, j) {
      ZeroHasNoBits(j);
    }
  }

  lemma SeenOneMore(words: seq<nat>, seen: set<nat>, index: nat)
    requires |words| == 2 && Records(words[0], 0, seen) && Records(words[1], 32, seen) && index < 64
    ensures var next := words[index / 32 := WithBit(words[index / 32], index % 32)];
            Records(next[0], 0, seen + {index}) && Records(next[1], 32, seen + {index})
  {
    hide Records, WithBit;
    if index < 32 {
      RecordsMore(words[0], 0, seen, index);
      RecordsOther(words[1], 32, seen, index);
    } else {
      RecordsMore(words[1], 32, seen, index - 32);
      RecordsOther(words[0], 0, seen, index);
    }
  }

  /** The comparison of fields_seen with its masks: whole words first, then the remaining bits. */
  method AllSeen(words: seq<nat>, ghost seen: set<nat>, n: nat) returns (ok: bool)
    requires |words| == 2 && Records(words[0], 0, seen) && Records(words[1], 32, seen) && n <= 64
    requires forall i :: i in seen ==> i < n
    ensures ok <==> forall i :: 0 <= i < n ==> i in seen
  {
    hide Records, LowOnes;
    var i := 0;
    while i < n / 32
      invariant i <= n / 32
      invariant forall j :: 0 <= j < 32 * i ==> j in seen
    {
      WordIsFull(words[i], 32 * i, seen, 32);
      if words[i] != LowOnes(32) {
        return false;
      }
      i := i + 1;
    }
    if n % 32 != 0 {
      WordIsFull(words[n / 32], 32 * (n / 32), seen, n % 32);
      if words[n / 32] != LowOnes(n % 32) {
        return false;
      }
    }
    ok := true;
  }

  /** The number of required fields, found by going on to the end of the descriptor. */
  method CountRequired(iter: FieldIter) returns (n: nat)
    requires iter.Valid()
    modifies iter
    ensures n == RequiredBefore(iter.start, |iter.start| - 1)
  {
    hide PlaceOf;
    var last := Required;
    var more := true;
    n := 0;
    ghost var p: nat := iter.pos;
    while more
      invariant iter.Valid() && p < Circle(iter.start)
      invariant more ==> p == iter.pos
      invariant !more ==> iter.pos == 0 && p + 2 >= |iter.start| && last == iter.start[p].htype
      invariant !more ==> n == RequiredBefore(iter.start, p)
      decreases more, |iter.start| - p
    {
      RequiredIndexCounts(iter.start, p);
      n := iter.requiredFieldIndex;
      last := iter.start[iter.pos].htype;
      more := iter.Next();
      if more {
        p := p + 1;
      }
    }
    if last.Required? && iter.start[iter.pos].tag != 0 {
      n := n + 1;
    }
  }

  // --- One step of a run ---

  lemma RunUnfolds(fields: seq<Field>, s: Bytes, m: Struct, pos: nat)
    requires Terminated(fields) && UniqueTags(fields) && pos < Circle(fields)
    ensures var t := DecodeTag(s);
      && (t.Eof? ==> Run(fields, s, m) == Some(Ran(m, [])))
      && (t.Bad? ==> Run(fields, s, m) == None)
      && (t.Tag? && FindFrom(fields, pos, t.tag).None? ==>
            var rest := Skip(t.wireType, t.rest);
            Run(fields, s, m) == if rest.None? then None else Run(fields, rest.value, m))
      && (t.Tag? && FindFrom(fields, pos, t.tag).Some? ==>
            var i := FindFrom(fields, pos, t.tag).value;
            var at := PlaceOf(fields, i).data;
            var c := FieldRead(fields, fields[i], t.wireType, At(fields[i], m, at), t.rest);
            && Run(fields, s, m) ==
               (if c.Failed? then None else Preceded([t.tag], Run(fields, c.rest, m[at := c.value])))
            && (c.Got? ==> i < |fields| - 1 && fields[i].tag == t.tag))
  {
    hide DecodeTag, FindFrom, Skip, PlaceOf, FieldRead;
    var t := DecodeTag(s);
    if t.Tag? {
      FindAnywhere(fields, pos, t.tag);
      FoundHasTag(fields, pos, t.tag);
      if FindFrom(fields, pos, t.tag) == Some(|fields| - 1) {
        TerminatorFails(fields, t.wireType, At(LAST_FIELD, m, PlaceOf(fields, |fields| - 1).data), t.rest);
      }
    }
  }

  lemma NothingLeft()
    ensures DecodeTag([]) == Eof
  {
  }

  lemma FoundHasTag(fields: seq<Field>, pos: nat, tag: nat)
    requires fields != [] && pos < Circle(fields)
    ensures var i := FindFrom(fields, pos, tag); i.Some? ==> fields[i.value].tag == tag
  {
    hide Search;
  }

  /** In an empty message, tag 0 finds the terminator, which no datum can be decoded into. */
  lemma TerminatorFails(fields: seq<Field>, wireType: nat, c: Cell, s: Bytes)
    requires Holds(LAST_FIELD, c)
    ensures FieldRead(fields, LAST_FIELD, wireType, c, s) == Failed
  {
    hide UnVarint64;
    assert ValueRead(LAST_FIELD, c.v, s) == ScalarRead(LAST_FIELD, s) == Failed;
  }

  // --- Streams ---

  class InputStream {
    const buffer: Bytes
    var state: nat            // where reading goes on
    var bytesLeft: nat

    ghost predicate Valid()
      reads this
    {
      state + bytesLeft <= |buffer|
    }

    /** Where reading ends. */
    ghost function End(): nat
      reads this
    {
      state + bytesLeft
    }

    function Left(): (s: Bytes)
      requires Valid()
      reads this
      ensures |s| == bytesLeft
    {
      buffer[state..state + bytesLeft]
    }

    /** A step that should yield `want` from what was left yields it, or reports an error if there is none. */
    ghost predicate Took<T(!new)>(want: Got<T>, r: Option<T>)
      reads this
    {
      && Valid() && (r.Some? <==> want.Got?)
      && (r.Some? ==> r.value == want.value && Left() == want.rest)
    }

    ghost predicate Passed(want: Option<Bytes>, ok: bool)
      reads this
    {
      Valid() && (ok <==> want.Some?) && (ok ==> Left() == want.value)
    }

    constructor (buffer: Bytes)
      ensures Valid() && Left() == buffer && state == 0 && this.buffer == buffer
    {
      this.buffer, state, bytesLeft := buffer, 0, |buffer|;
    }

    constructor Sub(buffer: Bytes, state: nat, bytesLeft: nat)
      requires state + bytesLeft <= |buffer|
      ensures Valid() && this.buffer == buffer && this.state == state && this.bytesLeft == bytesLeft
    {
      this.buffer, this.state, this.bytesLeft := buffer, state, bytesLeft;
    }

    /** pb_read with no buffer. */
    method Drop(count: nat) returns (ok: bool)
      requires Valid()
      modifies this
      ensures End() == old(End())
      ensures Passed(Take(old(Left()), count), ok)
      ensures ok ==> state == old(state) + count && bytesLeft == old(bytesLeft) - count
    {
      if bytesLeft < count {
        return false;
      }
      state := state + count;
      bytesLeft := bytesLeft - count;
      ok := true;
    }

    method Read(count: nat) returns (r: Option<Bytes>)
      requires Valid()
      modifies this
      ensures End() == old(End())
      ensures Took(if count <= |old(Left())| then Got(old(Left())[..count], old(Left())[count..]) else Failed, r)
    {
      if bytesLeft < count {
        return None;
      }
      ghost var s := Left();
      assert s[..count] == buffer[state..state + count];
      r := Some(buffer[state..state + count]);
      state := state + count;
      bytesLeft := bytesLeft - count;
    }

    method ReadByte() returns (r: Option<byte>)
      requires Valid()
      modifies this
      ensures End() == old(End())
      ensures Took(if old(Left()) != [] then Got(old(Left())[0], old(Left())[1..]) else Failed, r)
      ensures r.Some? ==> bytesLeft == old(bytesLeft) - 1
    {
      if bytesLeft == 0 {
        return None;
      }
      r := Some(buffer[state]);
      state := state + 1;
      bytesLeft := bytesLeft - 1;
    }

    /** pb_decode_varint32_eof, where uint_fast8_t has 8 bits. */
    method DecodeVarint32() returns (r: Option<nat>, eof: bool)
      requires Valid()
      modifies this
      ensures End() == old(End())
      ensures Took(Un32(old(Left())), r) && (eof <==> old(Left()) == [])
    {
      hide OrShifted;
      ghost var s := Left();
      var b := ReadByte();
      if b.None? {
        return None, true;
      }
      eof := false;
      if b.value < 128 {
        return Some(b.value as nat), false;
      }
      var bitpos: nat, result: nat := 7, b.value as nat - 128;
      while true
        invariant End() == old(End())
        invariant Valid() && result < LIMIT32 && Un32(s) == More32(Left(), bitpos, result)
        decreases bytesLeft
      {
        b := ReadByte();
        if b.None? {
          return None, false;
        }
        var byte := b.value as nat;
        if bitpos >= 32 {
          var signExtension := if bitpos < 63 then 0xFF else 0x01;
          if byte % 128 != 0 && (result < 0x8000_0000 || byte != signExtension) {
            return None, false;
          }
        } else {
          result := OrShifted(result, byte % 128, bitpos);
        }
        bitpos := (bitpos + 7) % FAST8_VALUES;
        if byte < 128 {
          if bitpos == 35 && byte / 16 % 8 != 0 {
            return None, false;
          }
          return Some(result), false;
        }
      }
    }

    /** pb_decode_varint. */
    method DecodeVarint() returns (r: Option<nat>)
      requires Valid()
      modifies this
      ensures End() == old(End())
      ensures Took(UnVarint64(old(Left())), r)
    {
      hide UnVarint, Scaled, Shifted;
      ghost var s := Left();
      var bitpos: nat, power: nat, result: nat := 0, 1, 0;
      ghost var seen: nat, k: nat := 0, 0;
      ShiftedNothing(UnVarint(s, 10));
      while true
        invariant End() == old(End())
        invariant Valid() && k <= 10 && bitpos == 7 * k && result == seen % LIMIT64
        invariant UnVarint(s, 10) == Shifted(UnVarint(Left(), 10 - k), seen, power)
        decreases bytesLeft
      {
        if bitpos >= 64 {
          OutOfBytes(Left(), 10 - k, seen, power);
          return None;
        }
        ghost var left := Left();
        var b := ReadByte();
        if b.None? {
          OutOfBytes(left, 10 - k, seen, power);
          return None;
        }
        var byte := b.value as nat;
        UnVarintStep(left, 10 - k, seen, power);
        AddBits(seen, Scaled(byte % 128, power));
        result := (result + Scaled(byte % 128, power)) % LIMIT64;
        seen, k := seen + Scaled(byte % 128, power), k + 1;
        bitpos := bitpos + 7;
        power := power * 128;
        if byte < 128 {
          return Some(result);
        }
      }
    }

    lemma OutOfBytes(s: Bytes, max: nat, seen: nat, power: nat)
      requires max == 0 || s == []
      ensures Shifted(UnVarint(s, max), seen, power) == Failed
    {
    }

    lemma AddBits(a: nat, b: nat)
      ensures (a % LIMIT64 + b) % LIMIT64 == (a + b) % LIMIT64
    {
      ModAdd(a, b, true);
    }

    method SkipVarint() returns (ok: bool)
      requires Valid()
      modifies this
      ensures End() == old(End())
      ensures Passed(PbWire.SkipVarint(old(Left())), ok)
    {
      ghost var s := Left();
      while true
        invariant End() == old(End())
        invariant Valid() && PbWire.SkipVarint(s) == PbWire.SkipVarint(Left())
        decreases bytesLeft
      {
        var b := ReadByte();
        if b.None? {
          return false;
        }
        if b.value < 128 {
          return true;
        }
      }
    }

    method SkipString() returns (ok: bool)
      requires Valid()
      modifies this
      ensures End() == old(End())
      ensures Passed(PbWire.SkipString(old(Left())), ok)
    {
      hide Un32;
      var length, _ := DecodeVarint32();
      if length.None? {
        return false;
      }
      ok := Drop(length.value);
    }

    method SkipField(wireType: nat) returns (ok: bool)
      requires Valid()
      modifies this
      ensures End() == old(End())
      ensures Passed(Skip(wireType, old(Left())), ok)
    {
      hide PbWire.SkipVarint, PbWire.SkipString, Take;
      if wireType == WT_VARINT {
        ok := SkipVarint();
      } else if wireType == WT_64BIT {
        ok := Drop(8);
      } else if wireType == WT_STRING {
        ok := SkipString();
      } else if wireType == WT_32BIT {
        ok := Drop(4);
      } else {
        ok := false;
      }
    }

    /** pb_decode_tag; on failure the caller looks at `eof`. */
    method DecodeTag() returns (r: Option<(nat, nat)>, eof: bool)
      requires Valid()
      modifies this
      ensures End() == old(End())
      ensures Valid() && (eof <==> PbWire.DecodeTag(old(Left())).Eof?)
      ensures r.Some? <==> PbWire.DecodeTag(old(Left())).Tag?
      ensures r.Some? ==> PbWire.DecodeTag(old(Left())) == Tag(r.value.0, r.value.1, Left())
    {
      hide Un32;
      ghost var n := Un32(Left());
      var temp;
      temp, eof := DecodeVarint32();
      assert Took(n, temp);
      if temp.None? {
        return None, eof;
      }
      if temp.value == 0 {
        return None, true;
      }
      r := Some((temp.value % 8, temp.value / 8));
    }

    /** pb_make_string_substream: the substream shares the buffer, and the stream is `size` bytes shorter until it is
        closed. */
    method MakeSubstream() returns (r: Option<InputStream>)
      requires Valid()
      modifies this
      ensures Valid()
      ensures var n := Un32(old(Left()));
              r.Some? <==> n.Got? && n.value <= |n.rest|
      ensures var n := Un32(old(Left()));
              r.Some? ==> fresh(r.value) && r.value.Opened(this, n.rest, n.value) && r.value.Left() == n.rest[..n.value]
      ensures var n := Un32(old(Left()));
              r.Some? ==> state + |n.rest| == old(End())
    {
      hide Un32;
      ghost var n := Un32(Left());
      var size, _ := DecodeVarint32();
      assert Took(n, size);
      if size.None? || bytesLeft < size.value {
        return None;
      }
      var sub := new InputStream.Sub(buffer, state, size.value);
      bytesLeft := bytesLeft - size.value;
      r := Some(sub);
    }

    /** A substream over the first `size` bytes of `s`, the rest of which `parent` has left. */
    ghost predicate Opened(parent: InputStream, s: Bytes, size: nat)
      reads this, parent
    {
      && Valid() && buffer == parent.buffer && End() == parent.state + size
      && size <= |s| && parent.bytesLeft == |s| - size
      && parent.state + |s| <= |buffer| && s == buffer[parent.state..parent.state + |s|]
    }

    /** pb_close_string_substream: whatever the substream has left is skipped. */
    method CloseSubstream(sub: InputStream, ghost s: Bytes, ghost size: nat)
      requires sub != this && sub.Opened(this, s, size)
      modifies this, sub
      ensures Valid() && Left() == s[size..] && End() == old(state) + |s|
    {
      if sub.bytesLeft != 0 {
        var _ := sub.Drop(sub.bytesLeft);
      }
      state := sub.state;
    }

    // --- Values ---

    method DecodeScalar(f: Field) returns (r: Option<Value>)
      requires Valid() && !f.ltype.Submessage?
      modifies this
      ensures End() == old(End())
      ensures Took(ScalarRead(f, old(Left())), r)
    {
      hide UnVarint64, Un32, UpToNul, UnFixed, Signed;
      match f.ltype {
        case Varint =>
          var u := DecodeVarint();
          if u.None? || !IsWidth(f.dataSize) {
            return None;
          }
          var svalue := Signed(u.value, if f.dataSize == 8 then 8 else 4);
          var clamped := Signed(svalue, f.dataSize);
          r := if clamped != svalue then None else Some(Int(clamped));
        case Uvarint =>
          var u := DecodeVarint();
          if u.None? || !IsWidth(f.dataSize) {
            return None;
          }
          var clamped := u.value % Range(f.dataSize);
          ClampUnsigned(u.value, f.dataSize);
          r := if clamped != u.value then None else Some(Int(clamped));
        case Svarint =>
          var u := DecodeVarint();
          if u.None? || !IsWidth(f.dataSize) {
            return None;
          }
          var value := UnZigZag(u.value);
          var clamped := Signed(value, f.dataSize);
          r := if clamped != value then None else Some(Int(clamped));
        case Fixed32 =>
          var b := Read(4);
          r := if b.None? then None else Some(Int(UnFixed(b.value)));
        case Fixed64 =>
          var b := Read(8);
          r := if b.None? then None else Some(Int(UnFixed(b.value)));
        case BytesArray =>
          r := DecodeBytes(f);
        case CString =>
          var size, _ := DecodeVarint32();
          if size.None? || size.value + 1 > f.dataSize {
            return None;
          }
          var b := Read(size.value);
          r := if b.None? then None else Some(Text(UpToNul(b.value)));
        case FixedLengthBytes =>
          r := DecodeFixedLengthBytes(f);
        case Extension =>
          r := None;
      }
    }

    lemma ClampUnsigned(u: nat, size: nat)
      requires IsWidth(size)
      ensures Range(size) > 0 && (u % Range(size) == u <==> u < Range(size))
    {
    }

    method DecodeBytes(f: Field) returns (r: Option<Value>)
      requires Valid()
      modifies this
      ensures End() == old(End())
      ensures Took(BlobRead(f.dataSize, Un32(old(Left()))), r)
    {
      hide Un32;
      var size, _ := DecodeVarint32();
      if size.None? || size.value > PB_SIZE_MAX || size.value + BYTES_HEADER > f.dataSize {
        return None;
      }
      var b := Read(size.value);
      r := if b.None? then None else Some(Blob(b.value));
    }

    method DecodeFixedLengthBytes(f: Field) returns (r: Option<Value>)
      requires Valid()
      modifies this
      ensures End() == old(End())
      ensures Took(FixedBlobRead(f.dataSize, Un32(old(Left()))), r)
    {
      hide Un32;
      var size, _ := DecodeVarint32();
      if size.None? || size.value > PB_SIZE_MAX {
        return None;
      }
      if size.value == 0 {
        return Some(Blob(Zeros(f.dataSize)));
      }
      if size.value != f.dataSize {
        return None;
      }
      var b := Read(f.dataSize);
      r := if b.None? then None else Some(Blob(b.value));
    }

    method DecodeSubmessage(f: Field, previous: Value) returns (r: Option<Value>)
      requires Valid() && PlainField(f) && f.ltype.Submessage?
      modifies this
      ensures Took(ValueRead(f, previous, old(Left())), r)
      ensures r.Some? ==> End() == old(End())
      decreases f, 0
    {
      hide Un32, Merged, Decoded, Plain;
      ghost var n := Un32(Left());
      var sub := MakeSubstream();
      if sub.None? || !f.ptr.Fields? {
        return None;
      }
      var m;
      if f.htype.Repeated? || !previous.Sub? {
        m := sub.value.Decode(f.ptr.fields);
      } else {
        m := sub.value.DecodeNoinit(f.ptr.fields, previous.m);
      }
      if m.None? {
        return None;
      }
      CloseSubstream(sub.value, n.rest, n.value);
      r := Some(Value.Sub(m.value));
    }

    method DecodeValue(f: Field, previous: Value) returns (r: Option<Value>)
      requires Valid() && PlainField(f)
      modifies this
      ensures Took(ValueRead(f, previous, old(Left())), r)
      ensures r.Some? ==> End() == old(End())
      decreases f, 1
    {
      hide ScalarRead, Un32, PlainField;
      if f.ltype.Submessage? {
        r := DecodeSubmessage(f, previous);
      } else {
        r := DecodeScalar(f);
      }
    }

    /** A packed array comes as one string. */
    method DecodePacked(f: Field, items: seq<Value>) returns (r: Option<Cell>)
      requires Valid() && PlainField(f)
      modifies this
      ensures Took(PackedRead(f, items, old(Left())), r)
      ensures r.Some? ==> End() == old(End())
      decreases f, 3
    {
      hide Un32, ItemsRead, PlainField;
      ghost var n := Un32(Left());
      var sub := MakeSubstream();
      if sub.None? {
        return None;
      }
      var all := sub.value.DecodeItems(f, items);
      if all.None? {
        return None;
      }
      CloseSubstream(sub.value, n.rest, n.value);
      r := Some(Many(all.value));
    }

    /** The loop over a packed array, on its substream; what does not fit is an error. */
    method DecodeItems(f: Field, items: seq<Value>) returns (r: Option<seq<Value>>)
      requires Valid() && PlainField(f)
      modifies this
      ensures Valid() && r == ItemsRead(f, items, old(Left()))
      ensures r.Some? ==> End() == old(End())
      decreases f, 2
    {
      hide ValueRead, PlainField;
      var all := items;
      while bytesLeft > 0 && |all| < f.arraySize
        invariant Valid() && End() == old(End())
        invariant ItemsRead(f, items, old(Left())) == ItemsRead(f, all, Left())
        decreases bytesLeft
      {
        var v := DecodeValue(f, FreshValue(f));
        if v.None? {
          return None;
        }
        all := all + [v.value];
      }
      if bytesLeft != 0 {
        return None;
      }
      r := Some(all);
    }

    /** decode_field and decode_static_field, without the place the datum is written to. */
    method DecodeField(fields: seq<Field>, f: Field, wireType: nat, c: Cell) returns (r: Option<Cell>)
      requires Valid() && PlainField(f) && Holds(f, c)
      modifies this
      ensures Took(FieldRead(fields, f, wireType, c, old(Left())), r)
      ensures r.Some? ==> End() == old(End())
      decreases f, 4
    {
      hide ValueRead, PackedRead, PlainField, FindFrom;
      if f.htype.Repeated? && wireType == WT_STRING && Packable(f.ltype) {
        r := DecodePacked(f, c.items);
        return;
      }
      if f.htype.Repeated? && |c.items| >= f.arraySize {
        return None;
      }
      if f.htype.Oneof? && c.which != 0 && c.which != f.tag && !HasTag(fields, c.which) {
        return None;
      }
      var v := DecodeValue(f, if f.htype.Repeated? || f.htype.Oneof? then FreshValue(f) else c.v);
      r := if v.None? then None else Some(Updated(f, c, v.value));
    }

    // --- Messages ---

    /** From here, a run over what is left ends as the whole run does. */
    ghost predicate Reached(fields: seq<Field>, whole: Option<Ran>, m: Struct, tags: seq<nat>)
      reads this
    {
      Valid() && whole == Preceded(tags, Run(fields, Left(), m))
    }

    /** pb_decode_noinit. */
    method DecodeNoinit(fields: seq<Field>, previous: Struct) returns (r: Option<Struct>)
      requires Valid() && Plain(fields)
      modifies this
      ensures Valid() && r == Merged(fields, old(Left()), previous)
      ensures r.Some? ==> End() == old(End())
      decreases fields, 0
    {
      hide Run, Complete, PlaceOf, FindFrom, PbWire.DecodeTag, Skip, FieldRead, RequiredBefore, Records, Tracks,
           PlainField;
      ghost var s0, whole := Left(), Run(fields, Left(), previous);
      var iter := new FieldIter(fields);
      var m := previous;
      var fieldsSeen: seq<nat> := [0, 0];
      ghost var tags: seq<nat>, seen: set<nat>, ended := [], {}, false;
      NothingSeen(fields);
      NothingRead(whole);
      while bytesLeft != 0
        invariant Valid() && End() == old(End()) && iter.Valid() && iter.start == fields && fresh(iter)
        invariant Reached(fields, whole, m, tags)
        invariant |fieldsSeen| == 2 && Records(fieldsSeen[0], 0, seen) && Records(fieldsSeen[1], 32, seen)
        invariant Tracks(fields, tags, seen)
        decreases bytesLeft
      {
        ghost var s := Left();
        var t, eof := DecodeTag();
        RunUnfolds(fields, s, m, iter.pos);
        if t.None? {
          if !eof {
            return None;
          }
          ended := true;
          break;
        }
        var wireType, tag := t.value.0, t.value.1;
        var found := iter.Find(tag);
        if !found {
          var ok := SkipField(wireType);
          if !ok {
            return None;
          }
          continue;
        }
        var f := fields[iter.pos];
        ghost var k, before := iter.pos, seen;
        RequiredIndexCounts(fields, k);
        if f.htype.Required? && iter.requiredFieldIndex < MAX_REQUIRED {
          var index := iter.requiredFieldIndex;
          SeenOneMore(fieldsSeen, seen, index);
          fieldsSeen := fieldsSeen[index / 32 := WithBit(fieldsSeen[index / 32], index % 32)];
          seen := seen + {index};
        }
        var c := DecodeField(fields, f, wireType, At(f, m, iter.pData));
        if c.None? {
          return None;
        }
        m := m[iter.pData := c.value];
        PrecededTwice(tags, tag, Run(fields, Left(), m));
        TracksMore(fields, tags, before, k);
        tags := tags + [tag];
      }
      if !ended {
        RunUnfolds(fields, Left(), m, iter.pos);
        NothingLeft();
        assert Left() == [];
      }
      assert tags + [] == tags;
      assert whole == Some(Ran(m, tags));
      var count := CountRequired(iter);
      if count > MAX_REQUIRED {
        count := MAX_REQUIRED;
      }
      TrackedBelow(fields, tags, seen);
      CompleteIsAllSeen(fields, tags, seen);
      var complete := AllSeen(fieldsSeen, seen, count);
      r := if complete then Some(m) else None;
    }

    /** pb_decode. */
    method Decode(fields: seq<Field>) returns (r: Option<Struct>)
      requires Valid() && Plain(fields)
      modifies this
      ensures Valid() && r == Decoded(fields, old(Left()))
      ensures r.Some? ==> End() == old(End())
      decreases fields, 1
    {
      hide Merged, Fresh;
      var m := SetToDefaults(fields);
      r := DecodeNoinit(fields, m);
    }
  }

  lemma TrackedBelow(fields: seq<Field>, tags: seq<nat>, seen: set<nat>)
    requires fields != [] && Tracks(fields, tags, seen)
    ensures forall i :: i in seen ==> i < MAX_REQUIRED && i < RequiredBefore(fields, |fields| - 1)
  {
  }

  /** pb_message_set_to_defaults; the members of a union share one place. */
  method SetToDefaults(fields: seq<Field>) returns (m: Struct)
    requires Terminated(fields)
    ensures m == Fresh(fields)
  {
    hide PlaceOf, FreshCell;
    var iter := new FieldIter(fields);
    var more := iter.Begin();
    m := map[];
    ghost var k := 0;
    while more
      invariant iter.Valid() && iter.start == fields && k <= |fields| - 1
      invariant if more then k == iter.pos < |fields| - 1 else k == |fields| - 1
      invariant m == FreshTo(fields, k)
      decreases |fields| - k
    {
      m := m[iter.pData := FreshCell(fields[iter.pos])];
      more := iter.Next();
      k := k + 1;
    }
  }
}
