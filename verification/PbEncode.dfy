/** nanopb/pb_encode.c: from a struct and its descriptor to bytes, with submessages encoded twice: first counted, then
    written.
    Covers fields of static allocation with explicit presence. */
module PbEncode {
  import opened Wrappers
  import opened Bytes
  import Coding
  import opened PbCommon
  import opened PbWire

  /** offsetof(pb_bytes_array_t, bytes). */
  const BYTES_HEADER: nat := 4

  /** Unique tags, and static fields with a `has_`, `_count` or `which_` member unless required, at every depth;
      no extensions. */
  predicate Plain(fields: seq<Field>) {
    Terminated(fields) && UniqueTags(fields) && forall i :: 0 <= i < |fields| ==> PlainField(fields[i])
  }

  predicate PlainField(f: Field) {
    && f.atype.Static? && !f.ltype.Extension? && (f.htype.Required? <==> f.sizeOffset == 0)
    && (f.ptr.Fields? ==> Plain(f.ptr.fields))
  }

  // --- What an encoding is ---

  function WireType(l: LType): Option<nat> {
    match l
    case Varint => Some(WT_VARINT)
    case Uvarint => Some(WT_VARINT)
    case Svarint => Some(WT_VARINT)
    case Fixed32 => Some(WT_32BIT)
    case Fixed64 => Some(WT_64BIT)
    case Extension => None
    case _ => Some(WT_STRING)
  }

  predicate Packable(l: LType) {
    l.Varint? || l.Uvarint? || l.Svarint? || l.Fixed32? || l.Fixed64?
  }

  function Append(a: Option<Bytes>, b: Option<Bytes>): Option<Bytes> {
    if a.Some? && b.Some? then Some(a.value + b.value) else None
  }

  function TagFor(f: Field): Option<Bytes> {
    match WireType(f.ltype)
    case None => None
    case Some(w) => Some(TagBytes(w, f.tag))
  }

  /** The bits of a fixed-size number, whatever its type. */
  function Raw(v: Value): nat {
    if v.Int? && v.n >= 0 then v.n else 0
  }

  /** The bytes of a datum other than a submessage; None if the encoder reports an error or the memory does not hold
      a datum of this type. */
  function ScalarBytes(f: Field, v: Value): Option<Bytes> {
    match f.ltype
    case Varint => if v.Int? && IsWidth(f.dataSize) then Some(Coding.Varint(Unsigned64(v.n))) else None
    case Uvarint => if v.Int? && v.n >= 0 && IsWidth(f.dataSize) then Some(Coding.Varint(v.n)) else None
    case Svarint => if v.Int? && IsWidth(f.dataSize) then Some(Coding.Varint(ZigZag(v.n))) else None
    case Fixed32 => Some(Coding.Fixed(Raw(v), 4))
    case Fixed64 => Some(Coding.Fixed(Raw(v), 8))
    case BytesArray => if v.Blob? && BYTES_HEADER + |v.b| <= f.dataSize then Some(Coding.Prefixed(v.b)) else None
    case CString => if v.Text? then Some(Coding.Prefixed(v.s)) else None
    case FixedLengthBytes => if v.Blob? && |v.b| == f.dataSize then Some(Coding.Prefixed(v.b)) else None
    case _ => None
  }

  function ValueBytes(f: Field, v: Value): Option<Bytes>
    decreases f, 0
  {
    if !f.ltype.Submessage? then ScalarBytes(f, v)
    else if f.ptr.Fields? && v.Sub? then
      var b := MessageBytes(f.ptr.fields, v.m);
      if b.Some? then Some(Coding.Prefixed(b.value)) else None
    else None
  }

  /** The items of an array: packed, or each with the tag. */
  function ItemsBytes(f: Field, items: seq<Value>, tagged: bool): Option<Bytes>
    decreases f, 2, |items|
  {
    if items == [] then Some([])
    else Append(ItemsBytes(f, items[..|items| - 1], tagged), ItemBytes(f, items[|items| - 1], tagged))
  }

  function ItemBytes(f: Field, v: Value, tagged: bool): Option<Bytes>
    decreases f, 1
  {
    if tagged then Append(TagFor(f), ValueBytes(f, v)) else ValueBytes(f, v)
  }

  function ArrayBytes(f: Field, items: seq<Value>): Option<Bytes>
    decreases f, 3
  {
    if items == [] then Some([])
    else if |items| > f.arraySize then None
    else if Packable(f.ltype) then
      var b := ItemsBytes(f, items, false);
      if b.Some? then Some(TagBytes(WT_STRING, f.tag) + Coding.Prefixed(b.value)) else None
    else ItemsBytes(f, items, true)
  }

  predicate Holds(f: Field, c: Cell) {
    match f.htype
    case Required => c.One?
    case Optional => c.Maybe?
    case Repeated => c.Many?
    case Oneof => c.Union?
  }

  function FieldBytes(f: Field, c: Cell): Option<Bytes>
    requires Holds(f, c)
    decreases f, 4
  {
    match f.htype
    case Required => Append(TagFor(f), ValueBytes(f, c.v))
    case Optional => if c.has then Append(TagFor(f), ValueBytes(f, c.v)) else Some([])
    case Repeated => ArrayBytes(f, c.items)
    case Oneof => if c.which == f.tag then Append(TagFor(f), ValueBytes(f, c.v)) else Some([])
  }

  /** The bytes of field `k` of a struct. */
  function BytesAt(fields: seq<Field>, m: Struct, k: nat): Option<Bytes>
    requires k < |fields|
    decreases fields, 0
  {
    var at := PlaceOf(fields, k).data;
    if at in m && Holds(fields[k], m[at]) then FieldBytes(fields[k], m[at]) else None
  }

  /** The bytes of the fields before field `k`. */
  function FieldsBytes(fields: seq<Field>, m: Struct, k: nat): Option<Bytes>
    requires k <= |fields|
    decreases fields, 1, k
  {
    if k == 0 then Some([]) else Append(FieldsBytes(fields, m, k - 1), BytesAt(fields, m, k - 1))
  }

  function MessageBytes(fields: seq<Field>, m: Struct): Option<Bytes>
    decreases fields, 2
  {
    if fields == [] then None else FieldsBytes(fields, m, |fields| - 1)
  }

  lemma {:induction false} FixedItemsSize(f: Field, items: seq<Value>)
    requires f.ltype.Fixed32? || f.ltype.Fixed64?
    ensures ItemsBytes(f, items, false).Some?
    ensures |ItemsBytes(f, items, false).value| == if f.ltype.Fixed32? then 4 * |items| else 8 * |items|
  {
    if items != [] {
      FixedItemsSize(f, items[..|items| - 1]);
      assert ValueBytes(f, items[|items| - 1]) == ScalarBytes(f, items[|items| - 1]);
    }
  }

  // --- Streams ---

  datatype Error =
    StreamFull | ArrayTooLong | InvalidType | InvalidSize | BytesTooLong | InvalidDescriptor | SizeChanged

  /** From `w0` bytes written and `s0` in the sink, `b` was written if it exists and fits: a stream without a callback
      counts and never fills. */
  ghost predicate Done(limit: Option<nat>, w0: nat, s0: Bytes, w: nat, s: Bytes, b: Option<Bytes>, ok: bool) {
    && (ok <==> b.Some? && (limit.Some? ==> w0 + |b.value| <= limit.value))
    && (ok ==> w == w0 + |b.value| && s == if limit.Some? then s0 + b.value else s0)
  }

  lemma DoneNothing(limit: Option<nat>, w: nat, s: Bytes)
    requires limit.Some? ==> w <= limit.value
    ensures Done(limit, w, s, w, s, Some([]), true)
  {
    assert s + [] == s;
  }

  lemma DoneBoth(limit: Option<nat>, w0: nat, s0: Bytes, w1: nat, s1: Bytes, w2: nat, s2: Bytes, a: Option<Bytes>,
                 b: Option<Bytes>, ok: bool)
    requires Done(limit, w0, s0, w1, s1, a, true) && Done(limit, w1, s1, w2, s2, b, ok)
    ensures Done(limit, w0, s0, w2, s2, Append(a, b), ok)
  {
    if ok && limit.Some? {
      assert s0 + (a.value + b.value) == (s0 + a.value) + b.value;
    }
  }

  lemma DoneStops(limit: Option<nat>, w0: nat, s0: Bytes, w: nat, s: Bytes, a: Option<Bytes>, b: Option<Bytes>)
    requires Done(limit, w0, s0, w, s, a, false)
    ensures Done(limit, w0, s0, w, s, Append(a, b), false)
  {
  }

  class OutputStream {
    const limit: Option<nat>      // max_size; None stands for a NULL callback, the sizing stream
    var written: nat              // bytes_written
    var sink: Bytes               // what the callback has stored
    var error: Option<Error>      // errmsg

    /** Nothing has been written beyond the limit, and no submessage has changed its size. */
    ghost predicate Valid()
      reads this
    {
      (limit.Some? ==> written <= limit.value) && error != Some(SizeChanged)
    }

    constructor Sizing()
      ensures Valid() && limit == None && written == 0 && sink == []
    {
      limit, written, sink, error := None, 0, [], None;
    }

    constructor Limited(maxSize: nat, sink: Bytes)
      ensures Valid() && limit == Some(maxSize) && written == 0 && this.sink == sink
    {
      limit, written, error := Some(maxSize), 0, None;
      this.sink := sink;
    }

    method Fail(e: Error) returns (ok: bool)
      requires Valid() && !e.SizeChanged?
      modifies this`error
      ensures Valid() && !ok
    {
      error := if error.None? then Some(e) else error;
      ok := false;
    }

    method Write(buf: Bytes) returns (ok: bool)
      requires Valid()
      modifies this
      ensures Valid() && Done(limit, old(written), old(sink), written, sink, Some(buf), ok)
    {
      if limit.Some? {
        if written + |buf| > limit.value {
          ok := Fail(StreamFull);
          return;
        }
        sink := sink + buf;
      }
      written := written + |buf|;
      ok := true;
    }

    /** pb_write with no buffer, on a sizing stream. */
    method Count(size: nat, ghost buf: Bytes) returns (ok: bool)
      requires Valid() && limit.None? && size == |buf|
      modifies this
      ensures Valid() && Done(limit, old(written), old(sink), written, sink, Some(buf), ok)
    {
      written := written + size;
      ok := true;
    }

    method EncodeVarint(v: nat) returns (ok: bool)
      requires Valid()
      modifies this
      ensures Valid() && Done(limit, old(written), old(sink), written, sink, Some(Coding.Varint(v)), ok)
    {
      hide Done;
      if v <= 0x7F {
        ok := Write([v as byte]);
        return;
      }
      var buffer, left: nat := [], v;
      while left != 0
        invariant Valid() && written == old(written) && sink == old(sink)
        invariant left != 0 ==> Coding.Varint(v) == buffer + Coding.Varint(left)
        invariant left == 0 ==> buffer != [] && buffer[|buffer| - 1] >= 128
        invariant left == 0 ==> Coding.Varint(v) == buffer[..|buffer| - 1] + [buffer[|buffer| - 1] - 128]
      {
        Coding.VarintStep(left, left / 128);
        buffer := buffer + [(left % 128 + 128) as byte];
        left := left / 128;
      }
      buffer := buffer[..|buffer| - 1] + [buffer[|buffer| - 1] - 128];
      ok := Write(buffer);
    }

    method EncodeTag(wireType: nat, tag: nat) returns (ok: bool)
      requires Valid()
      modifies this
      ensures Valid() && Done(limit, old(written), old(sink), written, sink, Some(TagBytes(wireType, tag)), ok)
    {
      hide Done;
      ok := EncodeVarint(8 * tag + wireType);
    }

    method EncodeTagForField(f: Field) returns (ok: bool)
      requires Valid()
      modifies this
      ensures Valid() && Done(limit, old(written), old(sink), written, sink, TagFor(f), ok)
    {
      hide TagBytes;
      match WireType(f.ltype)
      case None => ok := Fail(InvalidType);
      case Some(w) => ok := EncodeTag(w, f.tag);
    }

    method EncodeString(buffer: Bytes) returns (ok: bool)
      requires Valid()
      modifies this
      ensures Valid() && Done(limit, old(written), old(sink), written, sink, Some(Coding.Prefixed(buffer)), ok)
    {
      hide Done, Coding.Varint;
      ghost var w0, s0 := written, sink;
      ok := EncodeVarint(|buffer|);
      ghost var w1, s1 := written, sink;
      if !ok {
        DoneStops(limit, w0, s0, w1, s1, Some(Coding.Varint(|buffer|)), Some(buffer));
        return;
      }
      ok := Write(buffer);
      DoneBoth(limit, w0, s0, w1, s1, written, sink, Some(Coding.Varint(|buffer|)), Some(buffer), ok);
    }

    /** The field encoders other than pb_enc_submessage. */
    method EncodeScalar(f: Field, v: Value) returns (ok: bool)
      requires Valid() && !f.ltype.Submessage?
      modifies this
      ensures Valid() && Done(limit, old(written), old(sink), written, sink, ScalarBytes(f, v), ok)
    {
      hide Coding.Varint, Coding.Fixed, Coding.Prefixed, Unsigned64, ZigZag;
      match f.ltype {
        case Varint =>
          if !v.Int? || !IsWidth(f.dataSize) {
            ok := Fail(InvalidSize);
          } else {
            ok := EncodeVarint(Unsigned64(v.n));
          }
        case Uvarint =>
          if !v.Int? || v.n < 0 || !IsWidth(f.dataSize) {
            ok := Fail(InvalidSize);
          } else {
            ok := EncodeVarint(v.n);
          }
        case Svarint =>
          if !v.Int? || !IsWidth(f.dataSize) {
            ok := Fail(InvalidSize);
          } else {
            ok := EncodeVarint(ZigZag(v.n));
          }
        case Fixed32 =>
          ok := Write(Coding.Fixed(Raw(v), 4));
        case Fixed64 =>
          ok := Write(Coding.Fixed(Raw(v), 8));
        case BytesArray =>
          if !v.Blob? || BYTES_HEADER + |v.b| > f.dataSize {
            ok := Fail(BytesTooLong);
          } else {
            ok := EncodeString(v.b);
          }
        case CString =>
          if v.Text? {
            ok := EncodeString(v.s);
          } else {
            ok := Fail(InvalidType);
          }
        case FixedLengthBytes =>
          if v.Blob? && |v.b| == f.dataSize {
            ok := EncodeString(v.b);
          } else {
            ok := Fail(InvalidType);
          }
        case Extension =>
          ok := Fail(InvalidType);
      }
    }

    method EncodeValue(f: Field, v: Value) returns (ok: bool)
      requires Valid() && PlainField(f)
      modifies this
      ensures Valid() && Done(limit, old(written), old(sink), written, sink, ValueBytes(f, v), ok)
      decreases f, 0
    {
      hide ScalarBytes, MessageBytes, Coding.Prefixed, Plain;
      if !f.ltype.Submessage? {
        ok := EncodeScalar(f, v);
      } else if !f.ptr.Fields? || !v.Sub? {
        ok := Fail(InvalidDescriptor);
      } else {
        ok := EncodeSubmessage(f.ptr.fields, v.m);
      }
    }

    /** Counts the submessage on a sizing stream, then writes it to a stream limited to that size; the two passes agree,
        so the error SizeChanged never happens. */
    method EncodeSubmessage(fields: seq<Field>, m: Struct) returns (ok: bool)
      requires Valid() && Plain(fields)
      modifies this
      ensures Valid()
      ensures var b := MessageBytes(fields, m);
              Done(limit, old(written), old(sink), written, sink,
                   if b.Some? then Some(Coding.Prefixed(b.value)) else None, ok)
      decreases fields, 3
    {
      hide MessageBytes, Coding.Varint, Plain;
      var sizer := new OutputStream.Sizing();
      ok := sizer.Encode(fields, m);
      if !ok {
        error := sizer.error;
        return;
      }
      ghost var b := MessageBytes(fields, m).value;
      var size := sizer.written;
      assert size == |b|;
      ghost var w0, s0 := written, sink;
      ok := EncodeVarint(size);
      ghost var w1, s1 := written, sink;
      if !ok {
        return;
      }
      if limit.None? {
        ok := Count(size, b);
        return;
      }
      if written + size > limit.value {
        ok := Fail(StreamFull);
        return;
      }
      var sub := new OutputStream.Limited(size, sink);
      var status := sub.Encode(fields, m);
      written := written + sub.written;
      sink := sub.sink;
      error := sub.error;
      if sub.written != size {
        // Here the source reports "submsg size changed".
        assert false;
      }
      assert s0 + (Coding.Varint(|b|) + b) == (s0 + Coding.Varint(|b|)) + b;
      ok := status;
    }

    method EncodeTagAndValue(f: Field, v: Value) returns (ok: bool)
      requires Valid() && PlainField(f)
      modifies this
      ensures Valid() && Done(limit, old(written), old(sink), written, sink, Append(TagFor(f), ValueBytes(f, v)), ok)
      decreases f, 1
    {
      hide Done, Append, TagFor, ValueBytes, PlainField;
      ghost var w0, s0 := written, sink;
      ok := EncodeTagForField(f);
      ghost var w1, s1 := written, sink;
      if !ok {
        DoneStops(limit, w0, s0, w1, s1, TagFor(f), ValueBytes(f, v));
        return;
      }
      ok := EncodeValue(f, v);
      DoneBoth(limit, w0, s0, w1, s1, written, sink, TagFor(f), ValueBytes(f, v), ok);
    }

    /** The loops over the items of an array, on the stream itself and on a sizing stream. */
    method EncodeItems(f: Field, items: seq<Value>, tagged: bool) returns (ok: bool)
      requires Valid() && PlainField(f)
      modifies this
      ensures Valid() && Done(limit, old(written), old(sink), written, sink, ItemsBytes(f, items, tagged), ok)
      decreases f, 2
    {
      hide Done, Append, ValueBytes, PlainField, TagFor;
      ghost var w0, s0 := written, sink;
      DoneNothing(limit, w0, s0);
      var i := 0;
      while i < |items|
        invariant i <= |items| && Valid()
        invariant Done(limit, w0, s0, written, sink, ItemsBytes(f, items[..i], tagged), true)
      {
        ghost var w1, s1 := written, sink;
        if tagged {
          ok := EncodeTagAndValue(f, items[i]);
        } else {
          ok := EncodeValue(f, items[i]);
        }
        if !ok {
          StopsWithin(f, items, i, tagged, w0, s0, w1, s1);
          return;
        }
        assert items[..i + 1][..i] == items[..i];
        DoneBoth(limit, w0, s0, w1, s1, written, sink, ItemsBytes(f, items[..i], tagged),
                 ItemBytes(f, items[i], tagged), true);
        i := i + 1;
      }
      assert items[..i] == items;
      ok := true;
    }

    lemma {:induction false} PrefixFails(f: Field, items: seq<Value>, i: nat, tagged: bool, w0: nat, s0: Bytes, w: nat,
                                         s: Bytes)
      requires i <= |items| && Done(limit, w0, s0, w, s, ItemsBytes(f, items[..i], tagged), false)
      ensures Done(limit, w0, s0, w, s, ItemsBytes(f, items, tagged), false)
      decreases |items|
    {
      hide Done, Append, ItemBytes;
      if i == |items| {
        assert items[..i] == items;
      } else {
        var front := items[..|items| - 1];
        assert front[..i] == items[..i];
        PrefixFails(f, front, i, tagged, w0, s0, w, s);
        DoneStops(limit, w0, s0, w, s, ItemsBytes(f, front, tagged), ItemBytes(f, items[|items| - 1], tagged));
      }
    }

    lemma StopsWithin(f: Field, items: seq<Value>, i: nat, tagged: bool, w0: nat, s0: Bytes, w1: nat, s1: Bytes)
      requires i < |items| && Done(limit, w0, s0, w1, s1, ItemsBytes(f, items[..i], tagged), true)
      requires Done(limit, w1, s1, written, sink, ItemBytes(f, items[i], tagged), false)
      ensures Done(limit, w0, s0, written, sink, ItemsBytes(f, items, tagged), false)
    {
      hide Done, Append, ItemBytes;
      DoneBoth(limit, w0, s0, w1, s1, written, sink, ItemsBytes(f, items[..i], tagged), ItemBytes(f, items[i], tagged),
               false);
      assert items[..i + 1][..i] == items[..i];
      PrefixFails(f, items, i + 1, tagged, w0, s0, written, sink);
    }

    /** The length of a packed array is computed for fixed-size items and found on a sizing stream for the others. */
    method EncodePacked(f: Field, items: seq<Value>) returns (ok: bool)
      requires Valid() && PlainField(f) && Packable(f.ltype) && items != []
      modifies this
      ensures Valid()
      ensures var b := ItemsBytes(f, items, false);
              Done(limit, old(written), old(sink), written, sink,
                   if b.Some? then Some(TagBytes(WT_STRING, f.tag) + Coding.Prefixed(b.value)) else None, ok)
      decreases f, 4
    {
      hide Done, ItemsBytes, TagBytes, PlainField;
      ghost var b := ItemsBytes(f, items, false);
      ghost var w0, s0 := written, sink;
      ok := EncodeTag(WT_STRING, f.tag);
      ghost var w1, s1 := written, sink;
      if !ok {
        DoneStops(limit, w0, s0, w1, s1, Some(TagBytes(WT_STRING, f.tag)), PrefixedOf(b));
        return;
      }
      var size;
      if f.ltype.Fixed32? {
        size := 4 * |items|;
      } else if f.ltype.Fixed64? {
        size := 8 * |items|;
      } else {
        var sizer := new OutputStream.Sizing();
        ok := sizer.EncodeItems(f, items, false);
        CountedAll(sizer, b, ok);
        if !ok {
          NoneFails(w0, s0);
          return;
        }
        size := sizer.written;
      }
      SizeIsExact(f, items);
      ok := EncodePackedBody(f, items, size);
      DoneBoth(limit, w0, s0, w1, s1, written, sink, Some(TagBytes(WT_STRING, f.tag)), PrefixedOf(b), ok);
    }

    static ghost function PrefixedOf(b: Option<Bytes>): Option<Bytes> {
      if b.Some? then Some(Coding.Prefixed(b.value)) else None
    }

    lemma NoneFails(w0: nat, s0: Bytes)
      ensures Done(limit, w0, s0, written, sink, None, false)
    {
    }

    lemma CountedAll(sizer: OutputStream, b: Option<Bytes>, ok: bool)
      requires Done(None, 0, [], sizer.written, sizer.sink, b, ok)
      ensures ok <==> b.Some?
      ensures ok ==> sizer.written == |b.value|
    {
    }

    lemma SizeIsExact(f: Field, items: seq<Value>)
      ensures f.ltype.Fixed32? || f.ltype.Fixed64? ==> ItemsBytes(f, items, false).Some?
      ensures f.ltype.Fixed32? ==> |ItemsBytes(f, items, false).value| == 4 * |items|
      ensures f.ltype.Fixed64? ==> |ItemsBytes(f, items, false).value| == 8 * |items|
    {
      hide ItemsBytes;
      if f.ltype.Fixed32? || f.ltype.Fixed64? {
        FixedItemsSize(f, items);
      }
    }

    method EncodePackedBody(f: Field, items: seq<Value>, size: nat) returns (ok: bool)
      requires Valid() && PlainField(f)
      requires var b := ItemsBytes(f, items, false); b.Some? ==> size == |b.value|
      requires limit.None? ==> ItemsBytes(f, items, false).Some?
      modifies this
      ensures Valid()
      ensures Done(limit, old(written), old(sink), written, sink, PrefixedOf(ItemsBytes(f, items, false)), ok)
      decreases f, 3
    {
      hide Done, ItemsBytes, Coding.Varint, PlainField;
      ghost var b := ItemsBytes(f, items, false);
      ghost var w0, s0 := written, sink;
      ok := EncodeVarint(size);
      ghost var w1, s1 := written, sink;
      if !ok {
        DoneStops(limit, w0, s0, w1, s1, Some(Coding.Varint(size)), b);
        return;
      }
      if limit.None? {
        ok := Count(size, b.value);
      } else {
        ok := EncodeItems(f, items, false);
      }
      DoneBoth(limit, w0, s0, w1, s1, written, sink, Some(Coding.Varint(size)), b, ok);
    }

    method EncodeArray(f: Field, items: seq<Value>) returns (ok: bool)
      requires Valid() && PlainField(f)
      modifies this
      ensures Valid() && Done(limit, old(written), old(sink), written, sink, ArrayBytes(f, items), ok)
      decreases f, 5
    {
      hide Done, ItemsBytes, PlainField;
      if |items| == 0 {
        DoneNothing(limit, written, sink);
        return true;
      }
      if |items| > f.arraySize {
        ok := Fail(ArrayTooLong);
        NoneFails(old(written), old(sink));
        return;
      }
      if Packable(f.ltype) {
        ok := EncodePacked(f, items);
      } else {
        ok := EncodeItems(f, items, true);
      }
    }

    method EncodeField(f: Field, c: Cell) returns (ok: bool)
      requires Valid() && PlainField(f) && Holds(f, c)
      modifies this
      ensures Valid() && Done(limit, old(written), old(sink), written, sink, FieldBytes(f, c), ok)
      decreases f, 6
    {
      hide Done, TagFor, ValueBytes, ArrayBytes, Append, PlainField;
      DoneNothing(limit, written, sink);
      match f.htype {
        case Required =>
          ok := EncodeTagAndValue(f, c.v);
        case Optional =>
          if c.has {
            ok := EncodeTagAndValue(f, c.v);
          } else {
            ok := true;
          }
        case Repeated =>
          ok := EncodeArray(f, c.items);
        case Oneof =>
          if c.which == f.tag {
            ok := EncodeTagAndValue(f, c.v);
          } else {
            ok := true;
          }
      }
    }

    lemma {:induction false} FieldFails(fields: seq<Field>, m: Struct, k: nat, n: nat, w0: nat, s0: Bytes)
      requires k <= n <= |fields| && Done(limit, w0, s0, written, sink, FieldsBytes(fields, m, k), false)
      ensures Done(limit, w0, s0, written, sink, FieldsBytes(fields, m, n), false)
      decreases n
    {
      hide Done, Append, BytesAt;
      if k < n {
        FieldFails(fields, m, k, n - 1, w0, s0);
        DoneStops(limit, w0, s0, written, sink, FieldsBytes(fields, m, n - 1), BytesAt(fields, m, n - 1));
      }
    }

    lemma FieldDone(fields: seq<Field>, m: Struct, k: nat, w0: nat, s0: Bytes, w1: nat, s1: Bytes, ok: bool)
      requires k + 1 < |fields| && Done(limit, w0, s0, w1, s1, FieldsBytes(fields, m, k), true)
      requires Done(limit, w1, s1, written, sink, BytesAt(fields, m, k), ok)
      ensures ok ==> Done(limit, w0, s0, written, sink, FieldsBytes(fields, m, k + 1), ok)
      ensures !ok ==> Done(limit, w0, s0, written, sink, MessageBytes(fields, m), false)
    {
      hide Done, Append, BytesAt;
      DoneBoth(limit, w0, s0, w1, s1, written, sink, FieldsBytes(fields, m, k), BytesAt(fields, m, k), ok);
      if !ok {
        FieldFails(fields, m, k + 1, |fields| - 1, w0, s0);
      }
    }

    /** pb_encode. */
    method Encode(fields: seq<Field>, m: Struct) returns (ok: bool)
      requires Valid() && Plain(fields)
      modifies this
      ensures Valid() && Done(limit, old(written), old(sink), written, sink, MessageBytes(fields, m), ok)
      decreases fields, 2
    {
      hide Done, PlaceOf, FieldBytes, Append;
      ghost var w0, s0 := written, sink;
      DoneNothing(limit, w0, s0);
      var iter := new FieldIter(fields);
      var more := iter.Begin();
      ghost var k := 0;
      while more
        invariant Valid() && iter.Valid() && iter.start == fields && fresh(iter)
        invariant k <= |fields| - 1
        invariant if more then k == iter.pos < |fields| - 1 else k == |fields| - 1
        invariant Done(limit, w0, s0, written, sink, FieldsBytes(fields, m, k), true)
        decreases |fields| - k
      {
        ghost var w1, s1 := written, sink;
        var f := fields[iter.pos];
        if iter.pData in m && Holds(f, m[iter.pData]) {
          ok := EncodeField(f, m[iter.pData]);
        } else {
          ok := Fail(InvalidType);
          NoneFails(w1, s1);
        }
        FieldDone(fields, m, k, w0, s0, w1, s1, ok);
        if !ok {
          return;
        }
        more := iter.Next();
        k := k + 1;
      }
      ok := true;
    }

    /** pb_get_encoded_size: the size is that of the bytes a real pass writes. */
    static method GetEncodedSize(fields: seq<Field>, m: Struct) returns (size: Option<nat>)
      requires Plain(fields)
      ensures var b := MessageBytes(fields, m); size == if b.Some? then Some(|b.value|) else None
    {
      hide MessageBytes, Plain;
      var stream := new OutputStream.Sizing();
      var ok := stream.Encode(fields, m);
      size := if ok then Some(stream.written) else None;
    }
  }
}
