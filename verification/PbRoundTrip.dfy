/** Decoding what was encoded restores every present field of a message, at every depth. */
module PbRoundTrip {
  import opened Wrappers
  import opened Bytes
  import opened Coding
  import opened PbCommon
  import opened PbWire
  import opened PbEncode
  import opened PbDecoding

  // --- Which descriptors and which values ---

  /** Only members of a union share a place in the struct. */
  ghost predicate Apart(fields: seq<Field>) {
    forall i, j :: 0 <= i < j < |fields| - 1 && PlaceOf(fields, i).data == PlaceOf(fields, j).data ==>
      fields[i].htype.Oneof? && fields[j].htype.Oneof?
  }

  /** Tags of at most 29 bits and separate places, at every depth. */
  ghost predicate Sound(fields: seq<Field>) {
    Plain(fields) && Apart(fields) && forall i :: 0 <= i < |fields| - 1 ==> SoundField(fields[i])
  }

  ghost predicate SoundField(f: Field) {
    f.tag < 0x2000_0000 && (f.ptr.Fields? ==> Sound(f.ptr.fields))
  }

  /** A number within its integer's width, bytes that fit their array, a string with room for its terminator. */
  ghost predicate Fits(f: Field, v: Value)
    decreases f, 0
  {
    match f.ltype
    case Varint => v.Int? && IsWidth(f.dataSize) && InSigned(v.n, f.dataSize)
    case Uvarint => v.Int? && IsWidth(f.dataSize) && 0 <= v.n < Range(f.dataSize)
    case Svarint => v.Int? && IsWidth(f.dataSize) && InSigned(v.n, f.dataSize)
    case Fixed32 => v.Int? && 0 <= v.n < LIMIT32
    case Fixed64 => v.Int? && 0 <= v.n < LIMIT64
    case BytesArray => v.Blob? && BYTES_HEADER + |v.b| <= f.dataSize
    case CString => v.Text? && |v.s| < f.dataSize && 0 !in v.s
    case FixedLengthBytes => v.Blob? && |v.b| == f.dataSize
    case Submessage => v.Sub? && f.ptr.Fields? && FitsMessage(f.ptr.fields, v.m)
    case Extension => false
  }

  ghost predicate FitsCell(f: Field, c: Cell)
    decreases f, 1
  {
    match f.htype
    case Required => c.One? && Fits(f, c.v)
    case Optional => c.Maybe? && (c.has ==> Fits(f, c.v))
    case Repeated => c.Many? && |c.items| <= f.arraySize && forall i :: 0 <= i < |c.items| ==> Fits(f, c.items[i])
    case Oneof => c.Union? && (c.which == f.tag ==> Fits(f, c.v))
  }

  ghost predicate FitsMessage(fields: seq<Field>, m: Struct)
    decreases fields, 1
  {
    forall i :: 0 <= i < |fields| - 1 ==> FitsAt(fields, m, i)
  }

  ghost predicate FitsAt(fields: seq<Field>, m: Struct, i: nat)
    requires i < |fields|
    decreases fields, 0
  {
    PlaceOf(fields, i).data in m && FitsCell(fields[i], m[PlaceOf(fields, i).data])
  }

  /** Like Fits, but a string may fill its array and have no terminator: all that a struct of the type can hold and the
      encoder accepts. */
  ghost predicate Encodable(f: Field, v: Value)
    decreases f, 0
  {
    match f.ltype
    case CString => v.Text? && |v.s| <= f.dataSize && 0 !in v.s
    case Submessage => v.Sub? && f.ptr.Fields? && EncodableMessage(f.ptr.fields, v.m)
    case _ => Fits(f, v)
  }

  ghost predicate EncodableCell(f: Field, c: Cell)
    decreases f, 1
  {
    match f.htype
    case Required => c.One? && Encodable(f, c.v)
    case Optional => c.Maybe? && (c.has ==> Encodable(f, c.v))
    case Repeated => c.Many? && |c.items| <= f.arraySize && forall i :: 0 <= i < |c.items| ==> Encodable(f, c.items[i])
    case Oneof => c.Union? && (c.which == f.tag ==> Encodable(f, c.v))
  }

  ghost predicate EncodableMessage(fields: seq<Field>, m: Struct)
    decreases fields, 1
  {
    forall i :: 0 <= i < |fields| - 1 ==> EncodableAt(fields, m, i)
  }

  ghost predicate EncodableAt(fields: seq<Field>, m: Struct, i: nat)
    requires i < |fields|
    decreases fields, 0
  {
    PlaceOf(fields, i).data in m && EncodableCell(fields[i], m[PlaceOf(fields, i).data])
  }

  lemma EncodableParts(f: Field, c: Cell)
    requires EncodableCell(f, c)
    ensures Holds(f, c)
    ensures match f.htype
            case Required => Encodable(f, c.v)
            case Optional => c.has ==> Encodable(f, c.v)
            case Repeated => |c.items| <= f.arraySize && forall i :: 0 <= i < |c.items| ==> Encodable(f, c.items[i])
            case Oneof => c.which == f.tag ==> Encodable(f, c.v)
  {
    hide Encodable;
  }

  // --- What is restored ---

  ghost predicate Same(f: Field, v: Value, w: Value)
    decreases f, 0
  {
    if f.ltype.Submessage? && f.ptr.Fields? then v.Sub? && w.Sub? && SameMessage(f.ptr.fields, v.m, w.m) else v == w
  }

  /** Presence is the same, and what is present is. */
  ghost predicate SameCell(f: Field, c: Cell, d: Cell)
    decreases f, 2
  {
    && Holds(f, c) && Holds(f, d)
    && match f.htype
       case Required => Same(f, c.v, d.v)
       case Optional => c.has == d.has && (c.has ==> Same(f, c.v, d.v))
       case Repeated => SameItems(f, c.items, d.items)
       case Oneof => (c.which == f.tag <==> d.which == f.tag) && (c.which == f.tag ==> Same(f, c.v, d.v))
  }

  ghost predicate SameItems(f: Field, a: seq<Value>, b: seq<Value>)
    decreases f, 1
  {
    |a| == |b| && forall i :: 0 <= i < |a| ==> Same(f, a[i], b[i])
  }

  ghost predicate SameMessage(fields: seq<Field>, m: Struct, n: Struct)
    decreases fields, 1
  {
    forall i :: 0 <= i < |fields| - 1 ==> SameAt(fields, m, n, i)
  }

  ghost predicate SameAt(fields: seq<Field>, m: Struct, n: Struct, i: nat)
    requires i < |fields|
    decreases fields, 0
  {
    var at := PlaceOf(fields, i).data;
    at in m && at in n && SameCell(fields[i], m[at], n[at])
  }

  // --- Scalars ---

  lemma UpToNulIsAll(s: Bytes)
    requires 0 !in s
    ensures UpToNul(s) == s
  {
    if s != [] {
      assert s[0] in s;
      assert s == [s[0]] + s[1..];
      UpToNulIsAll(s[1..]);
    }
  }

  lemma FixedTrip(v: nat, n: nat, rest: Bytes)
    requires (n == 4 && v < LIMIT32) || (n == 8 && v < LIMIT64)
    ensures |Fixed(v, n) + rest| >= n && UnFixed((Fixed(v, n) + rest)[..n]) == v && (Fixed(v, n) + rest)[n..] == rest
  {
    hide Fixed, UnFixed, Power256;
    Power256Of4();
    Power256Of8();
    FixedRoundTrip(v, n);
    assert (Fixed(v, n) + rest)[..n] == Fixed(v, n);
  }

  lemma Power256Of8()
    ensures Power256(8) == LIMIT64
  {
    Power256Of4();
    assert Power256(8) == 256 * 256 * 256 * 256 * Power256(4);
  }

  lemma PrefixedParts(b: Bytes, rest: Bytes)
    requires |b| < LIMIT32
    ensures var n := Un32(Prefixed(b) + rest);
            n.Got? && n.value == |b| && n.rest == b + rest && n.rest[..|b|] == b && n.rest[|b|..] == rest
  {
    hide Un32, Coding.Varint;
    Un32RoundTrip(|b|, b + rest);
    assert Prefixed(b) + rest == Coding.Varint(|b|) + (b + rest);
  }

  lemma VarintTrip(size: nat, n: int, rest: Bytes)
    requires IsWidth(size) && InSigned(n, size)
    ensures SignedRead(size, UnVarint64(Coding.Varint(Unsigned64(n)) + rest)) == Got(Int(n), rest)
    ensures ZigZagRead(size, UnVarint64(Coding.Varint(ZigZag(n)) + rest)) == Got(Int(n), rest)
  {
    hide UnVarint64, Coding.Varint, Signed, InSigned, Unsigned64, ZigZag, UnZigZag;
    Varint64RoundTrip(Unsigned64(n), rest);
    SignedRoundTrip(n, size);
    ZigZagRoundTrip(n);
    WiderHolds(n, size);
    Varint64RoundTrip(ZigZag(n), rest);
  }

  lemma WiderHolds(n: int, size: nat)
    requires IsWidth(size) && InSigned(n, size)
    ensures InSigned(n, 8)
  {
  }

  lemma UnsignedTrip(size: nat, n: nat, rest: Bytes)
    requires IsWidth(size) && n < Range(size)
    ensures UnsignedRead(size, UnVarint64(Coding.Varint(n) + rest)) == Got(Int(n), rest)
  {
    hide UnVarint64, Coding.Varint;
    Varint64RoundTrip(n, rest);
  }

  /** Every scalar comes back as it was: signed, unsigned, zig-zag and fixed-size numbers, bytes and strings. */
  lemma ScalarTrip(f: Field, v: Value, rest: Bytes)
    requires !f.ltype.Submessage? && Fits(f, v)
    ensures var b := ScalarBytes(f, v);
            b.Some? && |b.value| > 0 && (|b.value| < LIMIT32 ==> ScalarRead(f, b.value + rest) == Got(v, rest))
  {
    hide UnVarint64, Un32, Coding.Varint, SignedRead, UnsignedRead, ZigZagRead, Signed, UpToNul, UnFixed, Fixed,
         InSigned;
    match f.ltype {
      case Varint => VarintTrip(f.dataSize, v.n, rest);
      case Uvarint => UnsignedTrip(f.dataSize, v.n, rest);
      case Svarint => VarintTrip(f.dataSize, v.n, rest);
      case Fixed32 => FixedTrip(v.n, 4, rest);
      case Fixed64 => FixedTrip(v.n, 8, rest);
      case BytesArray => if |v.b| < LIMIT32 { PrefixedParts(v.b, rest); }
      case CString =>
        UpToNulIsAll(v.s);
        if |v.s| < LIMIT32 { PrefixedParts(v.s, rest); }
      case FixedLengthBytes =>
        if |v.b| < LIMIT32 { PrefixedParts(v.b, rest); }
        assert |v.b| == 0 ==> v.b == Zeros(0);
    }
  }

  // --- What the encoder takes ---

  lemma {:induction false} ValueEncodes(f: Field, v: Value)
    requires PlainField(f) && Encodable(f, v)
    ensures ValueBytes(f, v).Some? && |ValueBytes(f, v).value| > 0
    decreases f, 0
  {
    hide ScalarBytes, MessageBytes, EncodableMessage;
    if f.ltype.Submessage? {
      MessageEncodes(f.ptr.fields, v.m);
    } else if f.ltype.CString? {
      TextEncodes(f, v);
    } else {
      ScalarTrip(f, v, []);
    }
  }

  lemma TextEncodes(f: Field, v: Value)
    requires f.ltype.CString? && v.Text?
    ensures ValueBytes(f, v) == ScalarBytes(f, v) == Some(Prefixed(v.s)) && |Prefixed(v.s)| > 0
  {
  }

  lemma {:induction false} ItemsEncode(f: Field, items: seq<Value>, tagged: bool)
    requires PlainField(f) && forall i :: 0 <= i < |items| ==> Encodable(f, items[i])
    ensures ItemsBytes(f, items, tagged).Some?
    decreases f, 1, |items|
  {
    hide ValueBytes, Encodable, Plain;
    if items != [] {
      ItemsEncode(f, items[..|items| - 1], tagged);
      ValueEncodes(f, items[|items| - 1]);
    }
  }

  lemma {:induction false} FieldEncodes(f: Field, c: Cell)
    requires PlainField(f) && EncodableCell(f, c)
    ensures FieldBytes(f, c).Some?
    decreases f, 3
  {
    hide ValueBytes, ItemsBytes, Encodable, Plain;
    if f.htype.Repeated? {
      ItemsEncode(f, c.items, false);
      ItemsEncode(f, c.items, true);
    } else if Encodable(f, c.v) {
      ValueEncodes(f, c.v);
    }
  }

  lemma {:induction false} FieldsEncode(fields: seq<Field>, m: Struct, k: nat)
    requires Plain(fields) && EncodableMessage(fields, m) && k < |fields|
    ensures FieldsBytes(fields, m, k).Some?
    decreases fields, 0, k
  {
    hide FieldBytes, EncodableCell, PlainField, PlaceOf;
    if k > 0 {
      FieldsEncode(fields, m, k - 1);
      assert EncodableAt(fields, m, k - 1);
      EncodableParts(fields[k - 1], m[PlaceOf(fields, k - 1).data]);
      FieldEncodes(fields[k - 1], m[PlaceOf(fields, k - 1).data]);
    }
  }

  /** Every encodable message is encoded; the encoder reports no error but a full stream. */
  lemma MessageEncodes(fields: seq<Field>, m: Struct)
    requires Plain(fields) && EncodableMessage(fields, m)
    ensures MessageBytes(fields, m).Some?
    decreases fields, 1
  {
    hide FieldsBytes, EncodableMessage, PlainField;
    FieldsEncode(fields, m, |fields| - 1);
  }

  // --- Values and arrays ---

  lemma {:induction false} ValueTrip(f: Field, v: Value, rest: Bytes) returns (w: Value)
    requires PlainField(f) && SoundField(f) && Fits(f, v)
    requires ValueBytes(f, v).Some? && |ValueBytes(f, v).value| < LIMIT32
    ensures ValueRead(f, FreshValue(f), ValueBytes(f, v).value + rest) == Got(w, rest) && Same(f, v, w)
    decreases f, 0
  {
    hide ScalarBytes, ScalarRead, MessageBytes, FitsMessage, SameMessage, Sound, Plain, Merged, Un32, Coding.Varint;
    if f.ltype.Submessage? {
      var b := MessageBytes(f.ptr.fields, v.m).value;
      var n := MessageTrip(f.ptr.fields, v.m);
      PrefixedParts(b, rest);
      w := Sub(n);
    } else {
      ScalarTrip(f, v, rest);
      w := v;
    }
  }

  lemma PackableIsEncodable(f: Field, v: Value)
    requires Packable(f.ltype) && Fits(f, v)
    ensures Encodable(f, v)
  {
  }

  /** The loop over a packed array, front to back, over bytes that were appended item by item. */
  lemma {:induction false} ItemsTrip(f: Field, items: seq<Value>, rest: Bytes) returns (got: seq<Value>)
    requires PlainField(f) && SoundField(f) && |items| <= f.arraySize && Packable(f.ltype)
    requires forall i :: 0 <= i < |items| ==> Fits(f, items[i])
    requires ItemsBytes(f, items, false).Some? && |ItemsBytes(f, items, false).value| < LIMIT32
    ensures ItemsRead(f, [], ItemsBytes(f, items, false).value + rest) == ItemsRead(f, got, rest)
    ensures SameItems(f, items, got)
    decreases f, 1, |items|
  {
    hide ValueBytes, ValueRead, Fits, Plain, Sound, Same;
    if items == [] {
      got := [];
      assert ItemsBytes(f, items, false).value + rest == rest;
    } else {
      var front, last := items[..|items| - 1], items[|items| - 1];
      var a, b := ItemsBytes(f, front, false).value, ValueBytes(f, last).value;
      got := ItemsTrip(f, front, b + rest);
      var w := ValueTrip(f, last, rest);
      assert Encodable(f, last) by { PackableIsEncodable(f, last); }
      ValueEncodes(f, last);
      assert (a + b) + rest == a + (b + rest);
      got := got + [w];
    }
  }

  // --- Fields ---

  /** Decoding has restored the fields before `k` and not touched the others, unless another member of the same union
      was read. */
  ghost predicate Restored(fields: seq<Field>, m: Struct, k: nat, st: Struct) {
    forall j :: 0 <= j < |fields| - 1 ==> RestoredAt(fields, m, k, st, j)
  }

  ghost predicate RestoredAt(fields: seq<Field>, m: Struct, k: nat, st: Struct, j: nat)
    requires j < |fields|
  {
    var f, at := fields[j], PlaceOf(fields, j).data;
    && at in st && Holds(f, st[at])
    && (f.htype.Oneof? ==> st[at].which == 0 || HasTag(fields, st[at].which))
    && (if j < k then SameAt(fields, m, st, j)
        else if f.htype.Oneof? then st[at].which != f.tag else st[at] == FreshCell(f))
  }

  lemma {:induction false} FreshAt(fields: seq<Field>, k: nat, j: nat)
    requires Apart(fields) && j < k < |fields|
    ensures var at := PlaceOf(fields, j).data;
            at in FreshTo(fields, k) && FreshTo(fields, k)[at] == FreshCell(fields[j])
    decreases k
  {
    hide PlaceOf, FreshValue;
    if j < k - 1 {
      FreshAt(fields, k - 1, j);
    }
  }

  lemma FreshIsRestored(fields: seq<Field>, m: Struct)
    requires Terminated(fields) && Apart(fields)
    ensures Restored(fields, m, 0, Fresh(fields))
  {
    hide FreshTo, PlaceOf, HasTag, SameAt, FreshValue;
    forall j | 0 <= j < |fields| - 1 ensures RestoredAt(fields, m, 0, Fresh(fields), j) {
      FreshAt(fields, |fields| - 1, j);
    }
  }

  lemma KnownTag(fields: seq<Field>, k: nat)
    requires Plain(fields) && k < |fields| - 1
    ensures FindFrom(fields, 0, fields[k].tag) == Some(k) && HasTag(fields, fields[k].tag)
  {
    hide FindFrom;
    assert PlainField(fields[k]);
    FindIgnoresStart(fields, 0, k);
  }

  ghost predicate Absent(f: Field, c: Cell)
    requires Holds(f, c)
  {
    match f.htype
    case Required => false
    case Optional => !c.has
    case Repeated => c.items == []
    case Oneof => c.which != f.tag
  }

  lemma AbsentIsSame(f: Field, c: Cell, d: Cell)
    requires Holds(f, c) && Absent(f, c) && Holds(f, d)
    requires if f.htype.Oneof? then d.which != f.tag else d == FreshCell(f)
    ensures SameCell(f, c, d)
  {
    hide Same, FreshValue;
  }

  /** Reading one member of a union leaves the others absent. */
  lemma OtherMember(f: Field, other: Field, c: Cell, d: Cell)
    requires f.htype.Oneof? && other.htype.Oneof? && f.tag != other.tag
    requires SameCell(f, c, d) && d.which == f.tag
    ensures SameCell(other, c, d) && Holds(other, d)
  {
    hide Same;
  }

  /** A present field was read into its place. */
  lemma Written(fields: seq<Field>, m: Struct, k: nat, st: Struct, c: Cell)
    requires Plain(fields) && Apart(fields) && k < |fields| - 1 && Restored(fields, m, k, st)
    requires PlaceOf(fields, k).data in m && SameCell(fields[k], m[PlaceOf(fields, k).data], c)
    requires fields[k].htype.Oneof? ==> c.which == fields[k].tag
    ensures Restored(fields, m, k + 1, st[PlaceOf(fields, k).data := c])
  {
    hide PlaceOf, HasTag, SameCell, FreshCell, PlainField;
    assert Holds(fields[k], c) by { SameHolds(fields[k], m[PlaceOf(fields, k).data], c); }
    var at := PlaceOf(fields, k).data;
    var next, n := st[at := c], k + 1;
    KnownTag(fields, k);
    forall j | 0 <= j < |fields| - 1 ensures RestoredAt(fields, m, n, next, j) {
      assert RestoredAt(fields, m, k, st, j);
      if PlaceOf(fields, j).data == at && j != k {
        assert fields[j].tag != fields[k].tag;
        OtherMember(fields[k], fields[j], m[at], c);
      }
    }
  }

  /** An absent field keeps its default. */
  lemma NotWritten(fields: seq<Field>, m: Struct, k: nat, st: Struct)
    requires k < |fields| - 1 && Restored(fields, m, k, st)
    requires PlaceOf(fields, k).data in m && Holds(fields[k], m[PlaceOf(fields, k).data])
    requires Absent(fields[k], m[PlaceOf(fields, k).data])
    ensures Restored(fields, m, k + 1, st)
  {
    hide PlaceOf, HasTag, SameCell, FreshCell, Absent;
    var n := k + 1;
    forall j | 0 <= j < |fields| - 1 ensures RestoredAt(fields, m, n, st, j) {
      assert RestoredAt(fields, m, k, st, j);
      if j == k {
        AbsentIsSame(fields[k], m[PlaceOf(fields, k).data], st[PlaceOf(fields, k).data]);
      }
    }
  }

  lemma SameHolds(f: Field, c: Cell, d: Cell)
    requires SameCell(f, c, d)
    ensures Holds(f, c) && Holds(f, d)
  {
    hide Same;
  }

  lemma FitsParts(f: Field, c: Cell)
    requires FitsCell(f, c)
    ensures Holds(f, c)
    ensures match f.htype
            case Required => Fits(f, c.v)
            case Optional => c.has ==> Fits(f, c.v)
            case Repeated => |c.items| <= f.arraySize && forall i :: 0 <= i < |c.items| ==> Fits(f, c.items[i])
            case Oneof => c.which == f.tag ==> Fits(f, c.v)
  {
    hide Fits;
  }

  lemma StepRead(fields: seq<Field>, k: nat, wireType: nat, s: Bytes, st: Struct, c: Cell, tail: Bytes)
    requires Plain(fields) && k < |fields| - 1 && fields[k].tag < 0x2000_0000 && wireType < 8
    requires var f := fields[k];
             FieldRead(fields, f, wireType, At(f, st, PlaceOf(fields, k).data), s) == Got(c, tail)
    ensures Run(fields, TagBytes(wireType, fields[k].tag) + s, st) ==
            Preceded([fields[k].tag], Run(fields, tail, st[PlaceOf(fields, k).data := c]))
  {
    hide PlaceOf, FieldRead, FindFrom, TagBytes, DecodeTag, PlainField;
    KnownTag(fields, k);
    TagRoundTrip(wireType, fields[k].tag, s);
  }

  /** Tag and datum of a required or optional field, a union member or one array item. */
  lemma {:induction false} SingleTrip(fields: seq<Field>, k: nat, st: Struct, v: Value, tail: Bytes) returns (w: Value)
    requires Sound(fields) && k < |fields| - 1 && Fits(fields[k], v)
    requires var f, c := fields[k], At(fields[k], st, PlaceOf(fields, k).data);
             && (f.htype.Repeated? ==> |c.items| < f.arraySize && !Packable(f.ltype))
             && (f.htype.Required? || f.htype.Optional? ==> c.v == FreshValue(f))
             && (f.htype.Oneof? ==> c.which == 0 || HasTag(fields, c.which))
    requires var b := Append(TagFor(fields[k]), ValueBytes(fields[k], v)); b.Some? && |b.value| < LIMIT32
    ensures Same(fields[k], v, w)
    ensures var f, at := fields[k], PlaceOf(fields, k).data;
            Run(fields, Append(TagFor(f), ValueBytes(f, v)).value + tail, st) ==
            Preceded([f.tag], Run(fields, tail, st[at := Updated(f, At(f, st, at), w)]))
    decreases fields, 0
  {
    hide PlaceOf, ValueRead, ValueBytes, Fits, Same, HasTag, TagBytes, Run, At, FreshValue, Plain;
    assert PlainField(fields[k]) && SoundField(fields[k]) by { SoundParts(fields, k); }
    var f, b := fields[k], ValueBytes(fields[k], v).value;
    w := ValueTrip(f, v, tail);
    var wireType := WireType(f.ltype).value;
    StepRead(fields, k, wireType, b + tail, st, Updated(f, At(f, st, PlaceOf(fields, k).data), w), tail);
    assert (TagBytes(wireType, f.tag) + b) + tail == TagBytes(wireType, f.tag) + (b + tail);
  }

  lemma SoundParts(fields: seq<Field>, k: nat)
    requires Sound(fields) && k < |fields| - 1
    ensures PlainField(fields[k]) && SoundField(fields[k]) && Plain(fields) && Apart(fields)
  {
    hide PlainField, SoundField;
  }

  /** Array items that each carry the tag are read one by one. */
  lemma {:induction false} TaggedTrip(fields: seq<Field>, k: nat, st: Struct, items: seq<Value>, tail: Bytes)
    returns (got: seq<Value>, tags: seq<nat>)
    requires Sound(fields) && k < |fields| - 1 && fields[k].htype.Repeated? && !Packable(fields[k].ltype)
    requires PlaceOf(fields, k).data in st && st[PlaceOf(fields, k).data] == Many([])
    requires |items| <= fields[k].arraySize && forall i :: 0 <= i < |items| ==> Fits(fields[k], items[i])
    requires var b := ItemsBytes(fields[k], items, true); b.Some? && |b.value| < LIMIT32
    ensures SameItems(fields[k], items, got)
    ensures var at := PlaceOf(fields, k).data;
            Run(fields, ItemsBytes(fields[k], items, true).value + tail, st) ==
            Preceded(tags, Run(fields, tail, st[at := Many(got)]))
    decreases fields, 1, |items|
  {
    hide PlaceOf, Fits, Same, Run, FreshValue, Sound, ValueBytes, TagFor;
    var f, at := fields[k], PlaceOf(fields, k).data;
    if items == [] {
      got, tags := [], [];
      assert st[at := Many([])] == st;
      assert ItemsBytes(f, items, true).value + tail == tail;
      NothingRead(Run(fields, tail, st));
    } else {
      var front, last := items[..|items| - 1], items[|items| - 1];
      var a, b := ItemsBytes(f, front, true).value, ItemBytes(f, last, true).value;
      got, tags := TaggedTrip(fields, k, st, front, b + tail);
      var mid := st[at := Many(got)];
      var w := SingleTrip(fields, k, mid, last, tail);
      assert (a + b) + tail == a + (b + tail);
      assert mid[at := Many(got + [w])] == st[at := Many(got + [w])];
      PrecededTwice(tags, f.tag, Run(fields, tail, st[at := Many(got + [w])]));
      got, tags := got + [w], tags + [f.tag];
    }
  }

  /** A packed array is read as a whole. */
  lemma PackedTrip(fields: seq<Field>, k: nat, st: Struct, items: seq<Value>, tail: Bytes) returns (got: seq<Value>)
    requires Sound(fields) && k < |fields| - 1 && fields[k].htype.Repeated? && Packable(fields[k].ltype) && items != []
    requires PlaceOf(fields, k).data in st && st[PlaceOf(fields, k).data] == Many([])
    requires |items| <= fields[k].arraySize && forall i :: 0 <= i < |items| ==> Fits(fields[k], items[i])
    requires var b := ArrayBytes(fields[k], items); b.Some? && |b.value| < LIMIT32
    ensures SameItems(fields[k], items, got)
    ensures var f, at := fields[k], PlaceOf(fields, k).data;
            Run(fields, ArrayBytes(f, items).value + tail, st) ==
              Preceded([f.tag], Run(fields, tail, st[at := Many(got)]))
    decreases fields, 1
  {
    hide PlaceOf, Fits, Same, Run, FreshValue, Plain, ItemsBytes, ItemsRead, Un32, TagBytes, Coding.Varint;
    SoundParts(fields, k);
    var f := fields[k];
    var b := ItemsBytes(f, items, false).value;
    got := ItemsTrip(f, items, []);
    assert b + [] == b;
    assert ItemsRead(f, got, []) == Some(got) by { ItemsReadEnds(f, got); }
    PrefixedParts(b, tail);
    StepRead(fields, k, WT_STRING, Prefixed(b) + tail, st, Many(got), tail);
    assert (TagBytes(WT_STRING, f.tag) + Prefixed(b)) + tail == TagBytes(WT_STRING, f.tag) + (Prefixed(b) + tail);
  }

  lemma ItemsReadEnds(f: Field, items: seq<Value>)
    ensures ItemsRead(f, items, []) == Some(items)
  {
  }

  /** One field of a struct, present or not. */
  lemma FieldTrip(fields: seq<Field>, m: Struct, k: nat, st: Struct, tail: Bytes) returns (tags: seq<nat>, next: Struct)
    requires Sound(fields) && k < |fields| - 1 && FitsAt(fields, m, k) && Restored(fields, m, k, st)
    requires var b := BytesAt(fields, m, k); b.Some? && |b.value| < LIMIT32
    ensures Run(fields, BytesAt(fields, m, k).value + tail, st) == Preceded(tags, Run(fields, tail, next))
    ensures Restored(fields, m, k + 1, next)
    ensures fields[k].htype.Required? ==> fields[k].tag in tags
    decreases fields, 2
  {
    hide PlaceOf, Fits, Same, Run, FreshValue, Sound, ValueBytes, TagFor, Restored, ArrayBytes, HasTag, SameItems;
    SoundParts(fields, k);
    var f, at := fields[k], PlaceOf(fields, k).data;
    var c := m[at];
    FitsParts(f, c);
    assert RestoredAt(fields, m, k, st, k) by { RestoredIs(fields, m, k, st, k); }
    if f.htype.Repeated? && c.items != [] {
      var got;
      if Packable(f.ltype) {
        got := PackedTrip(fields, k, st, c.items, tail);
        tags := [f.tag];
      } else {
        ArrayIsTagged(f, c.items);
        got, tags := TaggedTrip(fields, k, st, c.items, tail);
      }
      next := st[at := Many(got)];
      Written(fields, m, k, st, Many(got));
    } else if f.htype.Required? || (f.htype.Optional? && c.has) || (f.htype.Oneof? && c.which == f.tag) {
      var w := SingleTrip(fields, k, st, c.v, tail);
      tags, next := [f.tag], st[at := Updated(f, st[at], w)];
      Written(fields, m, k, st, Updated(f, st[at], w));
    } else {
      tags, next := [], st;
      assert BytesAt(fields, m, k) == Some([]) by { NoItems(f); }
      assert [] + tail == tail;
      NothingRead(Run(fields, tail, st));
      NotWritten(fields, m, k, st);
    }
  }

  lemma RestoredIs(fields: seq<Field>, m: Struct, k: nat, st: Struct, j: nat)
    requires Restored(fields, m, k, st) && j < |fields| - 1
    ensures RestoredAt(fields, m, k, st, j)
  {
    hide RestoredAt;
  }

  lemma NoItems(f: Field)
    ensures ArrayBytes(f, []) == Some([])
  {
  }

  lemma ArrayIsTagged(f: Field, items: seq<Value>)
    requires !Packable(f.ltype) && |items| <= f.arraySize
    ensures ArrayBytes(f, items) == ItemsBytes(f, items, true)
  {
  }

  // --- Messages ---

  lemma {:induction false} FieldsTrip(fields: seq<Field>, m: Struct, k: nat, tail: Bytes)
    returns (tags: seq<nat>, st: Struct)
    requires Sound(fields) && k < |fields| && forall i :: 0 <= i < k ==> FitsAt(fields, m, i)
    requires var b := FieldsBytes(fields, m, k); b.Some? && |b.value| < LIMIT32
    ensures Run(fields, FieldsBytes(fields, m, k).value + tail, Fresh(fields)) == Preceded(tags, Run(fields, tail, st))
    ensures Restored(fields, m, k, st)
    ensures forall j :: 0 <= j < k && fields[j].htype.Required? ==> fields[j].tag in tags
    decreases fields, 3, k
  {
    hide Run, Restored, BytesAt, Plain, FitsAt, Fresh;
    if k == 0 {
      tags, st := [], Fresh(fields);
      assert [] + tail == tail;
      NothingRead(Run(fields, tail, st));
      FreshIsRestored(fields, m) by { SoundIsTerminated(fields); }
    } else {
      var a, b := FieldsBytes(fields, m, k - 1).value, BytesAt(fields, m, k - 1).value;
      var before;
      tags, before := FieldsTrip(fields, m, k - 1, b + tail);
      var more;
      more, st := FieldTrip(fields, m, k - 1, before, tail);
      assert (a + b) + tail == a + (b + tail);
      PrecededJoin(tags, more, Run(fields, tail, st));
      tags := tags + more;
    }
  }

  lemma SoundIsTerminated(fields: seq<Field>)
    requires Sound(fields)
    ensures Terminated(fields)
  {
  }

  /** The decoder accepts what the encoder makes of any message whose values fit, and restores every present field. */
  lemma {:induction false} MessageTrip(fields: seq<Field>, m: Struct) returns (n: Struct)
    requires Sound(fields) && FitsMessage(fields, m)
    requires var b := MessageBytes(fields, m); b.Some? && |b.value| < LIMIT32
    ensures Decoded(fields, MessageBytes(fields, m).value) == Some(n) && SameMessage(fields, m, n)
    decreases fields, 4
  {
    hide FieldsBytes, Run, RestoredAt, Plain, Fresh, FitsAt, SameAt;
    SoundIsTerminated(fields);
    var b := MessageBytes(fields, m).value;
    var tags;
    tags, n := FieldsTrip(fields, m, |fields| - 1, []);
    assert b + [] == b;
    assert Run(fields, [], n) == Some(Ran(n, [])) by { RunEnds(fields, n); }
    assert tags + [] == tags;
    forall i | 0 <= i < |fields| - 1 ensures SameAt(fields, m, n, i) {
      RestoredIs(fields, m, |fields| - 1, n, i);
      RestoredIsSame(fields, m, n, i);
    }
  }

  lemma RunEnds(fields: seq<Field>, m: Struct)
    requires fields != []
    ensures Run(fields, [], m) == Some(Ran(m, []))
  {
  }

  lemma RestoredIsSame(fields: seq<Field>, m: Struct, n: Struct, i: nat)
    requires i < |fields| - 1 && RestoredAt(fields, m, |fields| - 1, n, i)
    ensures SameAt(fields, m, n, i)
  {
    hide SameAt, HasTag;
  }

  // --- What the decoder refuses ---

  /** A value that does not fit makes its decoder fail, whatever follows. */
  lemma {:induction false} ValueFails(f: Field, v: Value, rest: Bytes)
    requires PlainField(f) && SoundField(f) && Encodable(f, v) && !Fits(f, v)
    requires ValueBytes(f, v).Some? && |ValueBytes(f, v).value| < LIMIT32
    ensures ValueRead(f, FreshValue(f), ValueBytes(f, v).value + rest) == Failed
    decreases f, 0
  {
    hide MessageBytes, FitsMessage, EncodableMessage, Sound, Plain, Merged, Un32, Coding.Varint;
    if f.ltype.Submessage? {
      MessageFails(f.ptr.fields, v.m);
      PrefixedParts(MessageBytes(f.ptr.fields, v.m).value, rest);
    } else {
      PrefixedParts(v.s, rest);
    }
  }

  lemma {:induction false} SingleFails(fields: seq<Field>, k: nat, st: Struct, v: Value, tail: Bytes)
    requires Sound(fields) && k < |fields| - 1 && Encodable(fields[k], v) && !Fits(fields[k], v)
    requires var f, c := fields[k], At(fields[k], st, PlaceOf(fields, k).data);
             f.htype.Required? || f.htype.Optional? ==> c.v == FreshValue(f)
    requires var b := Append(TagFor(fields[k]), ValueBytes(fields[k], v)); b.Some? && |b.value| < LIMIT32
    ensures Run(fields, Append(TagFor(fields[k]), ValueBytes(fields[k], v)).value + tail, st) == None
    decreases fields, 0
  {
    hide PlaceOf, ValueRead, ValueBytes, TagBytes, Run, At, FreshValue, Plain, HasTag, EncodableMessage, FitsMessage;
    SoundParts(fields, k);
    var f, b := fields[k], ValueBytes(fields[k], v).value;
    ValueFails(f, v, tail);
    var wireType := WireType(f.ltype).value;
    assert !Packable(f.ltype);
    StepFails(fields, k, wireType, b + tail, st);
    assert (TagBytes(wireType, f.tag) + b) + tail == TagBytes(wireType, f.tag) + (b + tail);
  }

  lemma StepFails(fields: seq<Field>, k: nat, wireType: nat, s: Bytes, st: Struct)
    requires Plain(fields) && k < |fields| - 1 && fields[k].tag < 0x2000_0000 && wireType < 8
    requires FieldRead(fields, fields[k], wireType, At(fields[k], st, PlaceOf(fields, k).data), s) == Failed
    ensures Run(fields, TagBytes(wireType, fields[k].tag) + s, st) == None
  {
    hide PlaceOf, FieldRead, FindFrom, TagBytes, DecodeTag, PlainField;
    KnownTag(fields, k);
    TagRoundTrip(wireType, fields[k].tag, s);
  }

  /** Up to the first array item that does not fit, decoding goes well. */
  lemma {:induction false} TaggedFails(fields: seq<Field>, k: nat, st: Struct, items: seq<Value>, tail: Bytes)
    requires Sound(fields) && k < |fields| - 1 && fields[k].htype.Repeated? && !Packable(fields[k].ltype)
    requires PlaceOf(fields, k).data in st && st[PlaceOf(fields, k).data] == Many([])
    requires |items| <= fields[k].arraySize && forall i :: 0 <= i < |items| ==> Encodable(fields[k], items[i])
    requires exists i :: 0 <= i < |items| && !Fits(fields[k], items[i])
    requires var b := ItemsBytes(fields[k], items, true); b.Some? && |b.value| < LIMIT32
    ensures Run(fields, ItemsBytes(fields[k], items, true).value + tail, st) == None
    decreases fields, 1, |items|
  {
    hide PlaceOf, Fits, Encodable, Same, Run, FreshValue, Sound, ValueBytes, TagFor;
    var f, at := fields[k], PlaceOf(fields, k).data;
    var front, last := items[..|items| - 1], items[|items| - 1];
    var a, b := ItemsBytes(f, front, true).value, ItemBytes(f, last, true).value;
    assert (a + b) + tail == a + (b + tail);
    if i :| 0 <= i < |front| && !Fits(f, front[i]) {
      TaggedFails(fields, k, st, front, b + tail);
    } else {
      assert forall i :: 0 <= i < |front| ==> Fits(f, front[i]);
      var got, tags := TaggedTrip(fields, k, st, front, b + tail);
      SingleFails(fields, k, st[at := Many(got)], last, tail);
    }
  }

  lemma {:induction false} FieldFails(fields: seq<Field>, m: Struct, k: nat, st: Struct, tail: Bytes)
    requires Sound(fields) && EncodableMessage(fields, m) && k < |fields| - 1 && !FitsAt(fields, m, k)
    requires Restored(fields, m, k, st)
    requires var b := BytesAt(fields, m, k); b.Some? && |b.value| < LIMIT32
    ensures Run(fields, BytesAt(fields, m, k).value + tail, st) == None
    decreases fields, 2
  {
    hide PlaceOf, Fits, Encodable, Same, Run, FreshValue, Sound, ValueBytes, TagFor, Restored, ArrayBytes, HasTag;
    SoundParts(fields, k);
    var f, at := fields[k], PlaceOf(fields, k).data;
    var c := m[at];
    assert EncodableAt(fields, m, k);
    EncodableParts(f, c);
    RestoredIs(fields, m, k, st, k);
    if f.htype.Repeated? {
      PackableFits(f, c.items);
      ArrayIsTagged(f, c.items);
      TaggedFails(fields, k, st, c.items, tail);
    } else {
      SingleFails(fields, k, st, c.v, tail);
    }
  }

  /** Only strings can be encodable and not fit, so only strings and messages that hold some. */
  lemma PackableFits(f: Field, items: seq<Value>)
    requires forall i :: 0 <= i < |items| ==> Encodable(f, items[i])
    ensures Packable(f.ltype) ==> forall i :: 0 <= i < |items| ==> Fits(f, items[i])
  {
  }

  lemma {:induction false} LaterBytes(fields: seq<Field>, m: Struct, k: nat, n: nat) returns (rest: Bytes)
    requires k <= n <= |fields| && FieldsBytes(fields, m, n).Some?
    ensures FieldsBytes(fields, m, k).Some? && FieldsBytes(fields, m, n).value == FieldsBytes(fields, m, k).value + rest
    decreases n
  {
    hide BytesAt;
    if k == n {
      rest := [];
    } else {
      rest := LaterBytes(fields, m, k, n - 1);
      assert (FieldsBytes(fields, m, k).value + rest) + BytesAt(fields, m, n - 1).value ==
             FieldsBytes(fields, m, k).value + (rest + BytesAt(fields, m, n - 1).value);
      rest := rest + BytesAt(fields, m, n - 1).value;
    }
  }

  lemma {:induction false} FirstMisfit(fields: seq<Field>, m: Struct, n: nat) returns (k: nat)
    requires n < |fields| && exists i :: 0 <= i < n && !FitsAt(fields, m, i)
    ensures k < n && !FitsAt(fields, m, k) && forall i :: 0 <= i < k ==> FitsAt(fields, m, i)
  {
    hide FitsAt;
    if i :| 0 <= i < n - 1 && !FitsAt(fields, m, i) {
      k := FirstMisfit(fields, m, n - 1);
    } else {
      k := n - 1;
    }
  }

  lemma {:induction false} MessageFails(fields: seq<Field>, m: Struct)
    requires Sound(fields) && EncodableMessage(fields, m) && !FitsMessage(fields, m)
    requires var b := MessageBytes(fields, m); b.Some? && |b.value| < LIMIT32
    ensures Decoded(fields, MessageBytes(fields, m).value) == None
    decreases fields, 4
  {
    hide Run, Restored, Plain, Fresh, FitsAt, EncodableAt, FieldsBytes, BytesAt;
    SoundIsTerminated(fields);
    var k := FirstMisfit(fields, m, |fields| - 1);
    var rest := LaterBytes(fields, m, k + 1, |fields| - 1);
    assert FieldsBytes(fields, m, k + 1) ==
           Append(FieldsBytes(fields, m, k), BytesAt(fields, m, k)) by { NextField(fields, m, k); }
    var a, b := FieldsBytes(fields, m, k).value, BytesAt(fields, m, k).value;
    var tags, st := FieldsTrip(fields, m, k, b + rest);
    FieldFails(fields, m, k, st, rest);
    assert (a + b) + rest == a + (b + rest);
  }

  lemma NextField(fields: seq<Field>, m: Struct, k: nat)
    requires k < |fields|
    ensures FieldsBytes(fields, m, k + 1) == Append(FieldsBytes(fields, m, k), BytesAt(fields, m, k))
  {
    hide BytesAt;
  }

  /** The round trip, exactly: of what the encoder takes, the decoder accepts the messages whose present strings
      leave room for a terminator, and those it restores. */
  lemma RoundTripIffFits(fields: seq<Field>, m: Struct)
    requires Sound(fields) && EncodableMessage(fields, m)
    ensures var b := MessageBytes(fields, m);
            b.Some? && (|b.value| < LIMIT32 ==>
              var r := Decoded(fields, b.value);
              (r.Some? <==> FitsMessage(fields, m)) && (r.Some? ==> SameMessage(fields, m, r.value)))
  {
    hide Decoded, MessageBytes, FitsMessage, EncodableMessage, SameMessage, Plain;
    MessageEncodes(fields, m);
    if |MessageBytes(fields, m).value| >= LIMIT32 {
      return;
    }
    if FitsMessage(fields, m) {
      var n := MessageTrip(fields, m);
    } else {
      MessageFails(fields, m);
    }
  }

  /** A string that fills its array is written without a terminator and refused when read back. */
  lemma FullStringIsRefused()
    ensures var f := Field(1, CString, Required, Static, 0, 0, 1, 0, Null);
            var fields, m := [f, LAST_FIELD], map[0 := One(Text([65]))];
            MessageBytes(fields, m).Some? && Decoded(fields, MessageBytes(fields, m).value) == None
  {
    var f := Field(1, CString, Required, Static, 0, 0, 1, 0, Null);
    var fields, m := [f, LAST_FIELD], map[0 := One(Text([65]))];
    assert PlaceOf(fields, 0) == Place(0, 0, 0);
    assert FieldsBytes(fields, m, 0) == Some([]);
    var b := Append(TagFor(f), ValueBytes(f, m[0].v));
    assert BytesAt(fields, m, 0) == b;
    assert FieldsBytes(fields, m, 1) == Append(FieldsBytes(fields, m, 0), b);
    TagBytesAreShort(f);
    assert !Fits(f, Text([65])) && Encodable(f, Text([65]));
    assert !FitsCell(f, m[0]) && EncodableCell(f, m[0]);
    assert EncodableAt(fields, m, 0) && !FitsAt(fields, m, 0);
    assert PlainField(f) && PlainField(LAST_FIELD) && SoundField(f);
    assert Plain(fields) && Apart(fields);
    MessageFails(fields, m);
  }

  lemma TagBytesAreShort(f: Field)
    requires f.tag == 1 && f.ltype.CString?
    ensures TagFor(f) == Some([10]) && Prefixed([65]) == [1, 65]
  {
  }

  // --- Fields of other descriptors ---

  lemma ValueIsPayload(g: Field, v: Value)
    requires ValueBytes(g, v).Some? && |ValueBytes(g, v).value| < LIMIT32 && WireType(g.ltype).Some?
    ensures Payload(WireType(g.ltype).value, ValueBytes(g, v).value)
  {
    hide Coding.Varint, MessageBytes, Fixed;
    match g.ltype {
      case Varint => VarintIsPayload(Unsigned64(v.n));
      case Uvarint => VarintIsPayload(v.n);
      case Svarint => VarintIsPayload(ZigZag(v.n));
      case BytesArray => assert IsPrefixed(ValueBytes(g, v).value, v.b);
      case CString => assert IsPrefixed(ValueBytes(g, v).value, v.s);
      case FixedLengthBytes => assert IsPrefixed(ValueBytes(g, v).value, v.b);
      case Submessage => assert IsPrefixed(ValueBytes(g, v).value, MessageBytes(g.ptr.fields, v.m).value);
      case _ =>
    }
  }

  /** Whatever a field that the descriptor lacks was encoded to is passed over, to the byte. */
  lemma ForeignFieldIsSkipped(fields: seq<Field>, g: Field, c: Cell, tail: Bytes, st: Struct)
    requires Terminated(fields) && FindFrom(fields, 0, g.tag).None? && 0 < g.tag < 0x2000_0000 && Holds(g, c)
    requires var b := FieldBytes(g, c); b.Some? && |b.value| < LIMIT32
    ensures Run(fields, FieldBytes(g, c).value + tail, st) == Run(fields, tail, st)
  {
    hide FindFrom, Run, ValueBytes, ItemsBytes, Payload, TagBytes;
    if g.htype.Repeated? && c.items != [] && Packable(g.ltype) {
      var b := ItemsBytes(g, c.items, false).value;
      assert IsPrefixed(Prefixed(b), b);
      assert Payload(WT_STRING, Prefixed(b)) by { PrefixedIsPayload(b); }
      UnknownFieldIsSkipped(fields, g.tag, WT_STRING, Prefixed(b), tail, st);
    } else if g.htype.Repeated? && c.items != [] {
      ForeignItemsAreSkipped(fields, g, c.items, tail, st);
    } else if FieldBytes(g, c) == Some([]) {
      assert [] + tail == tail;
    } else {
      ForeignValueIsSkipped(fields, g, c.v, tail, st);
    }
  }

  lemma PrefixedIsPayload(b: Bytes)
    requires |b| < LIMIT32
    ensures Payload(WT_STRING, Prefixed(b))
  {
    hide Coding.Varint;
    assert IsPrefixed(Prefixed(b), b);
  }

  lemma ForeignValueIsSkipped(fields: seq<Field>, g: Field, v: Value, tail: Bytes, st: Struct)
    requires Terminated(fields) && FindFrom(fields, 0, g.tag).None? && 0 < g.tag < 0x2000_0000
    requires var b := Append(TagFor(g), ValueBytes(g, v)); b.Some? && |b.value| < LIMIT32
    ensures Run(fields, Append(TagFor(g), ValueBytes(g, v)).value + tail, st) == Run(fields, tail, st)
  {
    hide FindFrom, Run, ValueBytes, Payload, TagBytes;
    ValueIsPayload(g, v);
    UnknownFieldIsSkipped(fields, g.tag, WireType(g.ltype).value, ValueBytes(g, v).value, tail, st);
  }

  lemma {:induction false} ForeignItemsAreSkipped(fields: seq<Field>, g: Field, items: seq<Value>, tail: Bytes,
                                                  st: Struct)
    requires Terminated(fields) && FindFrom(fields, 0, g.tag).None? && 0 < g.tag < 0x2000_0000
    requires var b := ItemsBytes(g, items, true); b.Some? && |b.value| < LIMIT32
    ensures Run(fields, ItemsBytes(g, items, true).value + tail, st) == Run(fields, tail, st)
  {
    hide FindFrom, Run, ValueBytes, TagFor;
    if items == [] {
      assert ItemsBytes(g, items, true).value + tail == tail;
    } else {
      var front, last := items[..|items| - 1], items[|items| - 1];
      var a, b := ItemsBytes(g, front, true).value, ItemBytes(g, last, true).value;
      assert (a + b) + tail == a + (b + tail);
      ForeignItemsAreSkipped(fields, g, front, b + tail, st);
      ForeignValueIsSkipped(fields, g, last, tail, st);
    }
  }
}
