/** What nanopb's decoder makes of a byte sequence: the reference that the streaming decoder of PbDecode refines. */
module PbDecoding {
  import opened Wrappers
  import opened Bytes
  import opened Coding
  import opened PbCommon
  import opened PbWire
  import opened PbEncode

  /** PB_MAX_REQUIRED_FIELDS. */
  const MAX_REQUIRED: nat := 64

  function UpToNul(s: Bytes): (r: Bytes)
    ensures |r| <= |s|
  {
    if s == [] || s[0] == 0 then [] else [s[0]] + UpToNul(s[1..])
  }

  function Zeros(n: nat): Bytes {
    seq(n, _ => 0 as byte)
  }

  // --- Defaults ---

  function Zero(f: Field): Value {
    match f.ltype
    case BytesArray => Blob([])
    case CString => Text([])
    case FixedLengthBytes => Blob(Zeros(f.dataSize))
    case Submessage => Sub(map[])
    case _ => Int(0)
  }

  function FreshValue(f: Field): Value
    decreases f, 0
  {
    if f.ltype.Submessage? && f.ptr.Fields? then Sub(Fresh(f.ptr.fields))
    else if f.ptr.Default? then f.ptr.value
    else Zero(f)
  }

  /** pb_field_set_to_default. What lies beyond the count of an array or in an unset union is not represented. */
  function FreshCell(f: Field): (c: Cell)
    ensures Holds(f, c)
    decreases f, 1
  {
    match f.htype
    case Required => One(FreshValue(f))
    case Optional => Maybe(false, FreshValue(f))
    case Repeated => Many([])
    case Oneof => Union(0, Int(0))
  }

  function FreshTo(fields: seq<Field>, k: nat): Struct
    requires k <= |fields|
    decreases fields, 0, k
  {
    if k == 0 then map[] else FreshTo(fields, k - 1)[PlaceOf(fields, k - 1).data := FreshCell(fields[k - 1])]
  }

  /** pb_message_set_to_defaults. */
  function Fresh(fields: seq<Field>): Struct
    decreases fields, 1
  {
    if fields == [] then map[] else FreshTo(fields, |fields| - 1)
  }

  /** What memory shows at an offset when read as this field's kind. */
  function At(f: Field, m: Struct, at: int): (c: Cell)
    ensures Holds(f, c)
  {
    if at in m && Holds(f, m[at]) then m[at] else FreshCell(f)
  }

  // --- Decoding ---

  function ScalarRead(f: Field, s: Bytes): (r: Got<Value>)
    ensures r.Got? ==> |r.rest| < |s|
  {
    match f.ltype
    case Varint => SignedRead(f.dataSize, UnVarint64(s))
    case Uvarint => UnsignedRead(f.dataSize, UnVarint64(s))
    case Svarint => ZigZagRead(f.dataSize, UnVarint64(s))
    case Fixed32 => if |s| < 4 then Failed else Got(Int(UnFixed(s[..4])), s[4..])
    case Fixed64 => if |s| < 8 then Failed else Got(Int(UnFixed(s[..8])), s[8..])
    case BytesArray => BlobRead(f.dataSize, Un32(s))
    case CString => TextRead(f.dataSize, Un32(s))
    case FixedLengthBytes => FixedBlobRead(f.dataSize, Un32(s))
    case _ => Failed
  }

  /** Fields of up to 32 bits are cast to 32 bits first; a number that does not fit the field is an error. */
  function SignedRead(size: nat, u: Got<nat>): Got<Value> {
    if u.Failed? || !IsWidth(size) then Failed
    else
      var n := Signed(u.value, if size == 8 then 8 else 4);
      if Signed(n, size) != n then Failed else Got(Int(n), u.rest)
  }

  function UnsignedRead(size: nat, u: Got<nat>): Got<Value> {
    if u.Failed? || !IsWidth(size) || u.value >= Range(size) then Failed else Got(Int(u.value), u.rest)
  }

  function ZigZagRead(size: nat, u: Got<nat>): Got<Value> {
    if u.Failed? || !IsWidth(size) then Failed
    else
      var n := UnZigZag(u.value);
      if Signed(n, size) != n then Failed else Got(Int(n), u.rest)
  }

  function BlobRead(dataSize: nat, n: Got<nat>): Got<Value> {
    if n.Failed? || n.value > PB_SIZE_MAX || n.value + BYTES_HEADER > dataSize || n.value > |n.rest| then Failed
    else Got(Blob(n.rest[..n.value]), n.rest[n.value..])
  }

  /** One byte is needed for the terminator. */
  function TextRead(dataSize: nat, n: Got<nat>): Got<Value> {
    if n.Failed? || n.value + 1 > dataSize || n.value > |n.rest| then Failed
    else Got(Text(UpToNul(n.rest[..n.value])), n.rest[n.value..])
  }

  function FixedBlobRead(dataSize: nat, n: Got<nat>): Got<Value> {
    if n.Failed? || n.value > PB_SIZE_MAX then Failed
    else if n.value == 0 then Got(Blob(Zeros(dataSize)), n.rest)
    else if n.value != dataSize || n.value > |n.rest| then Failed
    else Got(Blob(n.rest[..n.value]), n.rest[n.value..])
  }

  /** A field decoder, over what the field held before: submessages that are not array items are merged into it. */
  function ValueRead(f: Field, previous: Value, s: Bytes): (r: Got<Value>)
    ensures r.Got? ==> |r.rest| < |s|
    decreases f, 0
  {
    if !f.ltype.Submessage? then ScalarRead(f, s)
    else
      var n := Un32(s);
      if n.Failed? || n.value > |n.rest| || !f.ptr.Fields? then Failed
      else
        var body := n.rest[..n.value];
        var m := if f.htype.Repeated? || !previous.Sub? then Decoded(f.ptr.fields, body)
                 else Merged(f.ptr.fields, body, previous.m);
        if m.None? then Failed else Got(Sub(m.value), n.rest[n.value..])
  }

  /** The rest of a packed array. */
  function ItemsRead(f: Field, items: seq<Value>, s: Bytes): Option<seq<Value>>
    decreases f, 1, |s|
  {
    if s == [] then Some(items)
    else if |items| >= f.arraySize then None
    else
      var r := ValueRead(f, FreshValue(f), s);
      if r.Failed? then None else ItemsRead(f, items + [r.value], r.rest)
  }

  function PackedRead(f: Field, items: seq<Value>, s: Bytes): (r: Got<Cell>)
    ensures r.Got? ==> |r.rest| < |s| && r.value.Many?
    decreases f, 2
  {
    var n := Un32(s);
    if n.Failed? || n.value > |n.rest| then Failed
    else
      var r := ItemsRead(f, items, n.rest[..n.value]);
      if r.None? then Failed else Got(Many(r.value), n.rest[n.value..])
  }

  predicate HasTag(fields: seq<Field>, tag: nat) {
    fields != [] && FindFrom(fields, 0, tag).Some?
  }

  /** decode_field for static fields. A union that holds a member unknown to the descriptor is refused. */
  function FieldRead(fields: seq<Field>, f: Field, wireType: nat, c: Cell, s: Bytes): (r: Got<Cell>)
    requires Holds(f, c)
    ensures r.Got? ==> |r.rest| < |s| && Holds(f, r.value)
    decreases f, 3
  {
    if f.htype.Repeated? && wireType == WT_STRING && Packable(f.ltype) then PackedRead(f, c.items, s)
    else if f.htype.Repeated? && |c.items| >= f.arraySize then Failed
    else if f.htype.Oneof? && c.which != 0 && c.which != f.tag && !HasTag(fields, c.which) then Failed
    else
      var v := ValueRead(f, if f.htype.Repeated? || f.htype.Oneof? then FreshValue(f) else c.v, s);
      if v.Failed? then Failed else Got(Updated(f, c, v.value), v.rest)
  }

  function Updated(f: Field, c: Cell, v: Value): (d: Cell)
    requires Holds(f, c)
    ensures Holds(f, d)
  {
    match f.htype
    case Required => One(v)
    case Optional => Maybe(true, v)
    case Repeated => Many(c.items + [v])
    case Oneof => Union(f.tag, v)
  }

  /** A finished run over the fields of a message: the struct and the known tags that occurred, in order. */
  datatype Ran = Ran(m: Struct, tags: seq<nat>)

  function Run(fields: seq<Field>, s: Bytes, m: Struct): Option<Ran>
    decreases fields, 2, |s|
  {
    if fields == [] then None
    else
      var t := DecodeTag(s);
      if t.Eof? then Some(Ran(m, []))
      else if t.Bad? then None
      else
        var i := FindFrom(fields, 0, t.tag);
        if i.None? then
          var rest := Skip(t.wireType, t.rest);
          if rest.None? then None else Run(fields, rest.value, m)
        else
          var f, at := fields[i.value], PlaceOf(fields, i.value).data;
          var c := FieldRead(fields, f, t.wireType, At(f, m, at), t.rest);
          if c.Failed? then None else Preceded([t.tag], Run(fields, c.rest, m[at := c.value]))
  }

  function Preceded(tags: seq<nat>, r: Option<Ran>): Option<Ran> {
    if r.None? then None else Some(Ran(r.value.m, tags + r.value.tags))
  }

  lemma NothingRead(r: Option<Ran>)
    ensures Preceded([], r) == r
  {
    if r.Some? {
      assert [] + r.value.tags == r.value.tags;
    }
  }

  lemma PrecededTwice(tags: seq<nat>, tag: nat, r: Option<Ran>)
    ensures Preceded(tags, Preceded([tag], r)) == Preceded(tags + [tag], r)
  {
    PrecededJoin(tags, [tag], r);
  }

  lemma PrecededJoin(a: seq<nat>, b: seq<nat>, r: Option<Ran>)
    ensures Preceded(a, Preceded(b, r)) == Preceded(a + b, r)
  {
    if r.Some? {
      assert a + (b + r.value.tags) == (a + b) + r.value.tags;
    }
  }

  /** Each of the first 64 required fields occurred. */
  predicate Complete(fields: seq<Field>, tags: seq<nat>) {
    forall i :: 0 <= i < |fields| - 1 && fields[i].htype.Required? && RequiredBefore(fields, i) < MAX_REQUIRED ==>
      fields[i].tag in tags
  }

  /** pb_decode_noinit. */
  function Merged(fields: seq<Field>, s: Bytes, m: Struct): Option<Struct>
    decreases fields, 3
  {
    var r := Run(fields, s, m);
    if r.Some? && Complete(fields, r.value.tags) then Some(r.value.m) else None
  }

  /** pb_decode. */
  function Decoded(fields: seq<Field>, s: Bytes): Option<Struct>
    decreases fields, 4
  {
    Merged(fields, s, Fresh(fields))
  }

  lemma FindAnywhere(fields: seq<Field>, pos: nat, tag: nat)
    requires Terminated(fields) && UniqueTags(fields) && pos < Circle(fields)
    ensures FindFrom(fields, pos, tag) == FindFrom(fields, 0, tag)
  {
    hide Search;
    var a, b := FindFrom(fields, pos, tag), FindFrom(fields, 0, tag);
    if tag != 0 {
      FindsWhatIsThere(fields, pos, tag);
      FindsWhatIsThere(fields, 0, tag);
      if a.Some? && b.Some? {
        assert fields[a.value].tag == fields[b.value].tag;
      }
    }
  }

  /** A field that the descriptor does not know is skipped, and its own bytes are all that is consumed. */
  lemma UnknownFieldIsSkipped(fields: seq<Field>, tag: nat, wireType: nat, p: Bytes, s: Bytes, m: Struct)
    requires Terminated(fields) && FindFrom(fields, 0, tag).None?
    requires Payload(wireType, p) && 0 < 8 * tag + wireType < LIMIT32
    ensures Run(fields, TagBytes(wireType, tag) + p + s, m) == Run(fields, s, m)
  {
    hide FindFrom, Skip, DecodeTag, TagBytes, FieldRead, PlaceOf;
    assert wireType < 8;
    TagRoundTrip(wireType, tag, p + s);
    SkipExactly(wireType, p, s);
    assert TagBytes(wireType, tag) + p + s == TagBytes(wireType, tag) + (p + s);
  }
}
