/** nanopb/pb.h and pb_common.c: message descriptors, the structs they describe and the circular field iterator. */
module PbCommon {
  import opened Wrappers
  import opened Bytes

  datatype LType = Varint | Uvarint | Svarint | Fixed32 | Fixed64 | BytesArray | CString | Submessage | Extension
                 | FixedLengthBytes

  datatype HType = Required | Optional | Repeated | Oneof

  datatype AType = Static | Pointer | Callback

  /** `ptr` of a descriptor: nothing, the fields of a submessage, or a default value. */
  datatype Ptr = Null | Fields(fields: seq<Field>) | Default(value: Value)

  /** pb_field_t. */
  datatype Field = Field(tag: nat, ltype: LType, htype: HType, atype: AType, dataOffset: int, sizeOffset: int,
                         dataSize: nat, arraySize: nat, ptr: Ptr)

  /** One datum: a number, a byte array, a C string up to its terminator or the end of its array, or a struct. */
  datatype Value = Int(n: int) | Blob(b: Bytes) | Text(s: Bytes) | Sub(m: map<int, Cell>)

  /** A datum with the `has_`, `_count` or `which_` member that goes with it. */
  datatype Cell = One(v: Value) | Maybe(has: bool, v: Value) | Many(items: seq<Value>) | Union(which: nat, v: Value)

  /** A message struct: what lies at the offsets of its data members. */
  type Struct = map<int, Cell>

  /** PB_SIZE_MAX with PB_FIELD_32BIT; as a data offset it marks a further member of a union. */
  const PB_SIZE_MAX: nat := 0xFFFF_FFFF

  const POINTER_SIZE: nat := 8

  /** PB_LAST_FIELD. */
  const LAST_FIELD: Field := Field(0, Varint, Required, Static, 0, 0, 0, 0, Null)

  /** LAST_FIELD ends a descriptor, and its tag 0 occurs nowhere else in it. */
  predicate Terminated(fields: seq<Field>) {
    |fields| > 0 && fields[|fields| - 1] == LAST_FIELD && forall i :: 0 <= i < |fields| - 1 ==> fields[i].tag != 0
  }

  /** How many fields a search goes through: an empty descriptor shows its terminator. */
  function Circle(fields: seq<Field>): (n: nat)
    requires fields != []
    ensures 1 <= n <= |fields|
  {
    if |fields| == 1 then 1 else |fields| - 1
  }

  /** Where the iterator is: the offsets of datum and size member, and how many required fields came before. */
  datatype Place = Place(data: int, size: int, required: nat)

  /** The room one field takes in the struct. */
  function Room(f: Field): int {
    if f.atype.Static? && f.htype.Repeated? then f.dataSize * f.arraySize
    else if f.atype.Pointer? then POINTER_SIZE
    else f.dataSize
  }

  function Advance(p: Place, prev: Field, f: Field): Place {
    if prev.htype.Oneof? && f.htype.Oneof? && f.dataOffset == PB_SIZE_MAX then p
    else
      var data := p.data + Room(prev) + f.dataOffset;
      Place(data, data + f.sizeOffset, p.required + if prev.htype.Required? then 1 else 0)
  }

  /** A walk from the start of the descriptor to field `pos`. */
  function PlaceOf(fields: seq<Field>, pos: nat): Place
    requires pos < |fields|
  {
    if pos == 0 then Place(fields[0].dataOffset, fields[0].dataOffset + fields[0].sizeOffset, 0)
    else Advance(PlaceOf(fields, pos - 1), fields[pos - 1], fields[pos])
  }

  function RequiredBefore(fields: seq<Field>, pos: nat): (n: nat)
    requires pos <= |fields|
    ensures n <= pos
  {
    if pos == 0 then 0 else RequiredBefore(fields, pos - 1) + if fields[pos - 1].htype.Required? then 1 else 0
  }

  lemma {:induction false} RequiredIndexCounts(fields: seq<Field>, pos: nat)
    requires pos < |fields|
    ensures PlaceOf(fields, pos).required == RequiredBefore(fields, pos)
  {
    hide Room;
    if pos > 0 {
      RequiredIndexCounts(fields, pos - 1);
    }
  }

  predicate Hit(f: Field, tag: nat) {
    f.tag == tag && !f.ltype.Extension?
  }

  /** The first hit among fields `lo` to `hi`. */
  function Search(fields: seq<Field>, lo: nat, hi: nat, tag: nat): (r: Option<nat>)
    requires lo <= hi <= |fields|
    ensures r.Some? ==> lo <= r.value < hi && Hit(fields[r.value], tag)
    ensures r.None? ==> forall i :: lo <= i < hi ==> !Hit(fields[i], tag)
    decreases hi - lo
  {
    if lo == hi then None else if Hit(fields[lo], tag) then Some(lo) else Search(fields, lo + 1, hi, tag)
  }

  /** The search goes to the end of the descriptor and then round from its start. */
  function FindFrom(fields: seq<Field>, pos: nat, tag: nat): (r: Option<nat>)
    requires fields != [] && pos < Circle(fields)
    ensures r.Some? ==> r.value < Circle(fields)
  {
    var r := Search(fields, pos, Circle(fields), tag);
    if r.Some? then r else Search(fields, 0, pos, tag)
  }

  predicate UniqueTags(fields: seq<Field>) {
    forall i, j :: 0 <= i < j < |fields| - 1 ==> fields[i].tag != fields[j].tag
  }

  /** From any position, a nonzero tag is found exactly when the descriptor has it. */
  lemma FindsWhatIsThere(fields: seq<Field>, pos: nat, tag: nat)
    requires Terminated(fields) && pos < Circle(fields) && tag != 0
    ensures FindFrom(fields, pos, tag).Some? <==> exists i :: 0 <= i < |fields| - 1 && Hit(fields[i], tag)
    ensures var r := FindFrom(fields, pos, tag); r.Some? ==> r.value < |fields| - 1 && Hit(fields[r.value], tag)
  {
    hide Search;
    var r := FindFrom(fields, pos, tag);
    if i :| 0 <= i < |fields| - 1 && Hit(fields[i], tag) {
      assert i < Circle(fields);
    }
  }

  /** With unique tags the start of the search does not matter. */
  lemma FindIgnoresStart(fields: seq<Field>, pos: nat, i: nat)
    requires Terminated(fields) && UniqueTags(fields) && pos < Circle(fields)
    requires i < |fields| - 1 && !fields[i].ltype.Extension?
    ensures FindFrom(fields, pos, fields[i].tag) == Some(i)
  {
    hide Search;
    assert Hit(fields[i], fields[i].tag);
    FindsWhatIsThere(fields, pos, fields[i].tag);
    var j := FindFrom(fields, pos, fields[i].tag).value;
    assert fields[j].tag == fields[i].tag;
  }

  /** pb_field_iter_t; offsets are relative to the struct. */
  class FieldIter {
    const start: seq<Field>
    var pos: nat
    var pData: int
    var pSize: int
    var requiredFieldIndex: nat

    /** However it came here, the iterator is where a walk from the start would be. */
    ghost predicate Valid()
      reads this
    {
      && Terminated(start) && pos < Circle(start)
      && Place(pData, pSize, requiredFieldIndex) == PlaceOf(start, pos)
    }

    constructor (fields: seq<Field>)
      requires Terminated(fields)
      ensures Valid() && start == fields && pos == 0
    {
      start, pos, requiredFieldIndex := fields, 0, 0;
      pData := fields[0].dataOffset;
      pSize := fields[0].dataOffset + fields[0].sizeOffset;
    }

    method Begin() returns (more: bool)
      requires Terminated(start)
      modifies this
      ensures Valid() && pos == 0 && (more <==> |start| > 1)
    {
      pos := 0;
      requiredFieldIndex := 0;
      pData := start[pos].dataOffset;
      pSize := pData + start[pos].sizeOffset;
      more := start[pos].tag != 0;
    }

    method Next() returns (more: bool)
      requires Valid()
      modifies this
      ensures Valid()
      ensures more <==> old(pos) + 2 < |start|
      ensures pos == if more then old(pos) + 1 else 0
    {
      hide Room;
      var prev := start[pos];
      if prev.tag == 0 {
        return false;
      }
      pos := pos + 1;
      if start[pos].tag == 0 {
        var _ := Begin();
        return false;
      }
      var f := start[pos];
      if prev.htype.Oneof? && f.htype.Oneof? && f.dataOffset == PB_SIZE_MAX {
        return true;
      }
      if prev.htype.Required? {
        requiredFieldIndex := requiredFieldIndex + 1;
      }
      pData := pData + Room(prev) + f.dataOffset;
      pSize := pData + f.sizeOffset;
      return true;
    }

    method Find(tag: nat) returns (found: bool)
      requires Valid()
      modifies this
      ensures Valid()
      ensures found <==> FindFrom(start, old(pos), tag).Some?
      ensures pos == if found then FindFrom(start, old(pos), tag).value else old(pos)
    {
      hide PlaceOf;
      var begin := pos;
      ghost var wrapped := false;
      while true
        invariant Valid()
        invariant if wrapped then pos < begin else begin <= pos
        invariant NoHit(begin, if wrapped then Circle(start) else pos, tag)
        invariant wrapped ==> NoHit(0, pos, tag)
        decreases !wrapped, Circle(start) - pos
      {
        if start[pos].tag == tag && !start[pos].ltype.Extension? {
          FirstHit(begin, tag, wrapped);
          return true;
        }
        var _ := Next();
        if pos == 0 {
          wrapped := true;
        }
        if pos == begin {
          NoHitAtAll(begin, tag);
          return false;
        }
      }
    }

    ghost predicate NoHit(lo: nat, hi: nat, tag: nat) {
      forall i :: lo <= i < hi && i < |start| ==> !Hit(start[i], tag)
    }

    lemma {:induction false} SearchFindsFirst(lo: nat, at: nat, hi: nat, tag: nat)
      requires lo <= at <= hi <= |start| && NoHit(lo, at, tag) && (at < hi ==> Hit(start[at], tag))
      ensures Search(start, lo, hi, tag) == if at < hi then Some(at) else None
      decreases at - lo
    {
      if lo < at {
        SearchFindsFirst(lo + 1, at, hi, tag);
      }
    }

    lemma FirstHit(begin: nat, tag: nat, wrapped: bool)
      requires Terminated(start) && begin < Circle(start) && pos < Circle(start) && Hit(start[pos], tag)
      requires if wrapped then pos < begin && NoHit(begin, Circle(start), tag) && NoHit(0, pos, tag)
               else begin <= pos && NoHit(begin, pos, tag)
      ensures FindFrom(start, begin, tag) == Some(pos)
    {
      hide Search;
      if wrapped {
        SearchFindsFirst(begin, Circle(start), Circle(start), tag);
        SearchFindsFirst(0, pos, begin, tag);
      } else {
        SearchFindsFirst(begin, pos, Circle(start), tag);
      }
    }

    lemma NoHitAtAll(begin: nat, tag: nat)
      requires Terminated(start) && begin < Circle(start)
      requires NoHit(begin, Circle(start), tag) && NoHit(0, begin, tag)
      ensures FindFrom(start, begin, tag) == None
    {
      hide Search;
      SearchFindsFirst(begin, Circle(start), Circle(start), tag);
      SearchFindsFirst(0, begin, begin, tag);
    }
  }
}
