/** db/version_edit.cc: a change to the version, as a record of the MANIFEST. */
module VersionEdits {
  import opened Bytes
  import opened Coding
  import opened Wrappers
  import opened Files

  const COMPARATOR: nat := 1
  const LOG_NUMBER: nat := 2
  const NEXT_FILE_NUMBER: nat := 3
  const LAST_SEQUENCE: nat := 4
  const COMPACT_POINTER: nat := 5
  const DELETED_FILE: nat := 6
  const NEW_FILE: nat := 7
  const PREV_LOG_NUMBER: nat := 9

  datatype FileMeta = FileMeta(number: nat, size: nat, smallest: Bytes, largest: Bytes)

  type Deleted = (nat, nat)   // level and file number

  /** `deletedFiles` is an ordered set: strictly increasing by level, then number. */
  datatype VersionEdit = VersionEdit(
    comparator: Option<Bytes>, logNumber: Option<nat>, prevLogNumber: Option<nat>, nextFileNumber: Option<nat>,
    lastSequence: Option<nat>, compactPointers: seq<(nat, Bytes)>, deletedFiles: seq<Deleted>,
    newFiles: seq<(nat, FileMeta)>)

  const EMPTY_EDIT := VersionEdit(None, None, None, None, None, [], [], [])

  predicate DeletedLess(a: Deleted, b: Deleted) {
    a.0 < b.0 || (a.0 == b.0 && a.1 < b.1)
  }

  ghost predicate DeletedSorted(s: seq<Deleted>) {
    forall i, j :: 0 <= i < j < |s| ==> DeletedLess(s[i], s[j])
  }

  /** Insertion into the ordered set. */
  function InsertDeleted(s: seq<Deleted>, d: Deleted): seq<Deleted> {
    if s == [] then [d]
    else if s[0] == d then s
    else if DeletedLess(d, s[0]) then [d] + s
    else [s[0]] + InsertDeleted(s[1..], d)
  }

  lemma {:induction false} InsertLast(s: seq<Deleted>, d: Deleted)
    requires forall i :: 0 <= i < |s| ==> DeletedLess(s[i], d)
    ensures InsertDeleted(s, d) == s + [d]
  {
    if s != [] {
      InsertLast(s[1..], d);
      assert [s[0]] + (s[1..] + [d]) == s + [d];
    }
  }

  /** One tagged item of the record. */
  datatype Field =
    | ComparatorName(name: Bytes) | Number(tag: nat, number: nat) | CompactPointer(level: nat, key: Bytes)
    | DeletedFile(level: nat, number: nat) | NewFile(level: nat, file: FileMeta)

  /** The tags followed by a single number. */
  predicate NumberTag(tag: nat) {
    tag == LOG_NUMBER || tag == PREV_LOG_NUMBER || tag == NEXT_FILE_NUMBER || tag == LAST_SEQUENCE
  }

  predicate Encodable(f: Field) {
    match f
    case ComparatorName(name) => |name| < LIMIT32
    case CompactPointer(level, key) => level < NUM_LEVELS && |key| < LIMIT32
    case DeletedFile(level, number) => level < NUM_LEVELS && number < LIMIT64
    case NewFile(level, file) =>
      && level < NUM_LEVELS && file.number < LIMIT64 && file.size < LIMIT64
      && |file.smallest| < LIMIT32 && |file.largest| < LIMIT32
    case Number(tag, number) => NumberTag(tag) && number < LIMIT64
  }

  function EncodeField(f: Field): Bytes {
    match f
    case ComparatorName(name) => Varint(COMPARATOR) + Prefixed(name)
    case Number(tag, number) => Varint(tag) + Varint(number)
    case CompactPointer(level, key) => Varint(COMPACT_POINTER) + Varint(level) + Prefixed(key)
    case DeletedFile(level, number) => Varint(DELETED_FILE) + Varint(level) + Varint(number)
    case NewFile(level, file) =>
      Varint(NEW_FILE) + Varint(level) + Varint(file.number) + Varint(file.size)
      + Prefixed(file.smallest) + Prefixed(file.largest)
  }

  function EncodeFields(fs: seq<Field>): Bytes {
    if fs == [] then [] else EncodeField(fs[0]) + EncodeFields(fs[1..])
  }

  lemma {:induction false} EncodeConcat(a: seq<Field>, b: seq<Field>)
    ensures EncodeFields(a + b) == EncodeFields(a) + EncodeFields(b)
  {
    hide EncodeField;
    if a == [] {
      assert a + b == b;
    } else {
      assert (a + b)[0] == a[0] && (a + b)[1..] == a[1..] + b;
      EncodeConcat(a[1..], b);
    }
  }

  function NumberField(tag: nat, n: Option<nat>): seq<Field> {
    if n.Some? then [Number(tag, n.value)] else []
  }

  function PointerFields(ps: seq<(nat, Bytes)>): seq<Field> {
    if ps == [] then [] else [CompactPointer(ps[0].0, ps[0].1)] + PointerFields(ps[1..])
  }

  function DeletedFields(ds: seq<Deleted>): seq<Field> {
    if ds == [] then [] else [DeletedFile(ds[0].0, ds[0].1)] + DeletedFields(ds[1..])
  }

  function NewFields(fs: seq<(nat, FileMeta)>): seq<Field> {
    if fs == [] then [] else [NewFile(fs[0].0, fs[0].1)] + NewFields(fs[1..])
  }

  function HeaderFields(e: VersionEdit): seq<Field> {
    (if e.comparator.Some? then [ComparatorName(e.comparator.value)] else [])
    + NumberField(LOG_NUMBER, e.logNumber) + NumberField(PREV_LOG_NUMBER, e.prevLogNumber)
    + NumberField(NEXT_FILE_NUMBER, e.nextFileNumber) + NumberField(LAST_SEQUENCE, e.lastSequence)
  }

  /** The items of an edit, in the order EncodeTo writes them. */
  function Fields(e: VersionEdit): seq<Field> {
    HeaderFields(e) + PointerFields(e.compactPointers) + DeletedFields(e.deletedFiles) + NewFields(e.newFiles)
  }

  /** What reading one item does to the edit. */
  function SetField(e: VersionEdit, f: Field): VersionEdit {
    match f
    case ComparatorName(name) => e.(comparator := Some(name))
    case Number(tag, number) =>
      if tag == LOG_NUMBER then e.(logNumber := Some(number))
      else if tag == PREV_LOG_NUMBER then e.(prevLogNumber := Some(number))
      else if tag == NEXT_FILE_NUMBER then e.(nextFileNumber := Some(number))
      else e.(lastSequence := Some(number))
    case CompactPointer(level, key) => e.(compactPointers := e.compactPointers + [(level, key)])
    case DeletedFile(level, number) => e.(deletedFiles := InsertDeleted(e.deletedFiles, (level, number)))
    case NewFile(level, file) => e.(newFiles := e.newFiles + [(level, file)])
  }

  function SetFields(e: VersionEdit, fs: seq<Field>): VersionEdit
    decreases |fs|
  {
    if fs == [] then e else SetFields(SetField(e, fs[0]), fs[1..])
  }

  datatype Decoded = Corruption(message: string) | Decoded(edit: VersionEdit)

  /** What is read of one item after its tag. */
  datatype ReadField = BadField(message: string) | ReadField(field: Field, rest: Bytes)

  function ReadNumber(tag: nat, input: Bytes): (r: ReadField)
    ensures r.ReadField? ==> |r.rest| < |input|
  {
    match UnVarint64(input)
    case Failed =>
      BadField(if tag == LOG_NUMBER then "log number"
               else if tag == PREV_LOG_NUMBER then "previous log number"
               else if tag == NEXT_FILE_NUMBER then "next file number"
               else "last sequence number")
    case Got(n, rest) => ReadField(Number(tag, n), rest)
  }

  /** GetLevel. */
  function UnLevel(input: Bytes): (r: Got<nat>)
    ensures r.Got? ==> |r.rest| < |input| && r.value < NUM_LEVELS
  {
    match UnVarint32(input)
    case Failed => Failed
    case Got(v, rest) => if v < NUM_LEVELS then Got(v, rest) else Failed
  }

  function ReadNewFile(input: Bytes): (r: ReadField)
    ensures r.ReadField? ==> |r.rest| < |input|
  {
    match UnLevel(input)
    case Failed => BadField("new-file entry")
    case Got(level, r0) =>
      match UnVarint64(r0)
      case Failed => BadField("new-file entry")
      case Got(number, r1) =>
        match UnVarint64(r1)
        case Failed => BadField("new-file entry")
        case Got(size, r2) =>
          match UnPrefixed(r2)
          case Failed => BadField("new-file entry")
          case Got(smallest, r3) =>
            match UnPrefixed(r3)
            case Failed => BadField("new-file entry")
            case Got(largest, r4) => ReadField(NewFile(level, FileMeta(number, size, smallest, largest)), r4)
  }

  function ReadCompactPointer(input: Bytes): (r: ReadField)
    ensures r.ReadField? ==> |r.rest| < |input|
  {
    match UnLevel(input)
    case Failed => BadField("compaction pointer")
    case Got(level, r0) =>
      match UnPrefixed(r0)
      case Failed => BadField("compaction pointer")
      case Got(key, r1) => ReadField(CompactPointer(level, key), r1)
  }

  function ReadDeletedFile(input: Bytes): (r: ReadField)
    ensures r.ReadField? ==> |r.rest| < |input|
  {
    match UnLevel(input)
    case Failed => BadField("deleted file")
    case Got(level, r0) =>
      match UnVarint64(r0)
      case Failed => BadField("deleted file")
      case Got(number, r1) => ReadField(DeletedFile(level, number), r1)
  }

  function ReadTagged(tag: nat, input: Bytes): (r: ReadField)
    ensures r.ReadField? ==> |r.rest| < |input|
  {
    if tag == COMPARATOR then
      (match UnPrefixed(input)
       case Failed => BadField("comparator name")
       case Got(name, rest) => ReadField(ComparatorName(name), rest))
    else if NumberTag(tag) then ReadNumber(tag, input)
    else if tag == COMPACT_POINTER then ReadCompactPointer(input)
    else if tag == DELETED_FILE then ReadDeletedFile(input)
    else if tag == NEW_FILE then ReadNewFile(input)
    else BadField("unknown tag")
  }

  /** Reads items until the input is used up or something is wrong. */
  function DecodeInto(e: VersionEdit, input: Bytes): Decoded
    decreases |input|
  {
    match UnVarint32(input)
    case Failed => if input == [] then Decoded(e) else Corruption("invalid tag")
    case Got(tag, r0) =>
      match ReadTagged(tag, r0)
      case BadField(message) => Corruption(message)
      case ReadField(field, rest) => DecodeInto(SetField(e, field), rest)
  }

  /** EncodeTo. */
  method EncodeTo(e: VersionEdit) returns (dst: Bytes)
    ensures dst == EncodeFields(Fields(e))
  {
    hide Varint, Prefixed, HeaderFields, PointerFields, DeletedFields, NewFields, EncodeFields;
    var header := EncodeHeader(e);
    var pointers := EncodePointers(e.compactPointers);
    var deleted := EncodeDeleted(e.deletedFiles);
    var added := EncodeNew(e.newFiles);
    var h, p, d := HeaderFields(e), PointerFields(e.compactPointers), DeletedFields(e.deletedFiles);
    EncodeConcat(h, p);
    EncodeConcat(h + p, d);
    EncodeConcat(h + p + d, NewFields(e.newFiles));
    dst := header + pointers + deleted + added;
  }

  method EncodePointers(ps: seq<(nat, Bytes)>) returns (dst: Bytes)
    ensures dst == EncodeFields(PointerFields(ps))
  {
    hide Varint, Prefixed, EncodeFields, PointerFields;
    PointerFieldsEnds(ps);
    dst := [];
    for i := 0 to |ps|
      invariant EncodeFields(PointerFields(ps)) == dst + EncodeFields(PointerFields(ps[i..]))
    {
      PointerFieldsStep(ps, i);
      dst := dst + (Varint(COMPACT_POINTER) + Varint(ps[i].0) + Prefixed(ps[i].1));
    }
  }

  method EncodeDeleted(ds: seq<Deleted>) returns (dst: Bytes)
    ensures dst == EncodeFields(DeletedFields(ds))
  {
    hide Varint, Prefixed, EncodeFields, DeletedFields;
    DeletedFieldsEnds(ds);
    dst := [];
    for i := 0 to |ds|
      invariant EncodeFields(DeletedFields(ds)) == dst + EncodeFields(DeletedFields(ds[i..]))
    {
      DeletedFieldsStep(ds, i);
      dst := dst + (Varint(DELETED_FILE) + Varint(ds[i].0) + Varint(ds[i].1));
    }
  }

  method EncodeNew(fs: seq<(nat, FileMeta)>) returns (dst: Bytes)
    ensures dst == EncodeFields(NewFields(fs))
  {
    hide Varint, Prefixed, EncodeFields, NewFields;
    NewFieldsEnds(fs);
    dst := [];
    for i := 0 to |fs|
      invariant EncodeFields(NewFields(fs)) == dst + EncodeFields(NewFields(fs[i..]))
    {
      NewFieldsStep(fs, i);
      var f := fs[i].1;
      dst := dst + (Varint(NEW_FILE) + Varint(fs[i].0) + Varint(f.number) + Varint(f.size) + Prefixed(f.smallest) +
                    Prefixed(f.largest));
    }
  }

  lemma PointerFieldsStep(ps: seq<(nat, Bytes)>, i: nat)
    requires i < |ps|
    ensures EncodeFields(PointerFields(ps[i..])) ==
            EncodeField(CompactPointer(ps[i].0, ps[i].1)) + EncodeFields(PointerFields(ps[i + 1..]))
  {
    hide EncodeField;
    assert ps[i..][1..] == ps[i + 1..];
    EncodeOne(CompactPointer(ps[i].0, ps[i].1), PointerFields(ps[i + 1..]));
  }

  lemma PointerFieldsEnds(ps: seq<(nat, Bytes)>)
    ensures ps[0..] == ps && EncodeFields(PointerFields(ps[|ps|..])) == []
  {
  }

  lemma DeletedFieldsStep(ds: seq<Deleted>, i: nat)
    requires i < |ds|
    ensures EncodeFields(DeletedFields(ds[i..])) ==
            EncodeField(DeletedFile(ds[i].0, ds[i].1)) + EncodeFields(DeletedFields(ds[i + 1..]))
  {
    hide EncodeField;
    assert ds[i..][1..] == ds[i + 1..];
    EncodeOne(DeletedFile(ds[i].0, ds[i].1), DeletedFields(ds[i + 1..]));
  }

  lemma DeletedFieldsEnds(ds: seq<Deleted>)
    ensures ds[0..] == ds && EncodeFields(DeletedFields(ds[|ds|..])) == []
  {
  }

  lemma NewFieldsStep(fs: seq<(nat, FileMeta)>, i: nat)
    requires i < |fs|
    ensures EncodeFields(NewFields(fs[i..])) ==
            EncodeField(NewFile(fs[i].0, fs[i].1)) + EncodeFields(NewFields(fs[i + 1..]))
  {
    hide EncodeField;
    assert fs[i..][1..] == fs[i + 1..];
    EncodeOne(NewFile(fs[i].0, fs[i].1), NewFields(fs[i + 1..]));
  }

  lemma NewFieldsEnds(fs: seq<(nat, FileMeta)>)
    ensures fs[0..] == fs && EncodeFields(NewFields(fs[|fs|..])) == []
  {
  }

  lemma EncodeOne(f: Field, fs: seq<Field>)
    ensures EncodeFields([f] + fs) == EncodeField(f) + EncodeFields(fs)
  {
    hide EncodeField;
    assert ([f] + fs)[1..] == fs;
  }

  /** The optional items at the front. */
  method EncodeHeader(e: VersionEdit) returns (dst: Bytes)
    ensures dst == EncodeFields(HeaderFields(e))
  {
    hide Varint, Prefixed, EncodeFields;
    dst := [];
    ghost var done: seq<Field> := [];
    NoFields();
    if e.comparator.Some? {
      done := AppendField(done, ComparatorName(e.comparator.value));
      dst := dst + (Varint(COMPARATOR) + Prefixed(e.comparator.value));
    }
    dst, done := EncodeNumber(dst, done, LOG_NUMBER, e.logNumber);
    dst, done := EncodeNumber(dst, done, PREV_LOG_NUMBER, e.prevLogNumber);
    dst, done := EncodeNumber(dst, done, NEXT_FILE_NUMBER, e.nextFileNumber);
    dst, done := EncodeNumber(dst, done, LAST_SEQUENCE, e.lastSequence);
    assert done == HeaderFields(e);
  }

  method EncodeNumber(dst: Bytes, ghost done: seq<Field>, tag: nat, n: Option<nat>)
    returns (r: Bytes, ghost fs: seq<Field>)
    requires dst == EncodeFields(done)
    ensures fs == done + NumberField(tag, n) && r == EncodeFields(fs)
  {
    hide Varint, EncodeFields;
    r, fs := dst, done;
    if n.Some? {
      fs := AppendField(done, Number(tag, n.value));
      r := dst + (Varint(tag) + Varint(n.value));
    }
  }

  lemma NoFields()
    ensures EncodeFields([]) == []
  {
  }

  lemma AppendField(done: seq<Field>, f: Field) returns (r: seq<Field>)
    ensures r == done + [f] && EncodeFields(r) == EncodeFields(done) + EncodeField(f)
  {
    hide EncodeField;
    r := done + [f];
    EncodeConcat(done, [f]);
    assert EncodeFields([f]) == EncodeField(f) + EncodeFields([]);
  }

  /** DecodeFrom. Clearing does not drop compaction pointers: an edit that held some keeps them. */
  method DecodeFrom(before: VersionEdit, src: Bytes) returns (r: Decoded)
    ensures r == DecodeInto(EMPTY_EDIT.(compactPointers := before.compactPointers), src)
  {
    hide UnVarint32, ReadTagged, DecodeInto, SetField;
    var e := EMPTY_EDIT.(compactPointers := before.compactPointers);
    var input := src;
    while true
      invariant DecodeInto(EMPTY_EDIT.(compactPointers := before.compactPointers), src) == DecodeInto(e, input)
      decreases |input|
    {
      DecodeStep(e, input);
      var tag := GetVarint32(input);
      if tag.Failed? {
        break;
      }
      var f := GetField(tag.value, tag.rest);
      match f {
        case BadField(message) =>
          return Corruption(message);
        case ReadField(field, rest) =>
          e := SetField(e, field);
          input := rest;
      }
    }
    r := if input != [] then Corruption("invalid tag") else Decoded(e);
  }

  lemma DecodeStep(e: VersionEdit, input: Bytes)
    ensures UnVarint32(input).Failed? ==>
            DecodeInto(e, input) == if input == [] then Decoded(e) else Corruption("invalid tag")
    ensures UnVarint32(input).Got? ==>
            var f := ReadTagged(UnVarint32(input).value, UnVarint32(input).rest);
            DecodeInto(e, input) ==
            if f.BadField? then Corruption(f.message) else DecodeInto(SetField(e, f.field), f.rest)
  {
    hide UnVarint32, ReadTagged, SetField;
  }

  /** The switch over the tag. */
  method GetField(tag: nat, input: Bytes) returns (f: ReadField)
    ensures f == ReadTagged(tag, input)
  {
    hide UnVarint32, UnVarint64, UnPrefixed;
    if tag == COMPARATOR {
      var name := UnPrefixed(input);
      f := if name.Got? then ReadField(ComparatorName(name.value), name.rest) else BadField("comparator name");
    } else if NumberTag(tag) {
      f := ReadNumber(tag, input);
    } else if tag == COMPACT_POINTER {
      f := ReadCompactPointer(input);
    } else if tag == DELETED_FILE {
      f := ReadDeletedFile(input);
    } else if tag == NEW_FILE {
      f := ReadNewFile(input);
    } else {
      f := BadField("unknown tag");
    }
  }

  function TagOf(f: Field): nat {
    match f
    case ComparatorName(_) => COMPARATOR
    case Number(tag, _) => tag
    case CompactPointer(_, _) => COMPACT_POINTER
    case DeletedFile(_, _) => DELETED_FILE
    case NewFile(_, _) => NEW_FILE
  }

  lemma LevelRoundTrip(level: nat, rest: Bytes)
    requires level < NUM_LEVELS
    ensures UnLevel(Varint(level) + rest) == Got(level, rest)
  {
    hide Varint, UnVarint32;
    Varint32RoundTrip(level, rest);
  }

  /** What follows the tag. */
  function Payload(f: Field): Bytes {
    match f
    case ComparatorName(name) => Prefixed(name)
    case Number(_, number) => Varint(number)
    case CompactPointer(level, key) => Varint(level) + Prefixed(key)
    case DeletedFile(level, number) => Varint(level) + Varint(number)
    case NewFile(level, file) =>
      Varint(level) + Varint(file.number) + Varint(file.size) + Prefixed(file.smallest) + Prefixed(file.largest)
  }

  lemma TagThenPayload(f: Field, rest: Bytes)
    ensures EncodeField(f) + rest == Varint(TagOf(f)) + (Payload(f) + rest)
  {
    hide Varint, Prefixed;
  }

  /** One item reads back, whatever follows it. */
  lemma FieldRoundTrip(f: Field, rest: Bytes)
    requires Encodable(f)
    ensures ReadTagged(TagOf(f), Payload(f) + rest) == ReadField(f, rest)
  {
    hide Varint, Prefixed, UnVarint64, UnVarint32, UnPrefixed, UnLevel, ReadNewFile;
    match f {
      case ComparatorName(name) =>
        PrefixedRoundTrip(name, rest);
      case Number(_, number) =>
        Varint64RoundTrip(number, rest);
      case CompactPointer(level, key) =>
        assert Payload(f) + rest == Varint(level) + (Prefixed(key) + rest);
        LevelRoundTrip(level, Prefixed(key) + rest);
        PrefixedRoundTrip(key, rest);
      case DeletedFile(level, number) =>
        assert Payload(f) + rest == Varint(level) + (Varint(number) + rest);
        LevelRoundTrip(level, Varint(number) + rest);
        Varint64RoundTrip(number, rest);
      case NewFile(level, file) =>
        NewFileRoundTrip(level, file, rest);
        NewFilePayload(level, file, rest);
    }
  }

  lemma NewFilePayload(level: nat, file: FileMeta, rest: Bytes)
    ensures Payload(NewFile(level, file)) + rest ==
            Varint(level) +
            (Varint(file.number) + (Varint(file.size) + (Prefixed(file.smallest) + (Prefixed(file.largest) + rest))))
  {
    hide Varint, Prefixed;
  }

  lemma NewFileRoundTrip(level: nat, file: FileMeta, rest: Bytes)
    requires Encodable(NewFile(level, file))
    ensures ReadNewFile(
              Varint(level) +
              (Varint(file.number) + (Varint(file.size) + (Prefixed(file.smallest) + (Prefixed(file.largest) + rest)))))
            == ReadField(NewFile(level, file), rest)
  {
    hide Varint, Prefixed, UnVarint64, UnVarint32, UnPrefixed, UnLevel;
    var r3 := Prefixed(file.largest) + rest;
    var r2 := Prefixed(file.smallest) + r3;
    var r1 := Varint(file.size) + r2;
    var r0 := Varint(file.number) + r1;
    LevelRoundTrip(level, r0);
    Varint64RoundTrip(file.number, r1);
    Varint64RoundTrip(file.size, r2);
    PrefixedRoundTrip(file.smallest, r3);
    PrefixedRoundTrip(file.largest, rest);
  }

  /** Reading what was written for some items performs them one after the other. */
  lemma {:induction false} FieldsRoundTrip(e: VersionEdit, fs: seq<Field>)
    requires forall i :: 0 <= i < |fs| ==> Encodable(fs[i])
    ensures DecodeInto(e, EncodeFields(fs)) == Decoded(SetFields(e, fs))
    decreases |fs|
  {
    hide Varint, UnVarint32, SetField, ReadTagged, EncodeField, Payload, TagOf, Encodable, DecodeInto;
    var input := EncodeFields(fs);
    DecodeStep(e, input);
    if fs == [] {
      NothingToRead();
    } else {
      var f, rest := fs[0], EncodeFields(fs[1..]);
      FieldRoundTrip(f, rest);
      TagFits(f);
      TagThenPayload(f, rest);
      Varint32RoundTrip(TagOf(f), Payload(f) + rest);
      FieldsRoundTrip(SetField(e, f), fs[1..]);
    }
  }

  lemma TagFits(f: Field)
    requires Encodable(f)
    ensures TagOf(f) < LIMIT32
  {
  }

  lemma NothingToRead()
    ensures UnVarint32([]) == Failed
  {
  }

  lemma {:induction false} SetConcat(e: VersionEdit, a: seq<Field>, b: seq<Field>)
    ensures SetFields(e, a + b) == SetFields(SetFields(e, a), b)
    decreases |a|
  {
    hide SetField;
    if a == [] {
      assert a + b == b;
    } else {
      assert (a + b)[0] == a[0] && (a + b)[1..] == a[1..] + b;
      SetConcat(SetField(e, a[0]), a[1..], b);
    }
  }

  lemma SetStep(e: VersionEdit, f: Field, fs: seq<Field>)
    ensures SetFields(e, []) == e
    ensures SetFields(e, [f] + fs) == SetFields(SetField(e, f), fs)
  {
    hide SetField;
    assert ([f] + fs)[1..] == fs;
  }

  lemma {:induction false} SetPointers(e: VersionEdit, ps: seq<(nat, Bytes)>)
    ensures SetFields(e, PointerFields(ps)) == e.(compactPointers := e.compactPointers + ps)
    decreases |ps|
  {
    hide SetFields;
    if ps == [] {
      SetStep(e, Number(0, 0), []);
      assert e.compactPointers + ps == e.compactPointers;
    } else {
      var f := CompactPointer(ps[0].0, ps[0].1);
      SetStep(e, f, PointerFields(ps[1..]));
      SetPointers(SetField(e, f), ps[1..]);
      assert e.compactPointers + [ps[0]] + ps[1..] == e.compactPointers + ps;
    }
  }

  lemma {:induction false} SetNew(e: VersionEdit, fs: seq<(nat, FileMeta)>)
    ensures SetFields(e, NewFields(fs)) == e.(newFiles := e.newFiles + fs)
    decreases |fs|
  {
    hide SetFields;
    if fs == [] {
      SetStep(e, Number(0, 0), []);
      assert e.newFiles + fs == e.newFiles;
    } else {
      var f := NewFile(fs[0].0, fs[0].1);
      SetStep(e, f, NewFields(fs[1..]));
      SetNew(SetField(e, f), fs[1..]);
      assert e.newFiles + [fs[0]] + fs[1..] == e.newFiles + fs;
    }
  }

  lemma {:induction false} SetDeleted(e: VersionEdit, ds: seq<Deleted>)
    requires DeletedSorted(e.deletedFiles + ds)
    ensures SetFields(e, DeletedFields(ds)) == e.(deletedFiles := e.deletedFiles + ds)
    decreases |ds|
  {
    hide DeletedSorted, InsertDeleted, SetFields;
    if ds == [] {
      SetStep(e, Number(0, 0), []);
      assert e.deletedFiles + ds == e.deletedFiles;
    } else {
      var f := DeletedFile(ds[0].0, ds[0].1);
      SetStep(e, f, DeletedFields(ds[1..]));
      InsertNext(e.deletedFiles, ds);
      SetDeleted(SetField(e, f), ds[1..]);
    }
  }

  lemma InsertNext(s: seq<Deleted>, ds: seq<Deleted>)
    requires ds != [] && DeletedSorted(s + ds)
    ensures InsertDeleted(s, ds[0]) == s + [ds[0]] && s + [ds[0]] + ds[1..] == s + ds
  {
    hide InsertDeleted;
    forall i | 0 <= i < |s| ensures DeletedLess(s[i], ds[0]) {
      assert (s + ds)[i] == s[i] && (s + ds)[|s|] == ds[0];
    }
    InsertLast(s, ds[0]);
  }

  lemma SetHeader(e: VersionEdit)
    ensures SetFields(EMPTY_EDIT, HeaderFields(e)) == e.(compactPointers := [], deletedFiles := [], newFiles := [])
  {
    hide SetFields;
    var c := if e.comparator.Some? then [ComparatorName(e.comparator.value)] else [];
    var l := NumberField(LOG_NUMBER, e.logNumber);
    var p := NumberField(PREV_LOG_NUMBER, e.prevLogNumber);
    var x := NumberField(NEXT_FILE_NUMBER, e.nextFileNumber);
    var s := NumberField(LAST_SEQUENCE, e.lastSequence);
    SetConcat(EMPTY_EDIT, c + l + p + x, s);
    SetConcat(EMPTY_EDIT, c + l + p, x);
    SetConcat(EMPTY_EDIT, c + l, p);
    SetConcat(EMPTY_EDIT, c, l);
    var e1 := SetAtMostOne(EMPTY_EDIT, c);
    var e2 := SetAtMostOne(e1, l);
    var e3 := SetAtMostOne(e2, p);
    var e4 := SetAtMostOne(e3, x);
    var e5 := SetAtMostOne(e4, s);
  }

  lemma SetAtMostOne(e: VersionEdit, fs: seq<Field>) returns (r: VersionEdit)
    requires |fs| <= 1
    ensures r == SetFields(e, fs) == if fs == [] then e else SetField(e, fs[0])
  {
    r := SetFields(e, fs);
  }

  /** What an edit must meet to survive the trip: numbers and lengths in their widths, levels that
      exist, deleted files kept in order. */
  ghost predicate ValidEdit(e: VersionEdit) {
    DeletedSorted(e.deletedFiles) && forall i :: 0 <= i < |Fields(e)| ==> Encodable(Fields(e)[i])
  }

  /** Decoding an encoded edit restores it. */
  lemma EditRoundTrip(e: VersionEdit)
    requires ValidEdit(e)
    ensures DecodeInto(EMPTY_EDIT, EncodeFields(Fields(e))) == Decoded(e)
  {
    hide SetFields, PointerFields, DeletedFields, NewFields, HeaderFields, DecodeInto, EncodeFields;
    FieldsRoundTrip(EMPTY_EDIT, Fields(e));
    var h, p, d := HeaderFields(e), PointerFields(e.compactPointers), DeletedFields(e.deletedFiles);
    SetConcat(EMPTY_EDIT, h + p + d, NewFields(e.newFiles));
    SetConcat(EMPTY_EDIT, h + p, d);
    SetConcat(EMPTY_EDIT, h, p);
    SetHeader(e);
    var e1 := e.(compactPointers := [], deletedFiles := [], newFiles := []);
    SetPointers(e1, e.compactPointers);
    assert [] + e.compactPointers == e.compactPointers && [] + e.deletedFiles == e.deletedFiles &&
           [] + e.newFiles == e.newFiles;
    var e2 := e1.(compactPointers := e.compactPointers);
    SetDeleted(e2, e.deletedFiles);
    SetNew(e2.(deletedFiles := e.deletedFiles), e.newFiles);
  }
}
