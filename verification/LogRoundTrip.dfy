/** Reading back any byte prefix of what the log writer wrote. */
module LogRoundTrip {
  import opened Bytes
  import opened Crc32c
  import opened LogFormat
  import opened LogReader
  import opened Wrappers

  /** The bytes the writer appends for a list of records. */
  function Written(offset: nat, records: seq<Bytes>): Bytes
    requires offset <= BLOCK_SIZE
    decreases |records|
  {
    if records == [] then []
    else Emit(offset, records[0], true) + Written(EndOffset(offset, records[0]), records[1..])
  }

  function Ends(offset: nat, records: seq<Bytes>): (r: nat)
    requires offset <= BLOCK_SIZE
    ensures r <= BLOCK_SIZE
    decreases |records|
  {
    if records == [] then offset else Ends(EndOffset(offset, records[0]), records[1..])
  }

  lemma {:induction false} WrittenConcat(offset: nat, a: seq<Bytes>, b: seq<Bytes>)
    requires offset <= BLOCK_SIZE
    ensures Written(offset, a + b) == Written(offset, a) + Written(Ends(offset, a), b)
    decreases |a|
  {
    hide Emit, EndOffset;
    if a == [] {
      assert a + b == b;
    } else {
      assert (a + b)[0] == a[0] && (a + b)[1..] == a[1..] + b;
      WrittenConcat(EndOffset(offset, a[0]), a[1..], b);
    }
  }

  method WriteLog(records: seq<Bytes>) returns (file: Bytes)
    ensures file == Written(0, records)
  {
    hide Written;
    var writer := new Writer();
    file := AppendLog(writer, records);
  }

  /** A header and its payload, in a buffer that holds them all and reaches to the end of block or file. */
  lemma PhysicalParses(t: byte, payload: Bytes, buffer: Bytes, eof: bool)
    requires |payload| <= 0xffff && FULL <= t
    requires Physical(t, payload) <= buffer
    ensures ParseBuffer(buffer, eof) == Parsed(t as nat, payload, HEADER_SIZE + |payload|, [])
  {
    hide Crc, Mask, Unmask, Fixed32, UnFixed32;
    var crc := Mask(Crc(Crc(0, [t]), payload));
    var rest := buffer[4..];
    assert buffer == Fixed32(crc) + rest by {
      assert buffer[..4] == Fixed32(crc);
    }
    Fixed32RoundTrip(crc, rest);
    UnmaskMask(Crc(Crc(0, [t]), payload));
    CrcConcat(0, [t], payload);
    assert buffer[6..HEADER_SIZE + |payload|] == [t] + payload;
  }

  /** Cut off before its end, in the last block of a file. */
  lemma CutPhysicalParses(t: byte, payload: Bytes, buffer: Bytes)
    requires |payload| <= 0xffff && HEADER_SIZE <= |buffer| < HEADER_SIZE + |payload|
    requires buffer <= Physical(t, payload)
    ensures ParseBuffer(buffer, true) == Parsed(EOF, [], |buffer|, [])
  {
    hide Crc, Mask, Unmask, Fixed32, UnFixed32;
  }

  lemma BlockEndAt(p: nat)
    ensures BlockEnd(p) == p - p % BLOCK_SIZE + BLOCK_SIZE
  {
  }

  lemma PhysicalReads(w: Bytes, n: nat, p: nat, t: byte, payload: Bytes)
    requires p % BLOCK_SIZE + HEADER_SIZE + |payload| <= BLOCK_SIZE && FULL <= t
    requires p <= n <= |w| && p + HEADER_SIZE + |payload| <= |w|
    requires w[p..p + HEADER_SIZE + |payload|] == Physical(t, payload)
    ensures ParseAt(w[..n], p) == if p + HEADER_SIZE + |payload| <= n
                                  then Parsed(t as nat, payload, p + HEADER_SIZE + |payload|, [])
                                  else Parsed(EOF, [], n, [])
  {
    hide ParseBuffer, Physical, BlockEnd;
    BlockEndAt(p);
    var f := w[..n];
    var end := if BlockEnd(p) <= n then BlockEnd(p) else n;
    var buffer, whole := f[p..end], w[p..p + HEADER_SIZE + |payload|];
    assert buffer == w[p..end];
    if p + HEADER_SIZE + |payload| <= n {
      assert whole == buffer[..|whole|];
      PhysicalParses(t, payload, buffer, BlockEnd(p) > n);
    } else if n - p >= HEADER_SIZE {
      assert buffer == whole[..|buffer|];
      CutPhysicalParses(t, payload, buffer);
    }
  }

  /** The zeros at the end of a block are passed over. */
  lemma PaddingReads(f: Bytes, p: nat, inFragment: bool, scratch: Bytes)
    requires p <= |f| && p % BLOCK_SIZE + HEADER_SIZE > BLOCK_SIZE
    ensures BlockEnd(p) <= |f| ==>
            NextRecord(f, p, inFragment, scratch) == NextRecord(f, BlockEnd(p), inFragment, scratch)
    ensures |f| < BlockEnd(p) ==> NextRecord(f, p, inFragment, scratch) == Record(None, |f|, [])
  {
    hide ParseBuffer, BlockEnd;
    BlockEndAt(p);
  }

  /** Whether a record read in file `w[..n]` that ends at `end` comes back as `data`. */
  predicate ReadsBack(r: Record, n: nat, end: nat, data: Bytes) {
    if end <= n then r == Record(Some(data), end, []) else r.record == None && r.drops == []
  }

  lemma {:induction false} EmitReads(w: Bytes, n: nat, p: nat, offset: nat, data: Bytes, begin: bool, scratch: Bytes)
    requires p <= n <= |w| && offset <= BLOCK_SIZE && InStep(offset, p)
    requires p + |Emit(offset, data, begin)| <= |w|
    requires w[p..p + |Emit(offset, data, begin)|] == Emit(offset, data, begin)
    requires begin ==> scratch == []
    ensures ReadsBack(NextRecord(w[..n], p, !begin, scratch), n, p + |Emit(offset, data, begin)|, scratch + data)
    decreases |data|, BLOCK_SIZE - offset
  {
    hide Physical, ParseAt, NextRecord, BlockEnd, Zeros;
    var f := w[..n];
    var pad := Padding(offset);
    var q := p + pad;
    PaddingPlace(offset, p);
    assert w[q..p + |Emit(offset, data, begin)|] == Emit(offset, data, begin)[pad..];
    if pad > 0 {
      PaddingReads(f, p, !begin, scratch);
    }
    if q <= n {
      EmitAfterPadding(w, n, q, offset, data, begin, scratch);
    }
  }

  lemma PaddingPlace(offset: nat, p: nat)
    requires offset <= BLOCK_SIZE && InStep(offset, p)
    ensures Padding(offset) > 0 ==> p % BLOCK_SIZE + HEADER_SIZE > BLOCK_SIZE && BlockEnd(p) == p + Padding(offset)
    ensures (p + Padding(offset)) % BLOCK_SIZE == Start(offset)
  {
  }

  lemma AfterPadding(offset: nat, data: Bytes, begin: bool)
    requires offset <= BLOCK_SIZE
    ensures var n := FragmentLength(offset, |data|);
            var fragment := Physical(TypeOf(begin, n == |data|), data[..n]);
            && |Emit(offset, data, begin)| >= Padding(offset)
            && Emit(offset, data, begin)[Padding(offset)..] ==
               fragment + if n == |data| then [] else Emit(Start(offset) + HEADER_SIZE + n, data[n..], false)
  {
    hide Physical, Zeros;
  }

  lemma TwoParts(w: Bytes, q: nat, a: Bytes, b: Bytes)
    requires q + |a + b| <= |w| && w[q..q + |a + b|] == a + b
    ensures w[q..q + |a|] == a && w[q + |a|..q + |a| + |b|] == b
  {
    assert w[q..q + |a|] == w[q..q + |a + b|][..|a|];
    assert w[q + |a|..q + |a| + |b|] == w[q..q + |a + b|][|a|..];
  }

  lemma TypeIsFragment(begin: bool, end: bool)
    ensures FULL <= TypeOf(begin, end)
  {
  }

  lemma FragmentAssembles(begin: bool, end: bool, fragment: Bytes, scratch: Bytes)
    requires begin ==> scratch == []
    ensures Assemble(TypeOf(begin, end) as nat, fragment, !begin, scratch) ==
            if end then Done(Some(scratch + fragment), []) else More(true, scratch + fragment, [])
  {
    assert begin ==> scratch + fragment == fragment;
  }

  lemma NextInStep(q: nat, start: nat, n: nat)
    requires q % BLOCK_SIZE == start
    ensures InStep(start + n, q + n)
  {
  }

  lemma Rejoined(scratch: Bytes, data: Bytes, k: nat)
    requires k <= |data|
    ensures scratch + data[..k] + data[k..] == scratch + data
    ensures scratch == [] ==> scratch + data == data && scratch + data[..k] == data[..k]
    ensures k == |data| ==> data[..k] == data
  {
  }

  /** The part of Emit that follows the padding. */
  lemma {:induction false} EmitAfterPadding(w: Bytes, n: nat, q: nat, offset: nat, data: Bytes, begin: bool,
                                            scratch: Bytes)
    requires q <= n <= |w| && offset <= BLOCK_SIZE && q % BLOCK_SIZE == Start(offset)
    requires q + |Emit(offset, data, begin)| - Padding(offset) <= |w|
    requires Padding(offset) <= |Emit(offset, data, begin)|
    requires w[q..q + |Emit(offset, data, begin)| - Padding(offset)] == Emit(offset, data, begin)[Padding(offset)..]
    requires begin ==> scratch == []
    ensures ReadsBack(NextRecord(w[..n], q, !begin, scratch), n, q + |Emit(offset, data, begin)| - Padding(offset),
                      scratch + data)
    decreases |data|, BLOCK_SIZE - offset, 0
  {
    hide Physical, ParseAt, NextRecord, BlockEnd, Zeros, Emit, InStep, Assemble, TypeOf;
    var k := FragmentLength(offset, |data|);
    var t := TypeOf(begin, k == |data|);
    var fragment := Physical(t, data[..k]);
    var end := q + HEADER_SIZE + k;
    var next := Start(offset) + HEADER_SIZE + k;
    AfterPadding(offset, data, begin);
    Rejoined(scratch, data, k);
    TwoParts(w, q, fragment, if k == |data| then [] else Emit(next, data[k..], false));
    NextInStep(q, Start(offset), HEADER_SIZE + k);
    TypeIsFragment(begin, k == |data|);
    PhysicalReads(w, n, q, t, data[..k]);
    FragmentAssembles(begin, k == |data|, data[..k], scratch);
    NextRecordStep(w[..n], q, !begin, scratch, []);
    AfterNothing(NextRecord(w[..n], q, !begin, scratch));
    if k < |data| && end <= n {
      EmitReads(w, n, end, next, data[k..], false, scratch + data[..k]);
      AfterNothing(NextRecord(w[..n], end, true, scratch + data[..k]));
    }
  }

  /** Reading what is left of a log from position `p`, cut at `n`. */
  lemma {:induction false} WrittenReads(w: Bytes, n: nat, p: nat, offset: nat, records: seq<Bytes>, k: nat)
    requires p <= n <= |w| && offset <= BLOCK_SIZE && InStep(offset, p)
    requires w[p..] == Written(offset, records)
    requires k <= |records| && p + |Written(offset, records[..k])| <= n
    requires k < |records| ==> n < p + |Written(offset, records[..k + 1])|
    ensures ReadAll(w[..n], p) == (records[..k], [])
    decreases |records|
  {
    hide NextRecord, Emit, EndOffset, InStep;
    if records == [] {
      EndOfFile(w[..n], p);
    } else {
      var first := Emit(offset, records[0], true);
      var end := p + |first|;
      FirstAndRest(w, p, first, Written(EndOffset(offset, records[0]), records[1..]));
      EmitReads(w, n, p, offset, records[0], true, []);
      assert [] + records[0] == records[0];
      if k == 0 {
        assert records[..1] == [records[0]];
        assert Written(offset, records[..1]) == first + [];
      } else {
        PrefixParts(records, k);
        EmitKeepsStep(p, offset, records[0], true);
        WrittenReads(w, n, end, EndOffset(offset, records[0]), records[1..], k - 1);
        ReadAllStep(w[..n], p, records[0], end, records[1..][..k - 1]);
      }
    }
  }

  lemma FirstAndRest(w: Bytes, p: nat, a: Bytes, b: Bytes)
    requires p <= |w| && w[p..] == a + b
    ensures p + |a| <= |w| && w[p..p + |a|] == a && w[p + |a|..] == b
  {
    assert w[p..p + |a|] == w[p..][..|a|] && w[p + |a|..] == w[p..][|a|..];
  }

  lemma PrefixParts(records: seq<Bytes>, k: nat)
    requires 0 < k <= |records|
    ensures records[..k][1..] == records[1..][..k - 1] && records[..k] == [records[0]] + records[1..][..k - 1]
    ensures k < |records| ==> records[..k + 1][1..] == records[1..][..k]
  {
  }

  lemma ReadAllStep(f: Bytes, p: nat, first: Bytes, next: nat, rest: seq<Bytes>)
    requires p <= |f| && next <= |f|
    requires NextRecord(f, p, false, []) == Record(Some(first), next, [])
    requires ReadAll(f, next) == (rest, [])
    ensures ReadAll(f, p) == ([first] + rest, [])
  {
    hide NextRecord;
    var r := NextRecord(f, p, false, []);
    assert r.drops + ReadAll(f, r.next).1 == [];
  }

  lemma EndOfFile(f: Bytes, p: nat)
    requires p == |f|
    ensures ReadAll(f, p) == ([], [])
  {
    BlockEndAt(p);
  }

  lemma {:induction false} EmitKeepsStep(p: nat, offset: nat, data: Bytes, begin: bool)
    requires offset <= BLOCK_SIZE && InStep(offset, p)
    ensures InStep(EndOffset(offset, data), p + |Emit(offset, data, begin)|)
    decreases |data|, BLOCK_SIZE - offset
  {
    hide Physical, Zeros, Emit, EndOffset, InStep;
    var n := FragmentLength(offset, |data|);
    EmitStep([], offset, data, begin);
    StaysInStep(offset, p, n);
    if n < |data| {
      EmitKeepsStep(p + Padding(offset) + HEADER_SIZE + n, Start(offset) + HEADER_SIZE + n, data[n..], false);
    }
  }

  lemma {:induction false} WrittenKeepsStep(p: nat, offset: nat, records: seq<Bytes>)
    requires offset <= BLOCK_SIZE && InStep(offset, p)
    ensures InStep(Ends(offset, records), p + |Written(offset, records)|)
    decreases |records|
  {
    hide Emit, EndOffset, InStep;
    if records != [] {
      EmitKeepsStep(p, offset, records[0], true);
      WrittenKeepsStep(p + |Emit(offset, records[0], true)|, EndOffset(offset, records[0]), records[1..]);
    }
  }

  /** For any records and any byte prefix of their log: exactly the records wholly inside the prefix
      come back, in order, and no corruption is reported. */
  lemma TruncatedLogReads(records: seq<Bytes>, n: nat, k: nat)
    requires n <= |Written(0, records)|
    requires k <= |records| && |Written(0, records[..k])| <= n
    requires k < |records| ==> n < |Written(0, records[..k + 1])|
    ensures ReadAll(Written(0, records)[..n], 0) == (records[..k], [])
  {
    hide Written, ReadAll;
    var w := Written(0, records);
    assert w[0..] == w;
    WrittenReads(w, n, 0, 0, records, k);
  }

  lemma WholeLogReads(records: seq<Bytes>)
    ensures ReadAll(Written(0, records), 0) == (records, [])
  {
    hide Written, ReadAll;
    var w := Written(0, records);
    assert records[..|records|] == records && w[..|w|] == w;
    TruncatedLogReads(records, |w|, |records|);
  }

  /** Reopening the writer at the full length and going on changes nothing. */
  lemma ReopenedLog(a: seq<Bytes>, b: seq<Bytes>)
    ensures Written(0, a) + Written(|Written(0, a)| % BLOCK_SIZE, b) == Written(0, a + b)
  {
    hide Written, Ends;
    WrittenConcat(0, a, b);
    WrittenKeepsStep(0, 0, a);
    ReopenedFrom(Ends(0, a), b);
  }

  lemma ReopenedFrom(offset: nat, b: seq<Bytes>)
    requires offset <= BLOCK_SIZE
    ensures Written(offset % BLOCK_SIZE, b) == Written(offset, b)
  {
    hide Emit, EndOffset;
    if b != [] {
      ReopenChangesNothing(offset, b[0], true);
    }
  }

  /** Write, close, reopen, write, crash, read. */
  method WriteReopenRead(a: seq<Bytes>, b: seq<Bytes>, n: nat, ghost k: nat) returns (records: seq<Bytes>)
    requires n <= |Written(0, a + b)|
    requires k <= |a + b| && |Written(0, (a + b)[..k])| <= n
    requires k < |a + b| ==> n < |Written(0, (a + b)[..k + 1])|
    ensures records == (a + b)[..k]
  {
    hide Written, ReadAll, Writer.Valid;
    var file := WriteLog(a);
    var writer := new Writer.Reopen(file);
    file := AppendLog(writer, b);
    ReopenedLog(a, b);
    TruncatedLogReads(a + b, n, k);
    var reported;
    records, reported := ReadLog(file[..n]);
  }

  method AppendLog(writer: Writer, records: seq<Bytes>) returns (file: Bytes)
    requires writer.Valid()
    modifies writer
    ensures file == old(writer.dest) + Written(old(writer.blockOffset), records)
  {
    hide Emit, EndOffset, Writer.Valid;
    for i := 0 to |records|
      invariant writer.Valid()
      invariant old(writer.dest) + Written(old(writer.blockOffset), records) ==
                writer.dest + Written(writer.blockOffset, records[i..])
    {
      assert records[i..][1..] == records[i + 1..];
      writer.AddRecord(records[i]);
    }
    file := writer.dest;
  }
}
