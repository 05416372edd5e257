/** db/log_reader.cc, reading from offset 0 with checksums on; a short read means end of file. */
module LogReader {
  import opened Bytes
  import opened Crc32c
  import opened LogFormat
  import opened Wrappers

  // Codes beyond the record types
  const EOF: nat := 5
  const BAD_RECORD: nat := 6

  /** What one call of ReadPhysicalRecord returns, where the reader then stands, and the sizes of
      the drops it reported. */
  datatype Parsed = Parsed(code: nat, fragment: Bytes, next: nat, drops: seq<nat>)

  /** The header and payload at the front of a buffer that reaches to the end of its block, or to
      the end of the file; `next` counts from the front of the buffer. */
  function ParseBuffer(buffer: Bytes, eof: bool): (r: Parsed)
    requires |buffer| >= HEADER_SIZE
    ensures HEADER_SIZE <= r.next <= |buffer|
  {
    var length := buffer[4] as nat + 256 * buffer[5] as nat;
    var t := buffer[6] as nat;
    if HEADER_SIZE + length > |buffer| then
      (if eof then Parsed(EOF, [], |buffer|, []) else Parsed(BAD_RECORD, [], |buffer|, [|buffer|]))
    else if t == ZERO as nat && length == 0 then Parsed(BAD_RECORD, [], |buffer|, [])
    else if Crc(0, buffer[6..HEADER_SIZE + length]) != Unmask(UnFixed32(buffer)) then
      Parsed(BAD_RECORD, [], |buffer|, [|buffer|])
    else Parsed(t, buffer[HEADER_SIZE..HEADER_SIZE + length], HEADER_SIZE + length, [])
  }

  /** The end of the block that position `p` lies in. */
  function BlockEnd(p: nat): (r: nat)
    ensures p < r <= p + BLOCK_SIZE
  {
    (p / BLOCK_SIZE + 1) * BLOCK_SIZE
  }

  /** The next physical record of file `f` from position `p`. */
  function ParseAt(f: Bytes, p: nat): (r: Parsed)
    requires p <= |f|
    ensures r.next <= |f| && (r.code != EOF ==> p < r.next)
    decreases |f| - p
  {
    var end := if BlockEnd(p) <= |f| then BlockEnd(p) else |f|;
    if end - p < HEADER_SIZE then
      (if BlockEnd(p) <= |f| then ParseAt(f, BlockEnd(p)) else Parsed(EOF, [], |f|, []))
    else
      var r := ParseBuffer(f[p..end], BlockEnd(p) > |f|);
      r.(next := p + r.next)
  }

  /** What one call of ReadRecord returns. */
  datatype Record = Record(record: Option<Bytes>, next: nat, drops: seq<nat>)

  function PartialDrop(inFragment: bool, scratch: Bytes): seq<nat> {
    if inFragment && scratch != [] then [|scratch|] else []
  }

  /** What ReadRecord does with one physical record: finish, or go on with this scratch; `drops` are
      the sizes it reports. */
  datatype Turn = Done(record: Option<Bytes>, drops: seq<nat>) | More(inFragment: bool, scratch: Bytes, drops: seq<nat>)

  function Assemble(code: nat, fragment: Bytes, inFragment: bool, scratch: Bytes): (r: Turn)
    ensures code == EOF ==> r == Done(None, [])
  {
    if code == FULL as nat then Done(Some(fragment), PartialDrop(inFragment, scratch))
    else if code == FIRST as nat then More(true, fragment, PartialDrop(inFragment, scratch))
    else if code == MIDDLE as nat then
      (if inFragment then More(true, scratch + fragment, []) else More(false, scratch, [|fragment|]))
    else if code == LAST as nat then
      (if inFragment then Done(Some(scratch + fragment), []) else More(false, scratch, [|fragment|]))
    else if code == EOF then Done(None, [])
    else if code == BAD_RECORD then
      (if inFragment then More(false, [], [|scratch|]) else More(false, scratch, []))
    else More(false, [], [|fragment| + if inFragment then |scratch| else 0])
  }

  /** Assembles fragments from position `p` on, with `scratch` gathered so far. */
  function NextRecord(f: Bytes, p: nat, inFragment: bool, scratch: Bytes): (r: Record)
    requires p <= |f|
    ensures r.next <= |f| && (r.record.Some? ==> p < r.next)
    decreases |f| - p
  {
    var r := ParseAt(f, p);
    match Assemble(r.code, r.fragment, inFragment, scratch)
    case Done(record, drops) => Record(record, r.next, r.drops + drops)
    case More(inside, gathered, drops) => After(r.drops + drops, NextRecord(f, r.next, inside, gathered))
  }

  function After(drops: seq<nat>, r: Record): Record {
    r.(drops := drops + r.drops)
  }

  /** Calling ReadRecord until it returns false: all records, and all drops reported on the way. */
  function ReadAll(f: Bytes, p: nat): (r: (seq<Bytes>, seq<nat>))
    requires p <= |f|
    decreases |f| - p
  {
    var r := NextRecord(f, p, false, []);
    if r.record.None? then ([], r.drops)
    else
      var rest := ReadAll(f, r.next);
      ([r.record.value] + rest.0, r.drops + rest.1)
  }

  /** One turn of ReadRecord's loop. */
  lemma NextRecordStep(f: Bytes, p: nat, inFragment: bool, scratch: Bytes, before: seq<nat>)
    requires p <= |f|
    ensures var r := ParseAt(f, p);
            var all := After(before, NextRecord(f, p, inFragment, scratch));
            match Assemble(r.code, r.fragment, inFragment, scratch)
            case Done(record, drops) => all == Record(record, r.next, before + r.drops + drops)
            case More(inside, gathered, drops) =>
              all == After(before + r.drops + drops, NextRecord(f, r.next, inside, gathered))
  {
    hide ParseAt, Assemble;
    var r := ParseAt(f, p);
    match Assemble(r.code, r.fragment, inFragment, scratch) {
      case Done(record, drops) =>
      case More(inside, gathered, drops) =>
        var rest := NextRecord(f, r.next, inside, gathered).drops;
        assert before + (r.drops + drops + rest) == before + r.drops + drops + rest;
    }
  }

  lemma AfterNothing(r: Record)
    ensures After([], r) == r
  {
    assert [] + r.drops == r.drops;
  }

  lemma SameBlock(p: nat, q: nat)
    requires p <= q < BlockEnd(p)
    ensures BlockEnd(q) == BlockEnd(p)
  {
  }

  predicate StartsBlock(p: nat) {
    p % BLOCK_SIZE == 0
  }

  lemma BlockStart(p: nat)
    requires StartsBlock(p)
    ensures BlockEnd(p) == p + BLOCK_SIZE && StartsBlock(p + BLOCK_SIZE)
  {
  }

  /** Less than a header before the end of a block is passed over. */
  lemma TrailerIsSkipped(f: Bytes, p: nat, end: nat)
    requires p <= end <= |f| && end - p < HEADER_SIZE && (p == end || end == BlockEnd(p))
    ensures ParseAt(f, p) == ParseAt(f, end)
  {
    hide ParseBuffer;
  }

  lemma ParseBuffered(f: Bytes, filePos: nat, buffer: Bytes, eof: bool)
    requires HEADER_SIZE <= |buffer| <= filePos <= |f| && buffer == f[filePos - |buffer|..filePos]
    requires if eof then filePos == |f| && filePos < BlockEnd(filePos - |buffer|)
             else filePos == BlockEnd(filePos - |buffer|)
    ensures var r := ParseBuffer(buffer, eof);
            ParseAt(f, filePos - |buffer|) == r.(next := filePos - |buffer| + r.next)
  {
    hide ParseBuffer, BlockEnd;
  }

  lemma ParseTail(f: Bytes, p: nat)
    requires p <= |f| && |f| - p < HEADER_SIZE && (|f| < BlockEnd(p) || p == |f|)
    ensures ParseAt(f, p) == Parsed(EOF, [], |f|, [])
  {
  }

  lemma ConsumeKeepsBlock(filePos: nat, buffer: Bytes, rest: Bytes)
    requires |rest| <= |buffer| <= filePos <= BlockEnd(filePos - |buffer|)
    ensures rest != [] ==> BlockEnd(filePos - |rest|) == BlockEnd(filePos - |buffer|)
    ensures filePos == BlockEnd(filePos - |buffer|) ==> StartsBlock(filePos)
  {
    if rest != [] {
      SameBlock(filePos - |buffer|, filePos - |rest|);
    }
  }

  class Reader {
    const file: Bytes
    var filePos: nat           // how far the file has been read
    var buffer: Bytes          // buffer_
    var eof: bool              // eof_
    var reported: seq<nat>     // sizes handed to the reporter

    ghost predicate Valid()
      reads `filePos, `buffer, `eof
      ensures Valid() ==> |buffer| <= filePos <= |file|
    {
      && |buffer| <= filePos <= |file|
      && buffer == file[filePos - |buffer|..filePos]
      && (if eof then filePos == |file| else StartsBlock(filePos))
      && (buffer != [] ==>
          if eof then filePos < BlockEnd(filePos - |buffer|) else filePos == BlockEnd(filePos - |buffer|))
    }

    /** Where the reader stands: the first byte not yet parsed. */
    ghost function Position(): (p: nat)
      requires |buffer| <= filePos
      reads `filePos, `buffer
    {
      filePos - |buffer|
    }

    constructor (file: Bytes)
      ensures Valid() && this.file == file && Position() == 0 && reported == []
    {
      this.file := file;
      filePos, buffer, eof, reported := 0, [], false, [];
    }

    /** Reads the next block, dropping a trailer of fewer than seven bytes. */
    method FillBuffer()
      requires Valid() && |buffer| < HEADER_SIZE && !eof
      modifies `filePos, `buffer, `eof
      ensures Valid() && Position() <= |file|
      ensures ParseAt(file, Position()) == ParseAt(file, old(Position()))
      ensures eof || filePos > old(filePos)
    {
      hide ParseAt, ParseBuffer, BlockEnd, StartsBlock;
      TrailerIsSkipped(file, Position(), filePos);
      BlockStart(filePos);
      var count := if filePos + BLOCK_SIZE <= |file| then BLOCK_SIZE else |file| - filePos;
      buffer := file[filePos..filePos + count];
      filePos := filePos + count;
      if |buffer| < BLOCK_SIZE {
        eof := true;
      }
    }

    method ReadPhysicalRecord() returns (code: nat, fragment: Bytes)
      requires Valid()
      modifies this
      ensures Valid()
      ensures var r := ParseAt(file, old(Position()));
              code == r.code && fragment == r.fragment && Position() == r.next && reported == old(reported) + r.drops
    {
      hide ParseAt, BlockEnd, ParseBuffer, Crc, Unmask, UnFixed32;
      while |buffer| < HEADER_SIZE
        invariant Valid() && reported == old(reported)
        invariant ParseAt(file, Position()) == ParseAt(file, old(Position()))
        decreases if eof then 0 else 1 + |file| - filePos
      {
        if !eof {
          FillBuffer();
        } else {
          ParseTail(file, Position());
          buffer := [];
          code, fragment := EOF, [];
          return;
        }
      }
      ghost var whole := buffer;
      ParseBuffered(file, filePos, buffer, eof);
      code, fragment := ParseHeader();
      ConsumeKeepsBlock(filePos, whole, buffer);
    }

    /** Takes one physical record off the buffer. */
    method ParseHeader() returns (code: nat, fragment: Bytes)
      requires |buffer| >= HEADER_SIZE
      modifies `buffer, `reported
      ensures |buffer| <= |old(buffer)|
      ensures ParseBuffer(old(buffer), eof) ==
              Parsed(code, fragment, |old(buffer)| - |buffer|, ParseBuffer(old(buffer), eof).drops)
      ensures reported == old(reported) + ParseBuffer(old(buffer), eof).drops
      ensures buffer == old(buffer)[|old(buffer)| - |buffer|..]
    {
      hide Crc, Unmask, UnFixed32;
      fragment := [];
      var length := buffer[4] as nat + 256 * buffer[5] as nat;
      code := buffer[6] as nat;
      if HEADER_SIZE + length > |buffer| {
        var dropSize := |buffer|;
        buffer := [];
        if !eof {
          reported := reported + [dropSize];
          code := BAD_RECORD;
          return;
        }
        code := EOF;
        return;
      }
      if code == ZERO as nat && length == 0 {
        buffer := [];
        code := BAD_RECORD;
        return;
      }
      var expected := Unmask(UnFixed32(buffer));
      var actual := Extend(0, buffer[6..HEADER_SIZE + length], 6);
      if actual != expected {
        var dropSize := |buffer|;
        buffer := [];
        reported := reported + [dropSize];
        code := BAD_RECORD;
        return;
      }
      fragment := buffer[HEADER_SIZE..HEADER_SIZE + length];
      buffer := buffer[HEADER_SIZE + length..];
    }

    method ReadRecord() returns (record: Option<Bytes>)
      requires Valid()
      modifies this
      ensures Valid()
      ensures var r := NextRecord(file, old(Position()), false, []);
              record == r.record && Position() == r.next && reported == old(reported) + r.drops
    {
      hide ParseAt, NextRecord, BlockEnd, Assemble, Reader.Valid, After;
      var scratch, inFragment := [], false;
      ghost var whole := NextRecord(file, Position(), false, []);
      ghost var dropped := [];
      AfterNothing(whole);
      while true
        invariant Valid()
        invariant reported == old(reported) + dropped
        invariant After(dropped, NextRecord(file, Position(), inFragment, scratch)) == whole
        decreases |file| - Position()
      {
        NextRecordStep(file, Position(), inFragment, scratch, dropped);
        ghost var drops := ParseAt(file, Position()).drops;
        var code, fragment := ReadPhysicalRecord();
        var done: bool;
        dropped := dropped + drops + Assemble(code, fragment, inFragment, scratch).drops;
        done, record, inFragment, scratch := Gather(code, fragment, inFragment, scratch);
        if done {
          return;
        }
      }
    }

    /** The switch over the record type. */
    method Gather(code: nat, fragment: Bytes, inside: bool, gathered: Bytes)
      returns (done: bool, record: Option<Bytes>, inFragment: bool, scratch: Bytes)
      modifies `reported
      ensures var turn := Assemble(code, fragment, inside, gathered);
              && reported == old(reported) + turn.drops
              && (if done then turn == Done(record, turn.drops) else turn == More(inFragment, scratch, turn.drops))
    {
      done, record, inFragment, scratch := false, None, inside, gathered;
      if code == FULL as nat {
        if inFragment {
          // Earlier writers could leave an empty first fragment at the tail of a block
          if scratch == [] {
            inFragment := false;
          } else {
            reported := reported + [|scratch|];
          }
        }
        done, record := true, Some(fragment);
      } else if code == FIRST as nat {
        if inFragment {
          if scratch == [] {
            inFragment := false;
          } else {
            reported := reported + [|scratch|];
          }
        }
        scratch := fragment;
        inFragment := true;
      } else if code == MIDDLE as nat {
        if !inFragment {
          reported := reported + [|fragment|];
        } else {
          scratch := scratch + fragment;
        }
      } else if code == LAST as nat {
        if !inFragment {
          reported := reported + [|fragment|];
        } else {
          done, record := true, Some(scratch + fragment);
        }
      } else if code == EOF {
        done := true;
      } else if code == BAD_RECORD {
        if inFragment {
          reported := reported + [|scratch|];
          inFragment := false;
          scratch := [];
        }
      } else {
        reported := reported + [|fragment| + if inFragment then |scratch| else 0];
        inFragment := false;
        scratch := [];
      }
    }
  }

  /** ReadRecord until it returns false. */
  method ReadLog(file: Bytes) returns (records: seq<Bytes>, reported: seq<nat>)
    ensures records == ReadAll(file, 0).0 && reported == ReadAll(file, 0).1
  {
    hide NextRecord, ParseAt, Reader.Valid;
    var reader := new Reader(file);
    records := [];
    ghost var whole := ReadAll(file, 0);
    while true
      invariant reader.Valid() && fresh(reader) && reader.file == file
      invariant var rest := ReadAll(file, reader.Position());
                whole.0 == records + rest.0 && whole.1 == reader.reported + rest.1
      decreases |file| - reader.Position()
    {
      var record := reader.ReadRecord();
      if record.None? {
        break;
      }
      records := records + [record.value];
    }
    reported := reader.reported;
  }
}
