/** db/log_format.h, log_writer.cc: records cut into checksummed fragments that never cross a block. */
module LogFormat {
  import opened Bytes
  import opened Crc32c

  const BLOCK_SIZE: nat := 32768
  const HEADER_SIZE: nat := 7

  const ZERO: byte := 0
  const FULL: byte := 1
  const FIRST: byte := 2
  const MIDDLE: byte := 3
  const LAST: byte := 4

  function Zeros(n: nat): (r: Bytes)
    ensures |r| == n
  {
    seq(n, i => 0)
  }

  /** The checksum stored with a fragment: of the type byte and the payload, masked. */
  function StoredCrc(t: byte, payload: Bytes): bv32 {
    Mask(Crc(Crc(0, [t]), payload))
  }

  /** A physical record: checksum, two bytes of length, type, payload. */
  function Physical(t: byte, payload: Bytes): (r: Bytes)
    requires |payload| <= 0xffff
    ensures |r| == HEADER_SIZE + |payload|
  {
    Fixed32(StoredCrc(t, payload)) + [(|payload| % 256) as byte, (|payload| / 256) as byte, t] + payload
  }

  function TypeOf(begin: bool, end: bool): byte {
    if begin && end then FULL else if begin then FIRST else if end then LAST else MIDDLE
  }

  /** Fewer than seven bytes left in the block are filled with zeros. */
  function Padding(offset: nat): nat
    requires offset <= BLOCK_SIZE
  {
    if BLOCK_SIZE - offset < HEADER_SIZE then BLOCK_SIZE - offset else 0
  }

  function Start(offset: nat): (r: nat)
    requires offset <= BLOCK_SIZE
    ensures r + HEADER_SIZE <= BLOCK_SIZE
  {
    if BLOCK_SIZE - offset < HEADER_SIZE then 0 else offset
  }

  function FragmentLength(offset: nat, left: nat): (r: nat)
    requires offset <= BLOCK_SIZE
    ensures r <= left && Start(offset) + HEADER_SIZE + r <= BLOCK_SIZE
  {
    var avail := BLOCK_SIZE - Start(offset) - HEADER_SIZE;
    if left < avail then left else avail
  }

  /** What the writer appends for (the rest of) a record when its block holds `offset` bytes. */
  function Emit(offset: nat, data: Bytes, begin: bool): (r: Bytes)
    requires offset <= BLOCK_SIZE
    ensures |r| >= HEADER_SIZE
    decreases |data|, BLOCK_SIZE - offset
  {
    var n := FragmentLength(offset, |data|);
    var fragment := Zeros(Padding(offset)) + Physical(TypeOf(begin, n == |data|), data[..n]);
    if n == |data| then fragment else fragment + Emit(Start(offset) + HEADER_SIZE + n, data[n..], false)
  }

  function EndOffset(offset: nat, data: Bytes): (r: nat)
    requires offset <= BLOCK_SIZE
    ensures r <= BLOCK_SIZE
    decreases |data|, BLOCK_SIZE - offset
  {
    var n := FragmentLength(offset, |data|);
    if n == |data| then Start(offset) + HEADER_SIZE + n
    else EndOffset(Start(offset) + HEADER_SIZE + n, data[n..])
  }

  /** One turn of the writer's loop. */
  lemma EmitStep(dest: Bytes, offset: nat, data: Bytes, begin: bool)
    requires offset <= BLOCK_SIZE
    ensures var n := FragmentLength(offset, |data|);
            var fragment := Physical(TypeOf(begin, n == |data|), data[..n]);
            var next := (if Padding(offset) == 0 then dest else dest + Zeros(Padding(offset))) + fragment;
            if n == |data|
            then dest + Emit(offset, data, begin) == next && EndOffset(offset, data) == Start(offset) + HEADER_SIZE + n
            else dest + Emit(offset, data, begin) == next + Emit(Start(offset) + HEADER_SIZE + n, data[n..], false)
                 && EndOffset(offset, data) == EndOffset(Start(offset) + HEADER_SIZE + n, data[n..])
  {
    hide Physical;
  }

  lemma EmitStepAt(dest: Bytes, offset: nat, slice: Bytes, from: nat, begin: bool)
    requires offset <= BLOCK_SIZE && from <= |slice|
    ensures var n := FragmentLength(offset, |slice| - from);
            var fragment := Physical(TypeOf(begin, n == |slice| - from), slice[from..from + n]);
            var next := (if Padding(offset) == 0 then dest else dest + Zeros(Padding(offset))) + fragment;
            if n == |slice| - from
            then dest + Emit(offset, slice[from..], begin) == next
                 && EndOffset(offset, slice[from..]) == Start(offset) + HEADER_SIZE + n
            else dest + Emit(offset, slice[from..], begin)
                 == next + Emit(Start(offset) + HEADER_SIZE + n, slice[from + n..], false)
                 && EndOffset(offset, slice[from..]) == EndOffset(Start(offset) + HEADER_SIZE + n, slice[from + n..])
  {
    hide Physical, Emit, EndOffset, Zeros;
    var n := FragmentLength(offset, |slice| - from);
    assert slice[from..][..n] == slice[from..from + n] && slice[from..][n..] == slice[from + n..];
    EmitStep(dest, offset, slice[from..], begin);
  }

  /** The block holds as many bytes as the file has past its last whole block. */
  predicate InStep(offset: nat, length: nat) {
    offset % BLOCK_SIZE == length % BLOCK_SIZE
  }

  lemma StaysInStep(offset: nat, length: nat, n: nat)
    requires offset <= BLOCK_SIZE && InStep(offset, length)
    ensures InStep(Start(offset) + HEADER_SIZE + n, length + Padding(offset) + HEADER_SIZE + n)
  {
  }

  class Writer {
    var dest: Bytes          // the file
    var blockOffset: nat     // block_offset_

    ghost predicate Valid()
      reads this
      ensures Valid() ==> blockOffset <= BLOCK_SIZE
    {
      blockOffset <= BLOCK_SIZE && InStep(blockOffset, |dest|)
    }

    constructor ()
      ensures Valid() && dest == [] && blockOffset == 0
    {
      dest, blockOffset := [], 0;
    }

    /** Reopens a file for appending. */
    constructor Reopen(contents: Bytes)
      ensures Valid() && dest == contents && blockOffset == |contents| % BLOCK_SIZE
    {
      dest, blockOffset := contents, |contents| % BLOCK_SIZE;
    }

    method AddRecord(slice: Bytes)
      requires Valid()
      modifies this
      ensures Valid()
      ensures dest == old(dest) + Emit(old(blockOffset), slice, true)
      ensures blockOffset == EndOffset(old(blockOffset), slice)
    {
      hide Emit, EndOffset, Physical, Zeros, StoredCrc, InStep;
      var ptr, left, begin := 0, |slice|, true;
      ghost var all := old(dest) + Emit(old(blockOffset), slice, true);
      while true
        invariant Valid() && 0 <= ptr <= ptr + left == |slice|
        invariant all == dest + Emit(blockOffset, slice[ptr..], begin)
        invariant EndOffset(blockOffset, slice[ptr..]) == EndOffset(old(blockOffset), slice)
        decreases left, BLOCK_SIZE - blockOffset
      {
        ghost var before, offset, from := dest, blockOffset, ptr;
        var leftover := BLOCK_SIZE - blockOffset;
        if leftover < HEADER_SIZE {
          if leftover > 0 {
            dest := dest + Zeros(leftover);
          }
          blockOffset := 0;
        }
        var avail := BLOCK_SIZE - blockOffset - HEADER_SIZE;
        var fragmentLength := if left < avail then left else avail;
        var end := left == fragmentLength;
        EmitPhysicalRecord(TypeOf(begin, end), slice[ptr..ptr + fragmentLength]);
        ptr := ptr + fragmentLength;
        left := left - fragmentLength;
        EmitStepAt(before, offset, slice, from, begin);
        StaysInStep(offset, |before|, fragmentLength);
        begin := false;
        if left == 0 { break; }
      }
    }

    method EmitPhysicalRecord(t: byte, payload: Bytes)
      requires blockOffset + HEADER_SIZE + |payload| <= BLOCK_SIZE
      modifies this
      ensures dest == old(dest) + Physical(t, payload)
      ensures blockOffset == old(blockOffset) + HEADER_SIZE + |payload|
    {
      var typeCrc := Extend(0, [t], 0);
      var crc := Extend(typeCrc, payload, 0);
      var header := Fixed32(Mask(crc)) + [(|payload| % 256) as byte, (|payload| / 256) as byte, t];
      dest := dest + header;
      dest := dest + payload;
      blockOffset := blockOffset + HEADER_SIZE + |payload|;
    }
  }

  /** A full block and an empty one are the same place: reopening at the full length changes nothing. */
  lemma ReopenChangesNothing(offset: nat, data: Bytes, begin: bool)
    requires offset <= BLOCK_SIZE
    ensures Emit(offset, data, begin) == Emit(offset % BLOCK_SIZE, data, begin)
    ensures EndOffset(offset, data) == EndOffset(offset % BLOCK_SIZE, data)
  {
    hide Emit, EndOffset, Physical, Zeros;
    if offset == BLOCK_SIZE {
      EmitStep([], offset, data, begin);
      EmitStep([], 0, data, begin);
      assert [] + Emit(offset, data, begin) == Emit(offset, data, begin) &&
             [] + Emit(0, data, begin) == Emit(0, data, begin);
    }
  }
}
