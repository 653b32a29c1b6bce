/**
 * The journal file header, as `JournalHeader::new` in sdjournal's
 * journal.rs reads it: 240 bytes at the start of the file, the fixed part
 * first (signature, flags, state, the four 128-bit ids) and then nineteen
 * little-endian u64 fields, each read in turn.
 */
module JournalHeader {
  import opened Bytes

  /** Bytes the reader consumes. */
  const HeaderLength: nat := 240

  datatype JournalState = Offline | Online | Archived | StateMax

  /** The state byte: 0, 1 and 2 name a state, anything else is `StateMax`. */
  function StateOf(b: bv8): (r: JournalState)
    ensures r == StateMax <==> 2 < b
    ensures r != StateMax ==> StateCode(r) == b
  {
    if b == 0 then Offline else if b == 1 then Online else if b == 2 then Archived else StateMax
  }

  /** The byte a state is written as; `StateMax` is written as 3. */
  function StateCode(s: JournalState): bv8
  {
    match s
    case Offline => 0
    case Online => 1
    case Archived => 2
    case StateMax => 3
  }

  lemma StateOfCode(s: JournalState)
    ensures StateOf(StateCode(s)) == s
  {
  }

  datatype JournalHeader = JournalHeader(
    signature: seq<bv8>,
    compatibleFlags: bv32,
    incompatibleFlags: bv32,
    state: JournalState,
    reserved: seq<bv8>,
    fileId: bv128,
    machineId: bv128,
    bootId: bv128,
    seqnumId: bv128,
    headerSize: bv64,
    arenaSize: bv64,
    dataHashTableOffset: bv64,
    dataHashTableSize: bv64,
    fieldHashTableOffset: bv64,
    fieldHashTableSize: bv64,
    tailObjectOffset: bv64,
    nObjects: bv64,
    nEntries: bv64,
    tailEntrySeqnum: bv64,
    headEntrySeqnum: bv64,
    entryArrayOffset: bv64,
    headEntryRealtime: bv64,
    tailEntryRealtime: bv64,
    tailEntryMonotonic: bv64,
    nData: bv64,
    nFields: bv64,
    nTags: bv64,
    nEntryArrays: bv64)

  /** The header at position `p`; fewer than 240 bytes left is `UnexpectedEof`. */
  function JournalHeaderAt(data: seq<bv8>, p: nat): (r: Result<JournalHeader>)
    ensures r.Ok? <==> p + HeaderLength <= |data|
    ensures r.Err? ==> r.error == UnexpectedEof
  {
    if |data| < p + HeaderLength then Err(UnexpectedEof)
    else Ok(JournalHeader(
          data[p..p + 8], Le32(data[p + 8..p + 12]), Le32(data[p + 12..p + 16]), StateOf(data[p + 16]),
          data[p + 17..p + 24],
          Be128(data[p + 24..p + 40]), Be128(data[p + 40..p + 56]), Be128(data[p + 56..p + 72]), Be128(data[p + 72..p + 88]),
          LeAt(data, p + 88),
          LeAt(data, p + 96),
          LeAt(data, p + 104),
          LeAt(data, p + 112),
          LeAt(data, p + 120),
          LeAt(data, p + 128),
          LeAt(data, p + 136),
          LeAt(data, p + 144),
          LeAt(data, p + 152),
          LeAt(data, p + 160),
          LeAt(data, p + 168),
          LeAt(data, p + 176),
          LeAt(data, p + 184),
          LeAt(data, p + 192),
          LeAt(data, p + 200),
          LeAt(data, p + 208),
          LeAt(data, p + 216),
          LeAt(data, p + 224),
          LeAt(data, p + 232)))
  }

  /** `JournalHeader::new`: reads the header from the cursor's position. */
  method ReadJournalHeader(file: Cursor) returns (r: Result<JournalHeader>)
    modifies file
    ensures r == JournalHeaderAt(file.data, old(file.pos))
    ensures r.Ok? ==> file.pos == old(file.pos) + HeaderLength
  {
    ghost var p := file.pos;
    var pre :- ReadPreamble(file);
    var ids :- ReadIds(file);
    var g0 :- ReadSizes(file);
    var g1 :- ReadHashTableBounds(file);
    var g2 :- ReadTail(file);
    var g3 :- ReadEntryBounds(file);
    var g4 :- ReadTimestamps(file);
    var g5 :- ReadObjectCounts(file);
    r := Ok(JournalHeader(pre.0, pre.1, pre.2, pre.3, pre.4, ids.0, ids.1, ids.2, ids.3,
                          g0.0, g0.1, g1.0, g1.1, g1.2, g1.3, g2.0, g2.1, g2.2, g2.3,
                          g3.0, g3.1, g4.0, g4.1, g4.2, g5.0, g5.1, g5.2, g5.3));
  }

  /** Signature, flags, state byte and reserved bytes: the first 24 bytes. */
  method ReadPreamble(file: Cursor) returns (r: Result<(seq<bv8>, bv32, bv32, JournalState, seq<bv8>)>)
    modifies file
    ensures r.Ok? <==> old(file.pos) + 24 <= |file.data|
    ensures r.Err? ==> r.error == UnexpectedEof
    ensures r.Ok? ==> var q := old(file.pos);
      r.value.0 == file.data[q..q + 8] && r.value.1 == Le32(file.data[q + 8..q + 12]) &&
      r.value.2 == Le32(file.data[q + 12..q + 16]) && r.value.3 == StateOf(file.data[q + 16]) &&
      r.value.4 == file.data[q + 17..q + 24]
    ensures r.Ok? ==> file.pos == old(file.pos) + 24
  {
    ghost var p := file.pos;
    var signature :- file.ReadExact(8);
    var compatibleFlags :- file.ReadU32();
    assert file.pos == p + 12;
    var incompatibleFlags :- file.ReadU32();
    assert file.pos == p + 16;
    var stateByte :- file.ReadU8();
    var state := StateOf(stateByte);
    var reserved :- file.ReadExact(7);
    r := Ok((signature, compatibleFlags, incompatibleFlags, state, reserved));
  }

  /** The file, machine, boot and sequence-number ids, each a big-endian u128. */
  method ReadIds(file: Cursor) returns (r: Result<(bv128, bv128, bv128, bv128)>)
    modifies file
    ensures r.Ok? <==> old(file.pos) + 64 <= |file.data|
    ensures r.Err? ==> r.error == UnexpectedEof
    ensures r.Ok? ==> var q := old(file.pos);
      r.value.0 == Be128(file.data[q..q + 16]) && r.value.1 == Be128(file.data[q + 16..q + 32]) &&
      r.value.2 == Be128(file.data[q + 32..q + 48]) && r.value.3 == Be128(file.data[q + 48..q + 64])
    ensures r.Ok? ==> file.pos == old(file.pos) + 64
  {
    ghost var p := file.pos;
    var fileId :- file.ReadU128Be();
    var machineId :- file.ReadU128Be();
    assert file.pos == p + 32;
    var bootId :- file.ReadU128Be();
    assert file.pos == p + 48;
    var seqnumId :- file.ReadU128Be();
    r := Ok((fileId, machineId, bootId, seqnumId));
  }

  // The nineteen u64 fields, in file order, read in short runs.

  method ReadSizes(file: Cursor) returns (r: Result<(bv64, bv64)>)
    modifies file
    ensures r.Ok? <==> old(file.pos) + 16 <= |file.data|
    ensures r.Err? ==> r.error == UnexpectedEof
    ensures r.Ok? ==> r.value.0 == LeAt(file.data, old(file.pos) + 0) &&
                      r.value.1 == LeAt(file.data, old(file.pos) + 8)
    ensures r.Ok? ==> file.pos == old(file.pos) + 16
  {
    ghost var p := file.pos;
    var headerSize :- file.ReadU64();
    assert file.pos == p + 8;
    var arenaSize :- file.ReadU64();
    r := Ok((headerSize, arenaSize));
  }

  method ReadHashTableBounds(file: Cursor) returns (r: Result<(bv64, bv64, bv64, bv64)>)
    modifies file
    ensures r.Ok? <==> old(file.pos) + 32 <= |file.data|
    ensures r.Err? ==> r.error == UnexpectedEof
    ensures r.Ok? ==> r.value.0 == LeAt(file.data, old(file.pos) + 0) &&
                      r.value.1 == LeAt(file.data, old(file.pos) + 8) &&
                      r.value.2 == LeAt(file.data, old(file.pos) + 16) &&
                      r.value.3 == LeAt(file.data, old(file.pos) + 24)
    ensures r.Ok? ==> file.pos == old(file.pos) + 32
  {
    ghost var p := file.pos;
    var dataHashTableOffset :- file.ReadU64();
    assert file.pos == p + 8;
    var dataHashTableSize :- file.ReadU64();
    assert file.pos == p + 16;
    var fieldHashTableOffset :- file.ReadU64();
    assert file.pos == p + 24;
    var fieldHashTableSize :- file.ReadU64();
    r := Ok((dataHashTableOffset, dataHashTableSize, fieldHashTableOffset, fieldHashTableSize));
  }

  method ReadTail(file: Cursor) returns (r: Result<(bv64, bv64, bv64, bv64)>)
    modifies file
    ensures r.Ok? <==> old(file.pos) + 32 <= |file.data|
    ensures r.Err? ==> r.error == UnexpectedEof
    ensures r.Ok? ==> r.value.0 == LeAt(file.data, old(file.pos) + 0) &&
                      r.value.1 == LeAt(file.data, old(file.pos) + 8) &&
                      r.value.2 == LeAt(file.data, old(file.pos) + 16) &&
                      r.value.3 == LeAt(file.data, old(file.pos) + 24)
    ensures r.Ok? ==> file.pos == old(file.pos) + 32
  {
    ghost var p := file.pos;
    var tailObjectOffset :- file.ReadU64();
    assert file.pos == p + 8;
    var nObjects :- file.ReadU64();
    assert file.pos == p + 16;
    var nEntries :- file.ReadU64();
    assert file.pos == p + 24;
    var tailEntrySeqnum :- file.ReadU64();
    r := Ok((tailObjectOffset, nObjects, nEntries, tailEntrySeqnum));
  }

  method ReadEntryBounds(file: Cursor) returns (r: Result<(bv64, bv64)>)
    modifies file
    ensures r.Ok? <==> old(file.pos) + 16 <= |file.data|
    ensures r.Err? ==> r.error == UnexpectedEof
    ensures r.Ok? ==> r.value.0 == LeAt(file.data, old(file.pos) + 0) &&
                      r.value.1 == LeAt(file.data, old(file.pos) + 8)
    ensures r.Ok? ==> file.pos == old(file.pos) + 16
  {
    ghost var p := file.pos;
    var headEntrySeqnum :- file.ReadU64();
    assert file.pos == p + 8;
    var entryArrayOffset :- file.ReadU64();
    r := Ok((headEntrySeqnum, entryArrayOffset));
  }

  method ReadTimestamps(file: Cursor) returns (r: Result<(bv64, bv64, bv64)>)
    modifies file
    ensures r.Ok? <==> old(file.pos) + 24 <= |file.data|
    ensures r.Err? ==> r.error == UnexpectedEof
    ensures r.Ok? ==> r.value.0 == LeAt(file.data, old(file.pos) + 0) &&
                      r.value.1 == LeAt(file.data, old(file.pos) + 8) &&
                      r.value.2 == LeAt(file.data, old(file.pos) + 16)
    ensures r.Ok? ==> file.pos == old(file.pos) + 24
  {
    ghost var p := file.pos;
    var headEntryRealtime :- file.ReadU64();
    assert file.pos == p + 8;
    var tailEntryRealtime :- file.ReadU64();
    assert file.pos == p + 16;
    var tailEntryMonotonic :- file.ReadU64();
    r := Ok((headEntryRealtime, tailEntryRealtime, tailEntryMonotonic));
  }

  method ReadObjectCounts(file: Cursor) returns (r: Result<(bv64, bv64, bv64, bv64)>)
    modifies file
    ensures r.Ok? <==> old(file.pos) + 32 <= |file.data|
    ensures r.Err? ==> r.error == UnexpectedEof
    ensures r.Ok? ==> r.value.0 == LeAt(file.data, old(file.pos) + 0) &&
                      r.value.1 == LeAt(file.data, old(file.pos) + 8) &&
                      r.value.2 == LeAt(file.data, old(file.pos) + 16) &&
                      r.value.3 == LeAt(file.data, old(file.pos) + 24)
    ensures r.Ok? ==> file.pos == old(file.pos) + 32
  {
    ghost var p := file.pos;
    var nData :- file.ReadU64();
    assert file.pos == p + 8;
    var nFields :- file.ReadU64();
    assert file.pos == p + 16;
    var nTags :- file.ReadU64();
    assert file.pos == p + 24;
    var nEntryArrays :- file.ReadU64();
    r := Ok((nData, nFields, nTags, nEntryArrays));
  }

  /** Byte arrays of the sizes the reader takes. */
  predicate WellSized(h: JournalHeader)
  {
    |h.signature| == 8 && |h.reserved| == 7
  }

  // The encoder writes each run of fields the reader reads in one step,
  // followed by whatever comes after it (`rest`).

  /** Signature, flags, state byte and reserved bytes. */
  function EncodePreamble(h: JournalHeader, rest: seq<bv8>): (r: seq<bv8>)
    requires WellSized(h)
    ensures |r| == 24 + |rest| && r[24..] == rest
  {
    h.signature + (ToLe32(h.compatibleFlags) + (ToLe32(h.incompatibleFlags) + ([StateCode(h.state)] + (h.reserved + rest))))
  }

  /** The four ids, big-endian. */
  function EncodeIds(h: JournalHeader, rest: seq<bv8>): (r: seq<bv8>)
    ensures |r| == 64 + |rest| && r[64..] == rest
  {
    ToBe128(h.fileId) + (ToBe128(h.machineId) + (ToBe128(h.bootId) + (ToBe128(h.seqnumId) + rest)))
  }

  /** The header and arena sizes. */
  function EncodeSizes(h: JournalHeader, rest: seq<bv8>): (r: seq<bv8>)
    ensures |r| == 16 + |rest| && r[16..] == rest
  {
    ToLe64(h.headerSize) + (ToLe64(h.arenaSize) + rest)
  }

  /** The offsets and sizes of the two hash tables. */
  function EncodeHashTableBounds(h: JournalHeader, rest: seq<bv8>): (r: seq<bv8>)
    ensures |r| == 32 + |rest| && r[32..] == rest
  {
    ToLe64(h.dataHashTableOffset) + (ToLe64(h.dataHashTableSize) + (ToLe64(h.fieldHashTableOffset) + (ToLe64(h.fieldHashTableSize) + rest)))
  }

  /** The tail object offset, the object and entry counts and the tail entry's sequence number. */
  function EncodeTail(h: JournalHeader, rest: seq<bv8>): (r: seq<bv8>)
    ensures |r| == 32 + |rest| && r[32..] == rest
  {
    ToLe64(h.tailObjectOffset) + (ToLe64(h.nObjects) + (ToLe64(h.nEntries) + (ToLe64(h.tailEntrySeqnum) + rest)))
  }

  /** The head entry's sequence number and the entry array offset. */
  function EncodeEntryBounds(h: JournalHeader, rest: seq<bv8>): (r: seq<bv8>)
    ensures |r| == 16 + |rest| && r[16..] == rest
  {
    ToLe64(h.headEntrySeqnum) + (ToLe64(h.entryArrayOffset) + rest)
  }

  /** The head and tail entry timestamps. */
  function EncodeTimestamps(h: JournalHeader, rest: seq<bv8>): (r: seq<bv8>)
    ensures |r| == 24 + |rest| && r[24..] == rest
  {
    ToLe64(h.headEntryRealtime) + (ToLe64(h.tailEntryRealtime) + (ToLe64(h.tailEntryMonotonic) + rest))
  }

  /** The data, field, tag and entry array counts. */
  function EncodeObjectCounts(h: JournalHeader, rest: seq<bv8>): (r: seq<bv8>)
    ensures |r| == 32 + |rest| && r[32..] == rest
  {
    ToLe64(h.nData) + (ToLe64(h.nFields) + (ToLe64(h.nTags) + (ToLe64(h.nEntryArrays) + rest)))
  }

  /** The 240 bytes a header is written as: the inverse of `JournalHeaderAt`. */
  function EncodeJournalHeader(h: JournalHeader): (r: seq<bv8>)
    requires WellSized(h)
    ensures |r| == HeaderLength
  {
    EncodePreamble(h, EncodeIds(h, EncodeSizes(h, EncodeHashTableBounds(h, EncodeTail(h, EncodeEntryBounds(h, EncodeTimestamps(h, EncodeObjectCounts(h, []))))))))
  }

  /** Where each run of fields starts in an encoded header. */
  lemma EncodedRuns(h: JournalHeader)
    requires WellSized(h)
    ensures var e := EncodeJournalHeader(h);
      e[24..] == EncodeIds(h, EncodeSizes(h, EncodeHashTableBounds(h, EncodeTail(h, EncodeEntryBounds(h, EncodeTimestamps(h, EncodeObjectCounts(h, []))))))) &&
      e[88..] == EncodeSizes(h, EncodeHashTableBounds(h, EncodeTail(h, EncodeEntryBounds(h, EncodeTimestamps(h, EncodeObjectCounts(h, [])))))) &&
      e[104..] == EncodeHashTableBounds(h, EncodeTail(h, EncodeEntryBounds(h, EncodeTimestamps(h, EncodeObjectCounts(h, []))))) &&
      e[136..] == EncodeTail(h, EncodeEntryBounds(h, EncodeTimestamps(h, EncodeObjectCounts(h, [])))) &&
      e[168..] == EncodeEntryBounds(h, EncodeTimestamps(h, EncodeObjectCounts(h, []))) &&
      e[184..] == EncodeTimestamps(h, EncodeObjectCounts(h, [])) &&
      e[208..] == EncodeObjectCounts(h, [])
  {
    var e := EncodeJournalHeader(h);
    assert e[24..] == e[0..][24..];
    assert e[88..] == e[24..][64..];
    assert e[104..] == e[88..][16..];
    assert e[136..] == e[104..][32..];
    assert e[168..] == e[136..][32..];
    assert e[184..] == e[168..][16..];
    assert e[208..] == e[184..][24..];
  }

  /** What follows position `k` starts with `a` and continues with `rest`. */
  lemma Peel<T>(d: seq<T>, k: nat, a: seq<T>, rest: seq<T>)
    requires k <= |d| && d[k..] == a + rest
    ensures d[k..k + |a|] == a && d[k + |a|..] == rest
  {
    assert d[k..k + |a|] == (a + rest)[..|a|];
  }

  lemma U64Decodes(d: seq<bv8>, k: nat, x: bv64, rest: seq<bv8>)
    requires k <= |d| && d[k..] == ToLe64(x) + rest
    ensures k + 8 <= |d| && LeAt(d, k) == x && d[k + 8..] == rest
  {
    Peel(d, k, ToLe64(x), rest);
    Le64OfToLe64(x);
  }

  lemma U128BeDecodes(d: seq<bv8>, k: nat, x: bv128, rest: seq<bv8>)
    requires k <= |d| && d[k..] == ToBe128(x) + rest
    ensures k + 16 <= |d| && Be128(d[k..k + 16]) == x && d[k + 16..] == rest
  {
    Peel(d, k, ToBe128(x), rest);
    Be128OfToBe128(x);
  }

  lemma PreambleDecode(d: seq<bv8>, k: nat, h: JournalHeader, rest: seq<bv8>)
    requires WellSized(h) && k <= |d| && d[k..] == EncodePreamble(h, rest)
    ensures k + 24 <= |d|
    ensures d[k..k + 8] == h.signature && Le32(d[k + 8..k + 12]) == h.compatibleFlags &&
            Le32(d[k + 12..k + 16]) == h.incompatibleFlags && StateOf(d[k + 16]) == h.state &&
            d[k + 17..k + 24] == h.reserved
  {
    var t3 := [StateCode(h.state)] + (h.reserved + rest);
    var t2 := ToLe32(h.incompatibleFlags) + t3;
    Peel(d, k, h.signature, ToLe32(h.compatibleFlags) + t2);
    Peel(d, k + 8, ToLe32(h.compatibleFlags), t2);
    Peel(d, k + 12, ToLe32(h.incompatibleFlags), t3);
    Peel(d, k + 16, [StateCode(h.state)], h.reserved + rest);
    assert d[k + 16] == d[k + 16..k + 17][0];
    Peel(d, k + 17, h.reserved, rest);
    Le32OfToLe32(h.compatibleFlags);
    Le32OfToLe32(h.incompatibleFlags);
    StateOfCode(h.state);
  }

  lemma IdsDecode(d: seq<bv8>, k: nat, h: JournalHeader, rest: seq<bv8>)
    requires k <= |d| && d[k..] == EncodeIds(h, rest)
    ensures k + 64 <= |d|
    ensures Be128(d[k..k + 16]) == h.fileId && Be128(d[k + 16..k + 32]) == h.machineId &&
            Be128(d[k + 32..k + 48]) == h.bootId && Be128(d[k + 48..k + 64]) == h.seqnumId
  {
    var t3 := ToBe128(h.seqnumId) + rest;
    var t2 := ToBe128(h.bootId) + t3;
    U128BeDecodes(d, k, h.fileId, ToBe128(h.machineId) + t2);
    U128BeDecodes(d, k + 16, h.machineId, t2);
    U128BeDecodes(d, k + 32, h.bootId, t3);
    U128BeDecodes(d, k + 48, h.seqnumId, rest);
  }

  lemma SizesDecode(d: seq<bv8>, k: nat, h: JournalHeader, rest: seq<bv8>)
    requires k <= |d| && d[k..] == EncodeSizes(h, rest)
    ensures k + 16 <= |d|
    ensures LeAt(d, k + 0) == h.headerSize &&
            LeAt(d, k + 8) == h.arenaSize
  {
    U64Decodes(d, k + 0, h.headerSize, ToLe64(h.arenaSize) + rest);
    U64Decodes(d, k + 8, h.arenaSize, rest);
  }

  lemma HashTableBoundsDecode(d: seq<bv8>, k: nat, h: JournalHeader, rest: seq<bv8>)
    requires k <= |d| && d[k..] == EncodeHashTableBounds(h, rest)
    ensures k + 32 <= |d|
    ensures LeAt(d, k + 0) == h.dataHashTableOffset &&
            LeAt(d, k + 8) == h.dataHashTableSize &&
            LeAt(d, k + 16) == h.fieldHashTableOffset &&
            LeAt(d, k + 24) == h.fieldHashTableSize
  {
    U64Decodes(d, k + 0, h.dataHashTableOffset, ToLe64(h.dataHashTableSize) + (ToLe64(h.fieldHashTableOffset) + (ToLe64(h.fieldHashTableSize) + rest)));
    U64Decodes(d, k + 8, h.dataHashTableSize, ToLe64(h.fieldHashTableOffset) + (ToLe64(h.fieldHashTableSize) + rest));
    U64Decodes(d, k + 16, h.fieldHashTableOffset, ToLe64(h.fieldHashTableSize) + rest);
    U64Decodes(d, k + 24, h.fieldHashTableSize, rest);
  }

  lemma TailDecode(d: seq<bv8>, k: nat, h: JournalHeader, rest: seq<bv8>)
    requires k <= |d| && d[k..] == EncodeTail(h, rest)
    ensures k + 32 <= |d|
    ensures LeAt(d, k + 0) == h.tailObjectOffset &&
            LeAt(d, k + 8) == h.nObjects &&
            LeAt(d, k + 16) == h.nEntries &&
            LeAt(d, k + 24) == h.tailEntrySeqnum
  {
    U64Decodes(d, k + 0, h.tailObjectOffset, ToLe64(h.nObjects) + (ToLe64(h.nEntries) + (ToLe64(h.tailEntrySeqnum) + rest)));
    U64Decodes(d, k + 8, h.nObjects, ToLe64(h.nEntries) + (ToLe64(h.tailEntrySeqnum) + rest));
    U64Decodes(d, k + 16, h.nEntries, ToLe64(h.tailEntrySeqnum) + rest);
    U64Decodes(d, k + 24, h.tailEntrySeqnum, rest);
  }

  lemma EntryBoundsDecode(d: seq<bv8>, k: nat, h: JournalHeader, rest: seq<bv8>)
    requires k <= |d| && d[k..] == EncodeEntryBounds(h, rest)
    ensures k + 16 <= |d|
    ensures LeAt(d, k + 0) == h.headEntrySeqnum &&
            LeAt(d, k + 8) == h.entryArrayOffset
  {
    U64Decodes(d, k + 0, h.headEntrySeqnum, ToLe64(h.entryArrayOffset) + rest);
    U64Decodes(d, k + 8, h.entryArrayOffset, rest);
  }

  lemma TimestampsDecode(d: seq<bv8>, k: nat, h: JournalHeader, rest: seq<bv8>)
    requires k <= |d| && d[k..] == EncodeTimestamps(h, rest)
    ensures k + 24 <= |d|
    ensures LeAt(d, k + 0) == h.headEntryRealtime &&
            LeAt(d, k + 8) == h.tailEntryRealtime &&
            LeAt(d, k + 16) == h.tailEntryMonotonic
  {
    U64Decodes(d, k + 0, h.headEntryRealtime, ToLe64(h.tailEntryRealtime) + (ToLe64(h.tailEntryMonotonic) + rest));
    U64Decodes(d, k + 8, h.tailEntryRealtime, ToLe64(h.tailEntryMonotonic) + rest);
    U64Decodes(d, k + 16, h.tailEntryMonotonic, rest);
  }

  lemma ObjectCountsDecode(d: seq<bv8>, k: nat, h: JournalHeader, rest: seq<bv8>)
    requires k <= |d| && d[k..] == EncodeObjectCounts(h, rest)
    ensures k + 32 <= |d|
    ensures LeAt(d, k + 0) == h.nData &&
            LeAt(d, k + 8) == h.nFields &&
            LeAt(d, k + 16) == h.nTags &&
            LeAt(d, k + 24) == h.nEntryArrays
  {
    U64Decodes(d, k + 0, h.nData, ToLe64(h.nFields) + (ToLe64(h.nTags) + (ToLe64(h.nEntryArrays) + rest)));
    U64Decodes(d, k + 8, h.nFields, ToLe64(h.nTags) + (ToLe64(h.nEntryArrays) + rest));
    U64Decodes(d, k + 16, h.nTags, ToLe64(h.nEntryArrays) + rest);
    U64Decodes(d, k + 24, h.nEntryArrays, rest);
  }

  /** A buffer holding each of `h`'s fields where the reader looks reads back as `h`. */
  lemma FieldsDetermineHeader(d: seq<bv8>, h: JournalHeader)
    requires |d| == HeaderLength &&
             d[..8] == h.signature &&
             Le32(d[8..12]) == h.compatibleFlags &&
             Le32(d[12..16]) == h.incompatibleFlags &&
             StateOf(d[16]) == h.state &&
             d[17..24] == h.reserved &&
             Be128(d[24..40]) == h.fileId &&
             Be128(d[40..56]) == h.machineId &&
             Be128(d[56..72]) == h.bootId &&
             Be128(d[72..88]) == h.seqnumId &&
             LeAt(d, 88) == h.headerSize &&
             LeAt(d, 96) == h.arenaSize &&
             LeAt(d, 104) == h.dataHashTableOffset &&
             LeAt(d, 112) == h.dataHashTableSize &&
             LeAt(d, 120) == h.fieldHashTableOffset &&
             LeAt(d, 128) == h.fieldHashTableSize &&
             LeAt(d, 136) == h.tailObjectOffset &&
             LeAt(d, 144) == h.nObjects &&
             LeAt(d, 152) == h.nEntries &&
             LeAt(d, 160) == h.tailEntrySeqnum &&
             LeAt(d, 168) == h.headEntrySeqnum &&
             LeAt(d, 176) == h.entryArrayOffset &&
             LeAt(d, 184) == h.headEntryRealtime &&
             LeAt(d, 192) == h.tailEntryRealtime &&
             LeAt(d, 200) == h.tailEntryMonotonic &&
             LeAt(d, 208) == h.nData &&
             LeAt(d, 216) == h.nFields &&
             LeAt(d, 224) == h.nTags &&
             LeAt(d, 232) == h.nEntryArrays
    ensures JournalHeaderAt(d, 0) == Ok(h)
  {
    HeadersEqual(JournalHeaderAt(d, 0).value, h);
  }

  lemma HeadersEqual(a: JournalHeader, b: JournalHeader)
    requires a.signature == b.signature &&
             a.compatibleFlags == b.compatibleFlags &&
             a.incompatibleFlags == b.incompatibleFlags &&
             a.state == b.state &&
             a.reserved == b.reserved &&
             a.fileId == b.fileId &&
             a.machineId == b.machineId &&
             a.bootId == b.bootId &&
             a.seqnumId == b.seqnumId &&
             a.headerSize == b.headerSize &&
             a.arenaSize == b.arenaSize &&
             a.dataHashTableOffset == b.dataHashTableOffset &&
             a.dataHashTableSize == b.dataHashTableSize &&
             a.fieldHashTableOffset == b.fieldHashTableOffset &&
             a.fieldHashTableSize == b.fieldHashTableSize &&
             a.tailObjectOffset == b.tailObjectOffset &&
             a.nObjects == b.nObjects &&
             a.nEntries == b.nEntries &&
             a.tailEntrySeqnum == b.tailEntrySeqnum &&
             a.headEntrySeqnum == b.headEntrySeqnum &&
             a.entryArrayOffset == b.entryArrayOffset &&
             a.headEntryRealtime == b.headEntryRealtime &&
             a.tailEntryRealtime == b.tailEntryRealtime &&
             a.tailEntryMonotonic == b.tailEntryMonotonic &&
             a.nData == b.nData &&
             a.nFields == b.nFields &&
             a.nTags == b.nTags &&
             a.nEntryArrays == b.nEntryArrays
    ensures a == b
  {
  }

  /** Reading back what `EncodeJournalHeader` writes gives the header again. */
  lemma JournalHeaderRoundTrip(h: JournalHeader)
    requires WellSized(h)
    ensures JournalHeaderAt(EncodeJournalHeader(h), 0) == Ok(h)
  {
    var e := EncodeJournalHeader(h);
    EncodedRuns(h);
    assert e[0..] == e;
    PreambleDecode(e, 0, h, EncodeIds(h, EncodeSizes(h, EncodeHashTableBounds(h, EncodeTail(h, EncodeEntryBounds(h, EncodeTimestamps(h, EncodeObjectCounts(h, []))))))));
    IdsDecode(e, 24, h, EncodeSizes(h, EncodeHashTableBounds(h, EncodeTail(h, EncodeEntryBounds(h, EncodeTimestamps(h, EncodeObjectCounts(h, [])))))));
    SizesDecode(e, 88, h, EncodeHashTableBounds(h, EncodeTail(h, EncodeEntryBounds(h, EncodeTimestamps(h, EncodeObjectCounts(h, []))))));
    HashTableBoundsDecode(e, 104, h, EncodeTail(h, EncodeEntryBounds(h, EncodeTimestamps(h, EncodeObjectCounts(h, [])))));
    TailDecode(e, 136, h, EncodeEntryBounds(h, EncodeTimestamps(h, EncodeObjectCounts(h, []))));
    EntryBoundsDecode(e, 168, h, EncodeTimestamps(h, EncodeObjectCounts(h, [])));
    TimestampsDecode(e, 184, h, EncodeObjectCounts(h, []));
    ObjectCountsDecode(e, 208, h, []);
    FieldsDetermineHeader(e, h);
  }
}
