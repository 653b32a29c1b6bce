/**
 * The journal file's objects and their decoding from sdjournal's
 * journal.rs: the offset helpers, the object header and the six object
 * kinds, `get_obj_at_offset` (a cursor-driven decoder, modelled as a method
 * proved equal to a declarative layout function) and the Entry hash.
 *
 * u64 arithmetic is bv64 and wraps. A u64 subtraction that underflows in
 * the source (an object smaller than its fixed part) panics there and is
 * the error `SizeUnderflow` here.
 */
module Journal {
  import opened Bytes
  import Lookup3

  const ObjectHeaderSize: bv64 := 16
  const ObjectCompressedXz: bv8 := 1
  const ObjectCompressedLz4: bv8 := 2
  const ObjectCompressedMask: bv8 := ObjectCompressedXz | ObjectCompressedLz4
  const TagLength: nat := 32

  /** Nesting depth the Entry decoder follows; the source recurses without a bound. */
  const MaxDepth: nat := 8

  // ---------------------------------------------------------------------
  // Offsets

  /** An offset is valid when it is 8-byte aligned. */
  predicate IsValid64(u: bv64)
  {
    u & 7 == 0
  }

  lemma IsValid64Multiple(u: bv64)
    ensures IsValid64(u) <==> u % 8 == 0
  {
  }

  /**
   * Rounds up to the next multiple of 8. The sum wraps: for the seven
   * largest values the result is 0.
   */
  function Align64(u: bv64): (r: bv64)
    ensures IsValid64(r)
  {
    (u + 7) & !7
  }

  /** A valid offset is its own alignment; in particular `Align64` is idempotent. */
  lemma Align64Fixes(u: bv64)
    ensures IsValid64(u) ==> Align64(u) == u
    ensures Align64(Align64(u)) == Align64(u)
  {
  }

  /** Without wrap-around, `Align64(u)` is at most 7 above u ... */
  lemma Align64Rounds(u: bv64)
    requires u <= 0xffff_ffff_ffff_fff8
    ensures u <= Align64(u) && Align64(u) - u < 8
  {
  }

  /** ... and no valid offset lies between u and `Align64(u)`. */
  lemma Align64Least(u: bv64, m: bv64)
    requires u <= 0xffff_ffff_ffff_fff8
    requires IsValid64(m) && u <= m
    ensures Align64(u) <= m
  {
  }

  // ---------------------------------------------------------------------
  // Objects

  datatype ObjectType =
    | ObjectUnused
    | ObjectData
    | ObjectField
    | ObjectEntry
    | ObjectDataHashTable
    | ObjectFieldHashTable
    | ObjectEntryArray
    | ObjectTag
    | ObjectTypeMax

  /** The object kind a type byte names; every value above 7 is `ObjectTypeMax`. */
  function KindOf(t: bv8): ObjectType
  {
    if t == 0 then ObjectUnused
    else if t == 1 then ObjectData
    else if t == 2 then ObjectField
    else if t == 3 then ObjectEntry
    else if t == 4 then ObjectDataHashTable
    else if t == 5 then ObjectFieldHashTable
    else if t == 6 then ObjectEntryArray
    else if t == 7 then ObjectTag
    else ObjectTypeMax
  }

  /** The 16-byte header every object starts with. */
  datatype ObjectHeader = ObjectHeader(kind: ObjectType, flags: bv8, reserved: seq<bv8>, size: bv64)

  datatype DataObject = DataObject(
    header: ObjectHeader,
    hash: bv64,
    nextHashOffset: bv64,
    nextFieldOffset: bv64,
    entryOffset: bv64,
    entryArrayOffset: bv64,
    nEntries: bv64,
    payload: seq<bv8>)

  datatype FieldObject = FieldObject(
    header: ObjectHeader,
    hash: bv64,
    nextHashOffset: bv64,
    headDataOffset: bv64,
    payload: seq<bv8>)

  /** An Entry item carries the object it points to, decoded recursively. */
  datatype EntryItem = EntryItem(objectOffset: bv64, hash: bv64, item: Object)

  datatype EntryObject = EntryObject(
    header: ObjectHeader,
    seqnum: bv64,
    realtime: bv64,
    monotonic: bv64,
    bootId: bv128,
    xorHash: bv64,
    items: seq<EntryItem>)

  datatype HashItem = HashItem(hashHeadOffset: bv64, tailHashOffset: bv64)

  datatype HashTableObject = HashTableObject(header: ObjectHeader, items: seq<HashItem>)

  datatype EntryArrayObject = EntryArrayObject(header: ObjectHeader, nextEntryArrayOffset: bv64, items: seq<bv64>)

  datatype TagObject = TagObject(header: ObjectHeader, seqnum: bv64, epoch: bv64, tag: seq<bv8>)

  datatype Object =
    | Data(data: DataObject)
    | Field(field: FieldObject)
    | Entry(entry: EntryObject)
    | HashTable(table: HashTableObject)
    | EntryArray(entryArray: EntryArrayObject)
    | Tag(tag: TagObject)
  {
    function Header(): ObjectHeader
    {
      match this
      case Data(d) => d.header
      case Field(f) => f.header
      case Entry(e) => e.header
      case HashTable(t) => t.header
      case EntryArray(a) => a.header
      case Tag(t) => t.header
    }
  }

  /** `SizedObject::size`: the size recorded in the object's header. */
  function Size(o: Object): bv64
  {
    o.Header().size
  }

  /** The object is compressed when either compression flag is set. */
  function IsCompressed(h: ObjectHeader): (r: bool)
    ensures r <==> h.flags & ObjectCompressedXz != 0 || h.flags & ObjectCompressedLz4 != 0
  {
    h.flags & ObjectCompressedMask != 0
  }

  /**
   * A payload that starts with an underscore names a field only journald
   * itself writes. Indexing an empty payload panics in the source.
   */
  predicate PayloadIsTrusted(d: DataObject)
    requires |d.payload| > 0
  {
    d.payload[0] == 0x5f
  }

  /** `HashableObject::hash` of a Data object: the lookup3 64-bit hash of its payload. */
  function DataHash(d: DataObject): bv64
  {
    Lookup3.Rhash64(d.payload)
  }

  // ---------------------------------------------------------------------
  // The on-disk layout of an object at an offset

  /** Header fields after the type byte: flags, six reserved bytes, the LE size. */
  function HeaderAt(data: seq<bv8>, p: nat, kind: ObjectType): (r: Result<ObjectHeader>)
    ensures r.Ok? <==> p + 16 <= |data|
    ensures r.Ok? ==> r.value.kind == kind && r.value.flags == data[p + 1] &&
                      r.value.reserved == data[p + 2..p + 8] && r.value.size == LeAt(data, p + 8)
  {
    if |data| < p + 16 then Err(UnexpectedEof)
    else Ok(ObjectHeader(kind, data[p + 1], data[p + 2..p + 8], LeAt(data, p + 8)))
  }

  /**
   * The object at `offset`. `fuel` bounds how deep Entry items are followed;
   * past it decoding fails with `TooDeep`.
   */
  function ObjectAt(data: seq<bv8>, offset: bv64, fuel: nat): Result<Object>
    decreases fuel, 4
  {
    if !IsValid64(offset) then Err(InvalidOffset)
    else if |data| <= offset as nat then Err(UnexpectedEof)
    else ObjectOfKind(data, offset as nat, KindOf(data[offset as nat]), fuel)
  }

  /** The object at `p` whose type byte names `kind`: each kind reads the header, then its own fields. */
  function ObjectOfKind(data: seq<bv8>, p: nat, kind: ObjectType, fuel: nat): Result<Object>
    decreases fuel, 3
  {
    match kind
    case ObjectUnused => Err(UnusedObject)
    case ObjectTypeMax => Err(UnusedMaxObject)
    case ObjectData =>
      var h :- HeaderAt(data, p, kind); DataAt(data, p, h)
    case ObjectField =>
      var h :- HeaderAt(data, p, kind); FieldAt(data, p, h)
    case ObjectEntry =>
      var h :- HeaderAt(data, p, kind); EntryAt(data, p, h, fuel)
    case ObjectDataHashTable =>
      var h :- HeaderAt(data, p, kind); HashTableAt(data, p, h)
    case ObjectFieldHashTable =>
      var h :- HeaderAt(data, p, kind); HashTableAt(data, p, h)
    case ObjectEntryArray =>
      var h :- HeaderAt(data, p, kind); EntryArrayAt(data, p, h)
    case ObjectTag =>
      var h :- HeaderAt(data, p, kind); TagAt(data, p, h)
  }

  /** `size - fixed` underflows: the object is smaller than its fixed part. */
  predicate Underflows(size: bv64, fixed: nat)
  {
    size as nat < fixed
  }

  /** The bytes an object has past its fixed part. */
  function Rest(size: bv64, fixed: nat): nat
    requires !Underflows(size, fixed)
  {
    size as nat - fixed
  }

  /** Data: six u64 fields, then `size - 64` payload bytes. */
  function DataAt(data: seq<bv8>, p: nat, h: ObjectHeader): (r: Result<Object>)
  {
    var d :- DataFieldsAt(data, p, h);
    if Underflows(h.size, 64) then Err(SizeUnderflow)
    else
      var payload :- BytesAt(data, p + 64, Rest(h.size, 64));
      Ok(Data(d.(payload := payload)))
  }

  /** The fixed part of a Data object, with its payload still empty. */
  function DataFieldsAt(data: seq<bv8>, p: nat, h: ObjectHeader): Result<DataObject>
  {
    if |data| < p + 64 then Err(UnexpectedEof)
    else Ok(DataObject(h, LeAt(data, p + 16), LeAt(data, p + 24), LeAt(data, p + 32),
                       LeAt(data, p + 40), LeAt(data, p + 48), LeAt(data, p + 56), []))
  }

  /** Field: three u64 fields, then `size - 40` payload bytes. */
  function FieldAt(data: seq<bv8>, p: nat, h: ObjectHeader): (r: Result<Object>)
  {
    if |data| < p + 40 then Err(UnexpectedEof)
    else if Underflows(h.size, 40) then Err(SizeUnderflow)
    else
      var payload :- BytesAt(data, p + 40, Rest(h.size, 40));
      Ok(Field(FieldObject(h, LeAt(data, p + 16), LeAt(data, p + 24), LeAt(data, p + 32), payload)))
  }

  /**
   * The number of items an Entry decodes. With n = (size - 48) / 16 the
   * source loops over 1..n, which is n - 1 items (none when n is 0).
   */
  function EntryItemCount(size: bv64): nat
    requires !Underflows(size, 48)
  {
    var n := Rest(size, 48) / 16;
    if n == 0 then 0 else n - 1
  }

  /** Entry: its fixed fields, then the items. */
  function EntryAt(data: seq<bv8>, p: nat, h: ObjectHeader, fuel: nat): (r: Result<Object>)
    decreases fuel, 2
  {
    var e :- EntryFieldsAt(data, p, h);
    if Underflows(h.size, 48) then Err(SizeUnderflow)
    else
      var items :- EntryItemsAt(data, p + 64, EntryItemCount(h.size), fuel);
      Ok(Entry(e.(items := items)))
  }

  /** seqnum, realtime, monotonic, a LE u128 boot id and xor_hash; no items yet. */
  function EntryFieldsAt(data: seq<bv8>, p: nat, h: ObjectHeader): Result<EntryObject>
  {
    if |data| < p + 64 then Err(UnexpectedEof)
    else Ok(EntryObject(h, LeAt(data, p + 16), LeAt(data, p + 24), LeAt(data, p + 32),
                        Le128(data[p + 40..p + 56]), LeAt(data, p + 56), []))
  }

  /**
   * The first `count` Entry items stored from `base`, 16 bytes each. Items
   * are read in order, so the first failure is the result.
   */
  function EntryItemsAt(data: seq<bv8>, base: nat, count: nat, fuel: nat): (r: Result<seq<EntryItem>>)
    decreases fuel, 1, count
    ensures r.Ok? ==> |r.value| == count
  {
    if count == 0 then Ok([])
    else
      var prefix :- EntryItemsAt(data, base, count - 1, fuel);
      var item :- EntryItemAt(data, base + 16 * (count - 1), fuel);
      Ok(prefix + [item])
  }

  /** One Entry item: an object offset and a hash, with the object the offset names. */
  function EntryItemAt(data: seq<bv8>, q: nat, fuel: nat): Result<EntryItem>
    decreases fuel, 0
  {
    if |data| < q + 16 then Err(UnexpectedEof)
    else if fuel == 0 then Err(TooDeep)
    else
      var item :- ObjectAt(data, LeAt(data, q), fuel - 1);
      Ok(EntryItem(LeAt(data, q), LeAt(data, q + 8), item))
  }

  function HashItemCount(size: bv64): nat
    requires !Underflows(size, 48)
  {
    Rest(size, 48) / 16
  }

  /** Both hash-table kinds: (size - 48) / 16 items right after the header. */
  function HashTableAt(data: seq<bv8>, p: nat, h: ObjectHeader): (r: Result<Object>)
  {
    if Underflows(h.size, 48) then Err(SizeUnderflow)
    else
      var items :- HashItemsAt(data, p + 16, HashItemCount(h.size));
      Ok(HashTable(HashTableObject(h, items)))
  }

  function HashItemsAt(data: seq<bv8>, base: nat, count: nat): (r: Result<seq<HashItem>>)
    ensures r.Ok? <==> count == 0 || base + 16 * count <= |data|
    ensures r.Err? ==> r.error == UnexpectedEof
    ensures r.Ok? ==> |r.value| == count
  {
    if count == 0 then Ok([])
    else
      var prefix :- HashItemsAt(data, base, count - 1);
      var q := base + 16 * (count - 1);
      if |data| < q + 16 then Err(UnexpectedEof)
      else Ok(prefix + [HashItem(LeAt(data, q), LeAt(data, q + 8))])
  }

  /** Entry array: the next-array offset, then (size - 20) / 8 slots, zeros dropped. */
  function EntryArrayAt(data: seq<bv8>, p: nat, h: ObjectHeader): (r: Result<Object>)
  {
    if |data| < p + 24 then Err(UnexpectedEof)
    else if Underflows(h.size, 20) then Err(SizeUnderflow)
    else
      var slots :- SlotsAt(data, p + 24, SlotCount(h.size));
      Ok(EntryArray(EntryArrayObject(h, LeAt(data, p + 16), DropZeros(slots))))
  }

  function SlotCount(size: bv64): nat
    requires !Underflows(size, 20)
  {
    Rest(size, 20) / 8
  }

  /** The `count` little-endian u64 slots stored from `base`. */
  function SlotsAt(data: seq<bv8>, base: nat, count: nat): (r: Result<seq<bv64>>)
    ensures r.Ok? <==> count == 0 || base + 8 * count <= |data|
    ensures r.Err? ==> r.error == UnexpectedEof
    ensures r.Ok? ==> |r.value| == count
  {
    if count == 0 then Ok([])
    else
      var prefix :- SlotsAt(data, base, count - 1);
      var slot :- U64At(data, base + 8 * (count - 1));
      Ok(prefix + [slot])
  }

  /** The slots with every zero (an unused slot) left out, the rest in file order. */
  function DropZeros(s: seq<bv64>): seq<bv64>
  {
    if s == [] then []
    else DropZeros(s[..|s| - 1]) + (if s[|s| - 1] == 0 then [] else [s[|s| - 1]])
  }

  lemma DropZerosSnoc(s: seq<bv64>, x: bv64)
    ensures DropZeros(s + [x]) == DropZeros(s) + (if x == 0 then [] else [x])
  {
    assert (s + [x])[..|s + [x]| - 1] == s;
  }

  /** Tag: seqnum, epoch and the 32-byte HMAC tag. */
  function TagAt(data: seq<bv8>, p: nat, h: ObjectHeader): (r: Result<Object>)
  {
    if |data| < p + 32 + TagLength then Err(UnexpectedEof)
    else Ok(Tag(TagObject(h, LeAt(data, p + 16), LeAt(data, p + 24), data[p + 32..p + 32 + TagLength])))
  }

  /** How far past its offset the decoder has read once an object is decoded. */
  function Span(o: Object): nat
  {
    match o
    case Data(d) => 64 + |d.payload|
    case Field(f) => 40 + |f.payload|
    case Entry(e) => 64 + 16 * |e.items|
    case HashTable(t) => 16 + 16 * |t.items|
    case EntryArray(a) => 24 + 8 * (if Underflows(a.header.size, 20) then 0 else SlotCount(a.header.size))
    case Tag(_) => 32 + TagLength
  }

  // ---------------------------------------------------------------------
  // What the layout promises

  /** An unaligned offset is refused whatever the file holds. */
  lemma UnalignedRejected(data: seq<bv8>, offset: bv64, fuel: nat)
    requires !IsValid64(offset)
    ensures ObjectAt(data, offset, fuel) == Err(InvalidOffset)
  {
  }

  /** The object's constructor agrees with the kind its header records. */
  predicate KindAgrees(o: Object)
  {
    match o
    case Data(d) => d.header.kind == ObjectData
    case Field(f) => f.header.kind == ObjectField
    case Entry(e) => e.header.kind == ObjectEntry
    case HashTable(t) => t.header.kind == ObjectDataHashTable || t.header.kind == ObjectFieldHashTable
    case EntryArray(a) => a.header.kind == ObjectEntryArray
    case Tag(t) => t.header.kind == ObjectTag
  }

  /** Type dispatch: type 0 is "Unused Object" and a type above 7 is "Unused MAX Object". */
  lemma ObjectAtRefused(data: seq<bv8>, offset: bv64, fuel: nat)
    requires IsValid64(offset)
    ensures var p := offset as nat; var r := ObjectAt(data, offset, fuel);
      (|data| <= p ==> r == Err(UnexpectedEof)) &&
      (p < |data| && data[p] == 0 ==> r == Err(UnusedObject)) &&
      (p < |data| && 7 < data[p] ==> r == Err(UnusedMaxObject))
  {
    var p := offset as nat;
    if p < |data| {
      KindOfUnused(data[p]);
    }
  }

  /** A decoded object has a type byte in 1..7 and is of the kind that byte names. */
  lemma ObjectAtKind(data: seq<bv8>, offset: bv64, fuel: nat)
    requires ObjectAt(data, offset, fuel).Ok?
    ensures var p := offset as nat; var o := ObjectAt(data, offset, fuel).value;
      IsValid64(offset) && p + 16 <= |data| && 1 <= data[p] <= 7 &&
      o.Header().kind == KindOf(data[p]) && KindAgrees(o)
  {
    var p := offset as nat;
    ObjectAtUnfold(data, offset, fuel);
    KindOfUnused(data[p]);
    ObjectOfKindAgrees(data, p, KindOf(data[p]), fuel);
  }

  /** A decoded object carries the flags, reserved bytes and size stored in its header. */
  lemma ObjectAtHeader(data: seq<bv8>, offset: bv64, fuel: nat)
    requires ObjectAt(data, offset, fuel).Ok?
    ensures var p := offset as nat; var o := ObjectAt(data, offset, fuel).value;
      p + 16 <= |data| && o.Header().flags == data[p + 1] &&
      o.Header().reserved == data[p + 2..p + 8] && Size(o) == LeAt(data, p + 8)
  {
    ObjectAtOk(data, offset, fuel);
    ObjectAtUnfold(data, offset, fuel);
    ObjectOfKindAgrees(data, offset as nat, KindOf(data[offset as nat]), fuel);
  }

  /**
   * Whatever the kind, a decoded object has the constructor for that kind
   * and the flags, reserved bytes and size stored in its header.
   */
  lemma ObjectOfKindAgrees(data: seq<bv8>, p: nat, kind: ObjectType, fuel: nat)
    ensures var r := ObjectOfKind(data, p, kind, fuel);
      r.Ok? ==> p + 16 <= |data| && kind != ObjectUnused && kind != ObjectTypeMax && KindAgrees(r.value) &&
                r.value.Header().kind == kind && r.value.Header().flags == data[p + 1] &&
                r.value.Header().reserved == data[p + 2..p + 8] && Size(r.value) == LeAt(data, p + 8)
  {
  }

  /** Only the byte 0 names the unused kind, and exactly the bytes above 7 name `ObjectTypeMax`. */
  lemma KindOfUnused(t: bv8)
    ensures KindOf(t) == ObjectUnused <==> t == 0
    ensures KindOf(t) == ObjectTypeMax <==> 7 < t
  {
  }

  /** A Data object's payload is the `size - 64` bytes after its fixed part. */
  lemma DataLayout(data: seq<bv8>, p: nat, h: ObjectHeader)
    requires DataAt(data, p, h).Ok?
    ensures var d := DataAt(data, p, h).value.data;
      p + 64 <= |data| && !Underflows(h.size, 64) && p + 64 + Rest(h.size, 64) <= |data| &&
      |d.payload| == Rest(h.size, 64) &&
      d.payload == data[p + 64..p + 64 + Rest(h.size, 64)] &&
      d.hash == LeAt(data, p + 16) && d.nEntries == LeAt(data, p + 56)
  {
  }

  /** A Data object smaller than its 64-byte fixed part is refused. */
  lemma DataTooSmall(data: seq<bv8>, p: nat, h: ObjectHeader)
    requires p + 64 <= |data| && Underflows(h.size, 64)
    ensures DataAt(data, p, h) == Err(SizeUnderflow)
  {
  }

  /** A Field object's payload is the `size - 40` bytes after its fixed part. */
  lemma FieldLayout(data: seq<bv8>, p: nat, h: ObjectHeader)
    requires FieldAt(data, p, h).Ok?
    ensures var f := FieldAt(data, p, h).value.field;
      p + 40 <= |data| && !Underflows(h.size, 40) && p + 40 + Rest(h.size, 40) <= |data| &&
      |f.payload| == Rest(h.size, 40) &&
      f.payload == data[p + 40..p + 40 + Rest(h.size, 40)] &&
      f.hash == LeAt(data, p + 16)
  {
  }

  /**
   * The Entry loop `1..(size - 48) / 16` runs once per 16-byte item that fits
   * after the 64-byte fixed part, and not at all below that.
   */
  lemma EntryItemCountFits(size: bv64)
    requires !Underflows(size, 48)
    ensures Underflows(size, 64) ==> EntryItemCount(size) == 0
    ensures !Underflows(size, 64) ==> EntryItemCount(size) == Rest(size, 64) / 16
  {
  }

  /** Item k of an Entry is the item stored at `base + 16 k`. */
  lemma {:induction false} EntryItemsLayout(data: seq<bv8>, base: nat, count: nat, fuel: nat, k: nat)
    requires EntryItemsAt(data, base, count, fuel).Ok? && k < count
    ensures EntryItemAt(data, base + 16 * k, fuel) == Ok(EntryItemsAt(data, base, count, fuel).value[k])
    decreases count
  {
    if k < count - 1 {
      EntryItemsLayout(data, base, count - 1, fuel, k);
    }
  }

  /**
   * An Entry item is the object offset and hash stored at `q`, with the object
   * at that offset decoded one level deeper.
   */
  lemma EntryItemLayout(data: seq<bv8>, q: nat, fuel: nat)
    requires EntryItemAt(data, q, fuel).Ok?
    ensures var item := EntryItemAt(data, q, fuel).value;
      q + 16 <= |data| && 0 < fuel &&
      item.objectOffset == LeAt(data, q) && item.hash == LeAt(data, q + 8) &&
      ObjectAt(data, item.objectOffset, fuel - 1) == Ok(item.item)
  {
  }

  /** A decoded Entry holds exactly `EntryItemCount(size)` items, read from just past its fixed part. */
  lemma EntryLayout(data: seq<bv8>, p: nat, h: ObjectHeader, fuel: nat)
    requires EntryAt(data, p, h, fuel).Ok?
    ensures var e := EntryAt(data, p, h, fuel).value.entry;
      p + 64 <= |data| && !Underflows(h.size, 48) &&
      |e.items| == EntryItemCount(h.size) &&
      EntryItemsAt(data, p + 64, EntryItemCount(h.size), fuel) == Ok(e.items) &&
      e.seqnum == LeAt(data, p + 16) && e.xorHash == LeAt(data, p + 56)
  {
  }

  /** Hash item k is the pair of offsets at `base + 16 k`. */
  lemma {:induction false} HashItemsLayout(data: seq<bv8>, base: nat, count: nat, k: nat)
    requires HashItemsAt(data, base, count).Ok? && k < count
    ensures base + 16 * k + 16 <= |data|
    ensures HashItemsAt(data, base, count).value[k] ==
      HashItem(LeAt(data, base + 16 * k), LeAt(data, base + 16 * k + 8))
    decreases count
  {
    if k < count - 1 {
      HashItemsLayout(data, base, count - 1, k);
    }
  }

  /** Slot k is the u64 at `base + 8 k`. */
  lemma {:induction false} SlotsLayout(data: seq<bv8>, base: nat, count: nat, k: nat)
    requires SlotsAt(data, base, count).Ok? && k < count
    ensures base + 8 * k + 8 <= |data|
    ensures SlotsAt(data, base, count).value[k] == LeAt(data, base + 8 * k)
    decreases count
  {
    if k < count - 1 {
      SlotsLayout(data, base, count - 1, k);
    }
  }

  /** A decoded entry array holds the non-zero ones of its `(size - 20) / 8` slots, in order. */
  lemma EntryArrayLayout(data: seq<bv8>, p: nat, h: ObjectHeader)
    requires EntryArrayAt(data, p, h).Ok?
    ensures var a := EntryArrayAt(data, p, h).value.entryArray;
      p + 24 <= |data| && !Underflows(h.size, 20) &&
      SlotsAt(data, p + 24, SlotCount(h.size)).Ok? &&
      a.header == h && a.items == DropZeros(SlotsAt(data, p + 24, SlotCount(h.size)).value) &&
      a.nextEntryArrayOffset == LeAt(data, p + 16)
  {
  }

  /** An entry array decoded at an offset is the one `EntryArrayAt` lays out behind its header. */
  lemma ObjectAtEntryArray(data: seq<bv8>, offset: bv64, fuel: nat, ea: EntryArrayObject)
    requires ObjectAt(data, offset, fuel) == Ok(EntryArray(ea))
    ensures var p := offset as nat;
      IsValid64(offset) && p + 16 <= |data| && KindOf(data[p]) == ObjectEntryArray &&
      HeaderAt(data, p, ObjectEntryArray).Ok? &&
      EntryArrayAt(data, p, HeaderAt(data, p, ObjectEntryArray).value) == Ok(EntryArray(ea))
  {
    ObjectAtKind(data, offset, fuel);
    ObjectAtUnfold(data, offset, fuel);
  }

  lemma {:induction false} DropZerosMember(s: seq<bv64>, x: bv64)
    ensures x in DropZeros(s) <==> x in s && x != 0
  {
    if s != [] {
      DropZerosMember(s[..|s| - 1], x);
      assert s == s[..|s| - 1] + [s[|s| - 1]];
    }
  }

  /** Dropping zeros commutes with concatenation, so the kept slots stay in file order. */
  lemma {:induction false} DropZerosAppend(a: seq<bv64>, b: seq<bv64>)
    ensures DropZeros(a + b) == DropZeros(a) + DropZeros(b)
    decreases |b|
  {
    if b == [] {
      assert a + b == a;
    } else {
      var b' := b[..|b| - 1];
      assert (a + b)[..|a + b| - 1] == a + b';
      DropZerosAppend(a, b');
    }
  }

  /** Slots without a zero are kept as they are. */
  lemma {:induction false} DropZerosNoZeros(s: seq<bv64>)
    requires forall i :: 0 <= i < |s| ==> s[i] != 0
    ensures DropZeros(s) == s
  {
    if s != [] {
      DropZerosNoZeros(s[..|s| - 1]);
    }
  }

  // ---------------------------------------------------------------------
  // The decoder

  /** `get_obj_at_offset`: seeks to `offset` and decodes the object there. */
  method GetObjAtOffset(file: Cursor, offset: bv64, fuel: nat) returns (r: Result<Object>)
    modifies file
    decreases fuel, 4
    ensures r == ObjectAt(file.data, offset, fuel)
    ensures r.Ok? ==> file.pos == offset as nat + Span(r.value)
  {
    if !IsValid64(offset) {
      return Err(InvalidOffset);
    }
    ghost var p := offset as nat;
    file.Seek(offset as nat);
    var t :- file.ReadU8();
    ObjectAtUnfold(file.data, offset, fuel);
    r := ReadObjectOfKind(file, p, KindOf(t), fuel);
  }

  lemma ObjectAtOk(data: seq<bv8>, offset: bv64, fuel: nat)
    requires ObjectAt(data, offset, fuel).Ok?
    ensures IsValid64(offset) && offset as nat < |data|
  {
  }

  lemma ObjectAtUnfold(data: seq<bv8>, offset: bv64, fuel: nat)
    requires IsValid64(offset) && offset as nat < |data|
    ensures ObjectAt(data, offset, fuel) == ObjectOfKind(data, offset as nat, KindOf(data[offset as nat]), fuel)
  {
  }

  /** The `match` on the type byte: refuse the unused kinds, else read the header and the body. */
  method ReadObjectOfKind(file: Cursor, ghost p: nat, kind: ObjectType, fuel: nat) returns (r: Result<Object>)
    requires file.pos == p + 1
    modifies file
    decreases fuel, 3
    ensures r == ObjectOfKind(file.data, p, kind, fuel)
    ensures r.Ok? ==> file.pos == p + Span(r.value)
  {
    if kind == ObjectUnused {
      return Err(UnusedObject);
    } else if kind == ObjectTypeMax {
      return Err(UnusedMaxObject);
    }
    var h :- ReadObjectHeader(file, p, kind);
    match kind {
      case ObjectData => r := ReadData(file, p, h);
      case ObjectField => r := ReadField(file, p, h);
      case ObjectEntry => r := ReadEntry(file, p, h, fuel);
      case ObjectDataHashTable => r := ReadHashTable(file, p, h);
      case ObjectFieldHashTable => r := ReadHashTable(file, p, h);
      case ObjectEntryArray => r := ReadEntryArray(file, p, h);
      case ObjectTag => r := ReadTag(file, p, h);
    }
  }

  method ReadObjectHeader(file: Cursor, ghost p: nat, kind: ObjectType) returns (r: Result<ObjectHeader>)
    requires file.pos == p + 1
    modifies file
    ensures r == HeaderAt(file.data, p, kind)
    ensures r.Ok? ==> file.pos == p + 16
  {
    var flags :- file.ReadU8();
    var reserved :- file.ReadExact(6);
    var size :- file.ReadU64();
    return Ok(ObjectHeader(kind, flags, reserved, size));
  }

  method ReadData(file: Cursor, ghost p: nat, h: ObjectHeader) returns (r: Result<Object>)
    requires file.pos == p + 16
    modifies file
    ensures r == DataAt(file.data, p, h)
    ensures r.Ok? ==> file.pos == p + Span(r.value)
  {
    var d :- ReadDataFields(file, p, h);
    if Underflows(h.size, 64) {
      return Err(SizeUnderflow);
    }
    var payload :- file.ReadExact(Rest(h.size, 64));
    return Ok(Data(d.(payload := payload)));
  }

  method ReadDataFields(file: Cursor, ghost p: nat, h: ObjectHeader) returns (r: Result<DataObject>)
    requires file.pos == p + 16
    modifies file
    ensures r == DataFieldsAt(file.data, p, h)
    ensures r.Ok? ==> file.pos == p + 64
  {
    var hash :- file.ReadU64();
    assert file.pos == p + 24;
    var nextHashOffset :- file.ReadU64();
    assert file.pos == p + 32;
    var nextFieldOffset :- file.ReadU64();
    assert file.pos == p + 40;
    var entryOffset :- file.ReadU64();
    assert file.pos == p + 48;
    var entryArrayOffset :- file.ReadU64();
    assert file.pos == p + 56;
    var nEntries :- file.ReadU64();
    return Ok(DataObject(h, hash, nextHashOffset, nextFieldOffset, entryOffset, entryArrayOffset, nEntries, []));
  }

  method ReadField(file: Cursor, ghost p: nat, h: ObjectHeader) returns (r: Result<Object>)
    requires file.pos == p + 16
    modifies file
    ensures r == FieldAt(file.data, p, h)
    ensures r.Ok? ==> file.pos == p + Span(r.value)
  {
    var hash :- file.ReadU64();
    var nextHashOffset :- file.ReadU64();
    var headDataOffset :- file.ReadU64();
    if Underflows(h.size, 40) {
      return Err(SizeUnderflow);
    }
    var payload :- file.ReadExact(Rest(h.size, 40));
    return Ok(Field(FieldObject(h, hash, nextHashOffset, headDataOffset, payload)));
  }

  method ReadEntry(file: Cursor, ghost p: nat, h: ObjectHeader, fuel: nat) returns (r: Result<Object>)
    requires file.pos == p + 16
    modifies file
    decreases fuel, 2
    ensures r == EntryAt(file.data, p, h, fuel)
    ensures r.Ok? ==> file.pos == p + Span(r.value)
  {
    var e :- ReadEntryFields(file, p, h);
    if Underflows(h.size, 48) {
      return Err(SizeUnderflow);
    }
    var items :- ReadEntryItems(file, p + 64, EntryItemCount(h.size), fuel);
    return Ok(Entry(e.(items := items)));
  }

  method ReadEntryItems(file: Cursor, ghost base: nat, count: nat, fuel: nat) returns (r: Result<seq<EntryItem>>)
    requires file.pos == base
    modifies file
    decreases fuel, 1
    ensures r == EntryItemsAt(file.data, base, count, fuel)
    ensures r.Ok? ==> file.pos == base + 16 * count
  {
    var items: seq<EntryItem> := [];
    var k := 0;
    while k < count
      invariant k <= count
      invariant file.pos == base + 16 * k
      invariant EntryItemsAt(file.data, base, k, fuel) == Ok(items)
    {
      var item := ReadEntryItem(file, base + 16 * k, fuel);
      if item.Err? {
        EntryItemsErrorPersists(file.data, base, k + 1, count, fuel);
        return Err(item.error);
      }
      assert EntryItemsAt(file.data, base, k + 1, fuel) == Ok(items + [item.value]);
      items := items + [item.value];
      k := k + 1;
    }
    return Ok(items);
  }

  /**
   * Reads an item's offset and hash, decodes the object the offset names,
   * then seeks back to just after the item.
   */
  method ReadEntryItem(file: Cursor, ghost q: nat, fuel: nat) returns (r: Result<EntryItem>)
    requires file.pos == q
    modifies file
    decreases fuel, 0
    ensures r == EntryItemAt(file.data, q, fuel)
    ensures r.Ok? ==> file.pos == q + 16
  {
    var objectOffset :- file.ReadU64();
    var hash :- file.ReadU64();
    if fuel == 0 {
      return Err(TooDeep);
    }
    var saved := file.pos;
    var item :- GetObjAtOffset(file, objectOffset, fuel - 1);
    file.Seek(saved);
    return Ok(EntryItem(objectOffset, hash, item));
  }

  method ReadEntryFields(file: Cursor, ghost p: nat, h: ObjectHeader) returns (r: Result<EntryObject>)
    requires file.pos == p + 16
    modifies file
    ensures r == EntryFieldsAt(file.data, p, h)
    ensures r.Ok? ==> file.pos == p + 64
  {
    var seqnum :- file.ReadU64();
    assert file.pos == p + 24;
    var realtime :- file.ReadU64();
    assert file.pos == p + 32;
    var monotonic :- file.ReadU64();
    assert file.pos == p + 40;
    var bootId :- file.ReadU128();
    assert file.pos == p + 56;
    var xorHash :- file.ReadU64();
    return Ok(EntryObject(h, seqnum, realtime, monotonic, bootId, xorHash, []));
  }

  /** Once an item fails to decode, every longer item list fails the same way. */
  lemma {:induction false} EntryItemsErrorPersists(data: seq<bv8>, base: nat, k: nat, count: nat, fuel: nat)
    requires k <= count
    requires EntryItemsAt(data, base, k, fuel).Err?
    ensures EntryItemsAt(data, base, count, fuel) == EntryItemsAt(data, base, k, fuel)
    decreases count - k
  {
    if k < count {
      EntryItemsErrorPersists(data, base, k, count - 1, fuel);
    }
  }

  method ReadHashTable(file: Cursor, ghost p: nat, h: ObjectHeader) returns (r: Result<Object>)
    requires file.pos == p + 16
    modifies file
    ensures r == HashTableAt(file.data, p, h)
    ensures r.Ok? ==> file.pos == p + Span(r.value)
  {
    if Underflows(h.size, 48) {
      return Err(SizeUnderflow);
    }
    var items :- ReadHashItems(file, p + 16, HashItemCount(h.size));
    return Ok(HashTable(HashTableObject(h, items)));
  }

  method ReadHashItems(file: Cursor, ghost base: nat, count: nat) returns (r: Result<seq<HashItem>>)
    requires file.pos == base
    modifies file
    ensures r == HashItemsAt(file.data, base, count)
    ensures r.Ok? ==> file.pos == base + 16 * count
  {
    var items: seq<HashItem> := [];
    var k := 0;
    while k < count
      invariant k <= count
      invariant file.pos == base + 16 * k
      invariant HashItemsAt(file.data, base, k) == Ok(items)
    {
      var item := ReadHashItem(file, base, k);
      if item.Err? {
        return Err(UnexpectedEof);
      }
      items := items + [item.value];
      k := k + 1;
    }
    return Ok(items);
  }

  /** One hash item: the head and tail offsets of a bucket's chain. */
  method ReadHashItem(file: Cursor, ghost base: nat, ghost k: nat) returns (r: Result<HashItem>)
    requires file.pos == base + 16 * k
    modifies file
    ensures r.Ok? <==> base + 16 * k + 16 <= |file.data|
    ensures r.Ok? ==> r.value == HashItem(LeAt(file.data, base + 16 * k), LeAt(file.data, base + 16 * k + 8))
    ensures r.Ok? ==> file.pos == base + 16 * (k + 1)
  {
    var hashHeadOffset :- file.ReadU64();
    var tailHashOffset :- file.ReadU64();
    return Ok(HashItem(hashHeadOffset, tailHashOffset));
  }

  method ReadEntryArray(file: Cursor, ghost p: nat, h: ObjectHeader) returns (r: Result<Object>)
    requires file.pos == p + 16
    modifies file
    ensures r == EntryArrayAt(file.data, p, h)
    ensures r.Ok? ==> file.pos == p + Span(r.value)
  {
    var nextEntryArrayOffset :- file.ReadU64();
    if Underflows(h.size, 20) {
      return Err(SizeUnderflow);
    }
    var items :- ReadSlots(file, p + 24, SlotCount(h.size));
    return Ok(EntryArray(EntryArrayObject(h, nextEntryArrayOffset, items)));
  }

  /** Reads `count` slots and keeps the non-zero ones, in order. */
  method ReadSlots(file: Cursor, ghost base: nat, count: nat) returns (r: Result<seq<bv64>>)
    requires file.pos == base
    modifies file
    ensures SlotsAt(file.data, base, count).Ok? <==> r.Ok?
    ensures r.Ok? ==> r.value == DropZeros(SlotsAt(file.data, base, count).value)
    ensures r.Err? ==> r.error == UnexpectedEof
    ensures r.Ok? ==> file.pos == base + 8 * count
  {
    var items: seq<bv64> := [];
    ghost var slots: seq<bv64> := [];
    var k := 0;
    while k < count
      invariant k <= count
      invariant file.pos == base + 8 * k
      invariant SlotsAt(file.data, base, k) == Ok(slots)
      invariant items == DropZeros(slots)
    {
      var item := file.ReadU64();
      if item.Err? {
        return Err(UnexpectedEof);
      }
      DropZerosSnoc(slots, item.value);
      slots := slots + [item.value];
      k := k + 1;
      if item.value == 0 {
        continue;
      }
      items := items + [item.value];
    }
    return Ok(items);
  }

  method ReadTag(file: Cursor, ghost p: nat, h: ObjectHeader) returns (r: Result<Object>)
    requires file.pos == p + 16
    modifies file
    ensures r == TagAt(file.data, p, h)
    ensures r.Ok? ==> file.pos == p + Span(r.value)
  {
    var seqnum :- file.ReadU64();
    var epoch :- file.ReadU64();
    var tag :- file.ReadExact(TagLength);
    return Ok(Tag(TagObject(h, seqnum, epoch, tag)));
  }

  // ---------------------------------------------------------------------
  // The Entry hash

  /** The hashes stored with an Entry's items, in item order. */
  function ItemHashes(items: seq<EntryItem>): seq<bv64>
  {
    seq(|items|, i requires 0 <= i < |items| => items[i].hash)
  }

  /** u64 exclusive or. */
  function Xor(x: bv64, y: bv64): bv64
  {
    x ^ y
  }

  lemma XorNestsLeft(x: bv64, y: bv64, z: bv64)
    ensures Xor(Xor(x, y), z) == (x ^ y) ^ z
  {
  }

  lemma XorNestsRight(x: bv64, y: bv64, z: bv64)
    ensures Xor(x, Xor(y, z)) == x ^ (y ^ z)
  {
  }

  lemma XorAssociates(x: bv64, y: bv64, z: bv64)
    ensures Xor(Xor(x, y), z) == Xor(x, Xor(y, z))
  {
    XorNestsLeft(x, y, z);
    XorNestsRight(x, y, z);
  }

  lemma XorCommutes(x: bv64, y: bv64)
    ensures Xor(x, y) == Xor(y, x)
  {
  }

  /** The xor of a sequence of hashes, folded from the left starting at 0. */
  function XorAll(s: seq<bv64>): bv64
  {
    if s == [] then 0 else Xor(XorAll(s[..|s| - 1]), s[|s| - 1])
  }

  lemma {:induction false} XorAllAppend(a: seq<bv64>, b: seq<bv64>)
    ensures XorAll(a + b) == Xor(XorAll(a), XorAll(b))
    decreases |b|
  {
    if b == [] {
      assert a + b == a;
      assert Xor(XorAll(a), 0) == XorAll(a);
    } else {
      var b' := b[..|b| - 1];
      assert (a + b)[..|a + b| - 1] == a + b';
      XorAllAppend(a, b');
      XorAssociates(XorAll(a), XorAll(b'), b[|b| - 1]);
    }
  }

  /** Taking out the element at `j` takes one occurrence out of the multiset. */
  lemma MultisetSplit<T>(s: seq<T>, j: nat)
    requires j < |s|
    ensures multiset(s) == multiset(s[..j] + s[j + 1..]) + multiset{s[j]}
  {
    assert s == s[..j] + [s[j]] + s[j + 1..];
  }

  lemma MultisetCancel<T>(m: multiset<T>, n: multiset<T>, x: T)
    requires m + multiset{x} == n + multiset{x}
    ensures m == n
  {
    forall y: T
      ensures m[y] == n[y]
    {
      assert (m + multiset{x})[y] == (n + multiset{x})[y];
    }
  }

  /**
   * When `b` is a permutation of a non-empty `a`, the last element of `a`
   * sits at some position `j` of `b`, and what is left of the two sequences
   * is again a permutation.
   */
  lemma MatchLast<T>(a: seq<T>, b: seq<T>) returns (j: nat)
    requires multiset(a) == multiset(b) && a != []
    ensures j < |b| && b[j] == a[|a| - 1]
    ensures multiset(a[..|a| - 1]) == multiset(b[..j] + b[j + 1..])
  {
    var x := a[|a| - 1];
    assert x in multiset(b);
    j :| 0 <= j < |b| && b[j] == x;
    MultisetSplit(b, j);
    MultisetSplit(a, |a| - 1);
    assert a[..|a| - 1] + a[|a|..] == a[..|a| - 1];
    MultisetCancel(multiset(a[..|a| - 1]), multiset(b[..j] + b[j + 1..]), x);
  }

  /** The xor does not depend on the order of the hashes. */
  lemma {:induction false} XorAllPermutation(a: seq<bv64>, b: seq<bv64>)
    requires multiset(a) == multiset(b)
    ensures XorAll(a) == XorAll(b)
    decreases |a|
  {
    if a == [] {
      assert |b| == |multiset(b)| == 0;
    } else {
      var j := MatchLast(a, b);
      var x, a' := a[|a| - 1], a[..|a| - 1];
      var front, back := b[..j], b[j + 1..];
      assert a == a' + [x];
      XorAllPermutation(a', front + back);
      assert b == (front + [x]) + back;
      XorAllAppend(front + [x], back);
      XorAllSnoc(front, x);
      XorAllAppend(front, back);
      XorSwapsLast(XorAll(front), x, XorAll(back));
    }
  }

  lemma XorAllSnoc(s: seq<bv64>, x: bv64)
    ensures XorAll(s + [x]) == Xor(XorAll(s), x)
  {
    assert (s + [x])[..|s|] == s;
  }

  lemma XorSwapsLast(f: bv64, x: bv64, k: bv64)
    ensures Xor(Xor(f, x), k) == Xor(Xor(f, k), x)
  {
    XorAssociates(f, x, k);
    XorCommutes(x, k);
    XorAssociates(f, k, x);
  }

  /** `HashableObject::hash` of an Entry: the xor of its items' stored hashes. */
  method EntryHash(e: EntryObject) returns (h: bv64)
    ensures h == XorAll(ItemHashes(e.items))
  {
    h := 0;
    var k := 0;
    while k < |e.items|
      invariant k <= |e.items|
      invariant h == XorAll(ItemHashes(e.items)[..k])
    {
      assert ItemHashes(e.items)[..k + 1] == ItemHashes(e.items)[..k] + [e.items[k].hash];
      h := Xor(h, e.items[k].hash);
      k := k + 1;
    }
    assert ItemHashes(e.items)[..k] == ItemHashes(e.items);
  }

  /** Taking out the item at `j` takes its hash out of the hashes. */
  lemma ItemHashesSplit(s: seq<EntryItem>, j: nat)
    requires j < |s|
    ensures multiset(ItemHashes(s)) == multiset(ItemHashes(s[..j] + s[j + 1..])) + multiset{s[j].hash}
  {
    var h, t := ItemHashes(s), s[..j] + s[j + 1..];
    var g := h[..j] + h[j + 1..];
    assert |ItemHashes(t)| == |g|;
    forall i | 0 <= i < |g|
      ensures ItemHashes(t)[i] == g[i]
    {
      if i < j {
        assert t[i] == s[i] && g[i] == h[i];
      } else {
        assert t[i] == s[i + 1] && g[i] == h[i + 1];
      }
    }
    assert ItemHashes(t) == g;
    MultisetSplit(h, j);
  }

  /** Reordering the items reorders their hashes alike. */
  lemma {:induction false} ItemHashesPermutation(a: seq<EntryItem>, b: seq<EntryItem>)
    requires multiset(a) == multiset(b)
    ensures multiset(ItemHashes(a)) == multiset(ItemHashes(b))
    decreases |a|
  {
    if a == [] {
      assert |b| == |multiset(b)| == 0;
      assert b == [];
    } else {
      var j := MatchLast(a, b);
      var a' := a[..|a| - 1];
      ItemHashesPermutation(a', b[..j] + b[j + 1..]);
      ItemHashesSplit(a, |a| - 1);
      assert a[..|a| - 1] + a[|a|..] == a';
      ItemHashesSplit(b, j);
    }
  }

  /** An Entry without items hashes to 0, and reordering the items keeps the hash. */
  lemma EntryHashOrderFree(a: seq<EntryItem>, b: seq<EntryItem>)
    requires multiset(a) == multiset(b)
    ensures XorAll(ItemHashes(a)) == XorAll(ItemHashes(b))
    ensures a == [] ==> XorAll(ItemHashes(a)) == 0
  {
    ItemHashesPermutation(a, b);
    XorAllPermutation(ItemHashes(a), ItemHashes(b));
  }
}
