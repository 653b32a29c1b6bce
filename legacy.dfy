/**
 * The older `journald` crate (src/lib.rs): the same object layout as
 * sdjournal, except that an Entry item is only an object offset and a
 * hash, with nothing decoded behind it; the crate's own `Journal`, its
 * iterators, and `EntryObject::get_data`, which looks a field up by key.
 *
 * Its `is_valid64`, `align64` and `ObjectHeader::is_compressed` are the
 * same code as sdjournal's and are `Journal.IsValid64`, `Journal.Align64`
 * and `Journal.IsCompressed`; its header iterator is sdjournal's
 * `Iter.ObjectHeaderIter` line for line.
 */
module Legacy {
  import opened Bytes
  import Objects = Journal
  import JH = JournalHeader
  import Iter
  import JournalFile

  // ---------------------------------------------------------------------
  // Objects

  /** An Entry item: the offset of a Data object and its hash. */
  datatype EntryItem = EntryItem(objectOffset: bv64, hash: bv64)

  datatype EntryObject = EntryObject(
    header: Objects.ObjectHeader,
    seqnum: bv64,
    realtime: bv64,
    monotonic: bv64,
    bootId: bv128,
    xorHash: bv64,
    items: seq<EntryItem>)

  /** The objects of this crate: sdjournal's, with the flat Entry. */
  datatype Object =
    | Data(data: Objects.DataObject)
    | Field(field: Objects.FieldObject)
    | Entry(entry: EntryObject)
    | HashTable(table: Objects.HashTableObject)
    | EntryArray(entryArray: Objects.EntryArrayObject)
    | Tag(tag: Objects.TagObject)

  /** `SizedObject::size`: the size recorded in the object's header. */
  function Size(o: Object): bv64
  {
    match o
    case Data(d) => d.header.size
    case Field(f) => f.header.size
    case Entry(e) => e.header.size
    case HashTable(t) => t.header.size
    case EntryArray(a) => a.header.size
    case Tag(t) => t.header.size
  }

  /** sdjournal's Entry items with the decoded objects dropped. */
  function LiftItems(items: seq<Objects.EntryItem>): (r: seq<EntryItem>)
    ensures |r| == |items|
    ensures forall i :: 0 <= i < |items| ==> r[i] == EntryItem(items[i].objectOffset, items[i].hash)
  {
    seq(|items|, i requires 0 <= i < |items| => EntryItem(items[i].objectOffset, items[i].hash))
  }

  /** How this crate sees an object sdjournal decodes: identical, except that Entry items lose their objects. */
  function Lift(o: Objects.Object): Object
  {
    match o
    case Data(d) => Data(d)
    case Field(f) => Field(f)
    case Entry(e) => Entry(EntryObject(e.header, e.seqnum, e.realtime, e.monotonic, e.bootId, e.xorHash, LiftItems(e.items)))
    case HashTable(t) => HashTable(t)
    case EntryArray(a) => EntryArray(a)
    case Tag(t) => Tag(t)
  }

  function LiftResult(r: Result<Objects.Object>): Result<Object>
  {
    match r
    case Ok(o) => Ok(Lift(o))
    case Err(e) => Err(e)
  }

  // ---------------------------------------------------------------------
  // The layout

  /** The `count` items stored from `base`, 16 bytes each: an object offset, then a hash. */
  function ItemsAt(data: seq<bv8>, base: nat, count: nat): (r: Result<seq<EntryItem>>)
    ensures r.Ok? <==> count == 0 || base + 16 * count <= |data|
    ensures r.Err? ==> r.error == UnexpectedEof
    ensures r.Ok? ==> |r.value| == count
  {
    if count == 0 then Ok([])
    else
      var prefix :- ItemsAt(data, base, count - 1);
      var q := base + 16 * (count - 1);
      if |data| < q + 16 then Err(UnexpectedEof)
      else Ok(prefix + [EntryItem(LeAt(data, q), LeAt(data, q + 8))])
  }

  /** Entry: sdjournal's fixed fields, then `EntryItemCount(size)` flat items. */
  function EntryAt(data: seq<bv8>, p: nat, h: Objects.ObjectHeader): Result<Object>
  {
    var e :- Objects.EntryFieldsAt(data, p, h);
    if Objects.Underflows(h.size, 48) then Err(SizeUnderflow)
    else
      var items :- ItemsAt(data, p + 64, Objects.EntryItemCount(h.size));
      Ok(Entry(EntryObject(h, e.seqnum, e.realtime, e.monotonic, e.bootId, e.xorHash, items)))
  }

  /** The type dispatch: Entry is this crate's own; every other kind is decoded as sdjournal does. */
  function ObjectOfKind(data: seq<bv8>, p: nat, kind: Objects.ObjectType): Result<Object>
  {
    if kind == Objects.ObjectEntry then
      var h :- Objects.HeaderAt(data, p, kind);
      EntryAt(data, p, h)
    else
      LiftResult(Objects.ObjectOfKind(data, p, kind, 0))
  }

  /** The object at `offset` of the byte slice. */
  function ObjectAt(data: seq<bv8>, offset: bv64): Result<Object>
  {
    if !Objects.IsValid64(offset) then Err(InvalidOffset)
    else if |data| <= offset as nat then Err(UnexpectedEof)
    else ObjectOfKind(data, offset as nat, Objects.KindOf(data[offset as nat]))
  }

  // ---------------------------------------------------------------------
  // Against sdjournal's decoder

  /** The fixed part of an sdjournal Entry, lifted, is this crate's Entry with the lifted items. */
  lemma {:induction false} ItemsAgree(data: seq<bv8>, base: nat, count: nat, fuel: nat)
    requires Objects.EntryItemsAt(data, base, count, fuel).Ok?
    ensures ItemsAt(data, base, count) == Ok(LiftItems(Objects.EntryItemsAt(data, base, count, fuel).value))
    decreases count
  {
    if count > 0 {
      var prefix, item := EntryItemsStep(data, base, count, fuel);
      ItemsAgree(data, base, count - 1, fuel);
      ItemsAtLast(data, base, count, LiftItems(prefix));
      LiftItemsSnoc(prefix, item);
    }
  }

  /** The last of `count` decoded sdjournal items, and the ones before it. */
  lemma EntryItemsStep(data: seq<bv8>, base: nat, count: nat, fuel: nat) returns (prefix: seq<Objects.EntryItem>, item: Objects.EntryItem)
    requires count > 0 && Objects.EntryItemsAt(data, base, count, fuel).Ok?
    ensures base + 16 * (count - 1) + 16 <= |data|
    ensures Objects.EntryItemsAt(data, base, count - 1, fuel) == Ok(prefix)
    ensures Objects.EntryItemsAt(data, base, count, fuel).value == prefix + [item]
    ensures item.objectOffset == LeAt(data, base + 16 * (count - 1)) && item.hash == LeAt(data, base + 16 * (count - 1) + 8)
  {
    prefix := Objects.EntryItemsAt(data, base, count - 1, fuel).value;
    item := Objects.EntryItemAt(data, base + 16 * (count - 1), fuel).value;
    Objects.EntryItemLayout(data, base + 16 * (count - 1), fuel);
  }

  lemma LiftItemsSnoc(items: seq<Objects.EntryItem>, item: Objects.EntryItem)
    ensures LiftItems(items + [item]) == LiftItems(items) + [EntryItem(item.objectOffset, item.hash)]
  {
    assert LiftItems(items + [item])[|items|] == EntryItem(item.objectOffset, item.hash);
  }

  lemma EntryAgrees(data: seq<bv8>, p: nat, h: Objects.ObjectHeader, fuel: nat)
    requires Objects.EntryAt(data, p, h, fuel).Ok?
    ensures EntryAt(data, p, h) == Ok(Lift(Objects.EntryAt(data, p, h, fuel).value))
  {
    Objects.EntryLayout(data, p, h, fuel);
    ItemsAgree(data, p + 64, Objects.EntryItemCount(h.size), fuel);
  }

  /**
   * On every object sdjournal decodes this crate decodes the same object,
   * its Entry items reduced to offset and hash; on every kind but Entry the
   * two agree exactly, errors included.
   */
  lemma ObjectAtAgrees(data: seq<bv8>, offset: bv64, fuel: nat)
    ensures Objects.ObjectAt(data, offset, fuel).Ok? ==> ObjectAt(data, offset) == Ok(Lift(Objects.ObjectAt(data, offset, fuel).value))
    ensures (offset as nat < |data| ==> Objects.KindOf(data[offset as nat]) != Objects.ObjectEntry) ==>
      ObjectAt(data, offset) == LiftResult(Objects.ObjectAt(data, offset, fuel))
  {
    var p := offset as nat;
    if Objects.IsValid64(offset) && p < |data| {
      Objects.ObjectAtUnfold(data, offset, fuel);
      var kind := Objects.KindOf(data[p]);
      if kind == Objects.ObjectEntry {
        var r := Objects.HeaderAt(data, p, kind);
        if r.Ok? && Objects.EntryAt(data, p, r.value, fuel).Ok? {
          EntryAgrees(data, p, r.value, fuel);
        }
      } else {
        OffEntryAgrees(data, p, kind, fuel);
      }
    }
  }

  /** Fuel only matters to Entry items, so off Entry the two dispatches are the same. */
  lemma OffEntryAgrees(data: seq<bv8>, p: nat, kind: Objects.ObjectType, fuel: nat)
    requires kind != Objects.ObjectEntry
    ensures ObjectOfKind(data, p, kind) == LiftResult(Objects.ObjectOfKind(data, p, kind, fuel))
  {
  }

  /** Item k of a decoded Entry is the offset and hash stored at `base + 16 k`. */
  lemma {:induction false} ItemsLayout(data: seq<bv8>, base: nat, count: nat, k: nat)
    requires ItemsAt(data, base, count).Ok? && k < count
    ensures base + 16 * k + 16 <= |data|
    ensures ItemsAt(data, base, count).value[k] == EntryItem(LeAt(data, base + 16 * k), LeAt(data, base + 16 * k + 8))
    decreases count
  {
    if k < count - 1 {
      ItemsLayout(data, base, count - 1, k);
    }
  }

  /**
   * A decoded Entry holds `EntryItemCount(size)` items, that is one less
   * than `(size - 48) / 16` (none when that is 0), read from just past its
   * 64-byte fixed part; none of them is decoded further, so an Entry whose
   * items point nowhere still decodes.
   */
  lemma EntryLayout(data: seq<bv8>, offset: bv64)
    requires ObjectAt(data, offset).Ok? && ObjectAt(data, offset).value.Entry?
    ensures var p := offset as nat; var e := ObjectAt(data, offset).value.entry;
      Objects.IsValid64(offset) && p + 64 <= |data| && e.header.kind == Objects.ObjectEntry &&
      !Objects.Underflows(e.header.size, 48) && |e.items| == Objects.EntryItemCount(e.header.size) &&
      ItemsAt(data, p + 64, |e.items|) == Ok(e.items)
  {
    var h := EntryHeader(data, offset);
    EntryAtLayout(data, offset as nat, h);
  }

  /** The header of a decoded Entry, which it was decoded with. */
  lemma EntryHeader(data: seq<bv8>, offset: bv64) returns (h: Objects.ObjectHeader)
    requires ObjectAt(data, offset).Ok? && ObjectAt(data, offset).value.Entry?
    ensures Objects.IsValid64(offset) && h.kind == Objects.ObjectEntry
    ensures ObjectAt(data, offset) == EntryAt(data, offset as nat, h)
  {
    var p := offset as nat;
    ObjectAtUnfold(data, offset);
    var kind := Objects.KindOf(data[p]);
    ObjectOfKindEntry(data, p, kind);
    h := Objects.HeaderAt(data, p, kind).value;
  }

  /** Only the Entry kind decodes to an Entry. */
  lemma ObjectOfKindEntry(data: seq<bv8>, p: nat, kind: Objects.ObjectType)
    requires ObjectOfKind(data, p, kind).Ok? && ObjectOfKind(data, p, kind).value.Entry?
    ensures kind == Objects.ObjectEntry
  {
    Objects.ObjectOfKindAgrees(data, p, kind, 0);
  }

  lemma EntryAtLayout(data: seq<bv8>, p: nat, h: Objects.ObjectHeader)
    requires EntryAt(data, p, h).Ok?
    ensures var e := EntryAt(data, p, h).value.entry;
      p + 64 <= |data| && e.header == h && !Objects.Underflows(h.size, 48) &&
      |e.items| == Objects.EntryItemCount(h.size) && ItemsAt(data, p + 64, |e.items|) == Ok(e.items) &&
      e.seqnum == LeAt(data, p + 16) && e.xorHash == LeAt(data, p + 56)
  {
  }

  lemma ItemsAtShort(data: seq<bv8>, base: nat, k: nat, count: nat)
    requires k < count && |data| < base + 16 * k + 16
    ensures ItemsAt(data, base, count) == Err(UnexpectedEof)
  {
  }

  lemma ItemsAtSnoc(data: seq<bv8>, base: nat, k: nat, items: seq<EntryItem>)
    requires ItemsAt(data, base, k) == Ok(items) && base + 16 * k + 16 <= |data|
    ensures ItemsAt(data, base, k + 1) == Ok(items + [EntryItem(LeAt(data, base + 16 * k), LeAt(data, base + 16 * k + 8))])
  {
  }

  lemma ItemsAtLast(data: seq<bv8>, base: nat, count: nat, items: seq<EntryItem>)
    requires count > 0 && ItemsAt(data, base, count - 1) == Ok(items) && base + 16 * (count - 1) + 16 <= |data|
    ensures ItemsAt(data, base, count) ==
      Ok(items + [EntryItem(LeAt(data, base + 16 * (count - 1)), LeAt(data, base + 16 * (count - 1) + 8))])
  {
  }

  lemma ItemsCounts(data: seq<bv8>, base: nat, m: nat, n: nat)
    requires m == n
    ensures ItemsAt(data, base, m) == ItemsAt(data, base, n)
  {
  }

  // ---------------------------------------------------------------------
  // The decoder

  /** The number of turns of `for _ in 1..n`. */
  function Turns(n: nat): nat
  {
    if n == 0 then 0 else n - 1
  }

  lemma TurnsCount(size: bv64, n: nat)
    requires !Objects.Underflows(size, 48) && n == Objects.Rest(size, 48) / 16
    ensures Turns(n) == Objects.EntryItemCount(size)
  {
  }

  /**
   * The Entry item loop, `for _ in 1..n` with n = (size - 48) / 16: each
   * turn reads an offset and a hash.
   */
  method ReadEntryItems(file: Cursor, ghost base: nat, n: nat) returns (r: Result<seq<EntryItem>>)
    requires file.pos == base
    modifies file
    ensures r == ItemsAt(file.data, base, Turns(n))
  {
    ghost var count := Turns(n);
    var items: seq<EntryItem> := [];
    var i := 1;
    ghost var k := 0;
    while i < n
      invariant i == k + 1 && k <= count && (k < count <==> i < n)
      invariant file.pos == base + 16 * k
      invariant ItemsAt(file.data, base, k) == Ok(items)
    {
      var item := ReadEntryItem(file, base + 16 * k);
      if item.Err? {
        ItemsAtShort(file.data, base, k, count);
        return Err(item.error);
      }
      ItemsAtSnoc(file.data, base, k, items);
      items := items + [item.value];
      i := i + 1;
      k := k + 1;
    }
    ItemsCounts(file.data, base, k, count);
    return Ok(items);
  }

  /** One turn of the item loop: an object offset, then a hash. */
  method ReadEntryItem(file: Cursor, ghost q: nat) returns (r: Result<EntryItem>)
    requires file.pos == q
    modifies file
    ensures r.Ok? <==> q + 16 <= |file.data|
    ensures r.Err? ==> r.error == UnexpectedEof
    ensures r.Ok? ==> r.value == EntryItem(LeAt(file.data, q), LeAt(file.data, q + 8)) && file.pos == q + 16
  {
    var objectOffset :- file.ReadU64();
    var hash :- file.ReadU64();
    return Ok(EntryItem(objectOffset, hash));
  }

  method ReadEntry(file: Cursor, ghost p: nat, h: Objects.ObjectHeader) returns (r: Result<Object>)
    requires file.pos == p + 16
    modifies file
    ensures r == EntryAt(file.data, p, h)
  {
    var e :- Objects.ReadEntryFields(file, p, h);
    if Objects.Underflows(h.size, 48) {
      return Err(SizeUnderflow);
    }
    var n := Objects.Rest(h.size, 48) / 16;
    var items := ReadEntryItems(file, p + 64, n);
    TurnsCount(h.size, n);
    ItemsCounts(file.data, p + 64, Turns(n), Objects.EntryItemCount(h.size));
    if items.Err? {
      return Err(items.error);
    }
    return Ok(Entry(EntryObject(h, e.seqnum, e.realtime, e.monotonic, e.bootId, e.xorHash, items.value)));
  }

  /** The `match` on the type byte. */
  method ReadObjectOfKind(file: Cursor, ghost p: nat, kind: Objects.ObjectType) returns (r: Result<Object>)
    requires file.pos == p + 1
    modifies file
    ensures r == ObjectOfKind(file.data, p, kind)
  {
    if kind == Objects.ObjectEntry {
      var h :- Objects.ReadObjectHeader(file, p, kind);
      r := ReadEntry(file, p, h);
    } else {
      var o := Objects.ReadObjectOfKind(file, p, kind, 0);
      r := LiftResult(o);
    }
  }

  lemma ObjectAtUnfold(data: seq<bv8>, offset: bv64)
    requires Objects.IsValid64(offset) && offset as nat < |data|
    ensures ObjectAt(data, offset) == ObjectOfKind(data, offset as nat, Objects.KindOf(data[offset as nat]))
  {
  }

  /** Seeks to `offset` and decodes the object there through `file`. */
  method ReadObjectAt(file: Cursor, offset: bv64) returns (r: Result<Object>)
    modifies file
    ensures r == ObjectAt(file.data, offset)
  {
    if !Objects.IsValid64(offset) {
      return Err(InvalidOffset);
    }
    ghost var p := offset as nat;
    file.Seek(offset as nat);
    var t :- file.ReadU8();
    ObjectAtUnfold(file.data, offset);
    r := ReadObjectOfKind(file, p, Objects.KindOf(t));
  }

  /** `get_obj_at_offset`: decodes the object at `offset` of the slice through a cursor of its own. */
  method GetObjAtOffset(file: seq<bv8>, offset: bv64) returns (r: Result<Object>)
    ensures r == ObjectAt(file, offset)
  {
    var cursor := new Cursor(file);
    r := ReadObjectAt(cursor, offset);
  }

  // ---------------------------------------------------------------------
  // The journal

  /**
   * `Journal::new` as written: the header is read through the slice, and
   * reading from a `&[u8]` consumes it, so the journal keeps the bytes
   * after the 240-byte header while every offset the header holds counts
   * from the start of the file.
   */
  method OpenAsWritten(data: seq<bv8>) returns (r: Result<JournalFile.Journal>)
    ensures r.Ok? <==> JH.HeaderLength <= |data|
    ensures r.Err? ==> r.error == UnexpectedEof
    ensures r.Ok? ==> r.value.data == data[JH.HeaderLength..] && JH.JournalHeaderAt(data, 0) == Ok(r.value.header)
  {
    var file := new Cursor(data);
    var header :- JH.ReadJournalHeader(file);
    return Ok(JournalFile.Journal(data[file.pos..], header));
  }

  /**
   * What the shift does: the journal `OpenAsWritten` returns decodes, at
   * every position, the object header the file holds 240 bytes further on,
   * so an iterator started at `ObjectsStart` reads past the first object.
   */
  lemma AsWrittenReadsPastHeader(data: seq<bv8>, p: nat, kind: Objects.ObjectType)
    requires JH.HeaderLength <= |data|
    ensures Objects.HeaderAt(data[JH.HeaderLength..], p, kind) == Objects.HeaderAt(data, p + JH.HeaderLength, kind)
  {
    var d := data[JH.HeaderLength..];
    if p + 16 <= |d| {
      assert d[p + 1] == data[p + 241];
      assert d[p + 2..p + 8] == data[p + 242..p + 248];
      assert d[p + 8..p + 16] == data[p + 248..p + 256];
    }
  }

  /** `obj_iter`. */
  method ObjIter(j: JournalFile.Journal) returns (it: ObjectIter)
    ensures fresh(it) && fresh(it.buf) && it.buf.data == j.data
    ensures it.currentOffset == JournalFile.ObjectsStart(j) && it.nextOffset == JournalFile.ObjectsStart(j)
  {
    it := new ObjectIter(j.data, j.header.fieldHashTableOffset - Objects.ObjectHeaderSize);
  }

  /** `iter_entries`: an entry iterator from `ObjectsStart` that scans up to the header's `n_objects` objects per call. */
  method IterEntries(j: JournalFile.Journal) returns (it: EntryIter)
    ensures fresh(it) && fresh(it.inner) && fresh(it.inner.buf) && it.inner.buf.data == j.data
    ensures it.inner.currentOffset == JournalFile.ObjectsStart(j) && it.inner.nextOffset == JournalFile.ObjectsStart(j)
    ensures it.nObjects == j.header.nObjects
  {
    it := new EntryIter(j.data, j.header.fieldHashTableOffset - Objects.ObjectHeaderSize, j.header.nObjects);
  }

  /** `ea_iter`. */
  method EaIter(j: JournalFile.Journal) returns (it: EntryArrayIter)
    ensures fresh(it) && fresh(it.buf) && it.buf.data == j.data && it.currentOffset == j.header.entryArrayOffset
  {
    it := new EntryArrayIter(j.data, j.header.entryArrayOffset);
  }

  // ---------------------------------------------------------------------
  // The object iterator

  /** `next_obj_offset` after an object decoded at `offset`: its aligned end. */
  function NextObjectOffset(offset: bv64, o: Object): bv64
  {
    AlignedEnd(offset, Size(o))
  }

  /** `align64(position + size)`. */
  function AlignedEnd(position: bv64, size: bv64): bv64
  {
    Objects.Align64(position + size)
  }

  class ObjectIter {
    const buf: Cursor
    var currentOffset: bv64
    var nextOffset: bv64

    constructor (data: seq<bv8>, start: bv64)
      ensures fresh(buf) && buf.data == data && buf.pos == start as nat
      ensures currentOffset == start && nextOffset == start
    {
      buf := new Cursor(data);
      currentOffset := start;
      nextOffset := start;
      new;
      buf.Seek(start as nat);
    }

    /** `load_obj_at_offset`: decodes through the iterator's own cursor. */
    method LoadObjAtOffset(offset: bv64) returns (r: Result<Object>)
      modifies buf
      ensures r == ObjectAt(buf.data, offset)
    {
      r := ReadObjectAt(buf, offset);
    }

    /**
     * Decodes the object at the next offset: on success it is yielded and
     * the next offset moves to its aligned end; on failure the walk stops
     * and the next offset stays. The current offset becomes the one tried.
     */
    method Next() returns (r: Option<Object>)
      modifies this, buf
      ensures currentOffset == old(nextOffset) && buf.pos == old(nextOffset) as nat
      ensures match ObjectAt(buf.data, old(nextOffset))
        case Ok(o) => r == Some(o) && nextOffset == NextObjectOffset(old(nextOffset), o)
        case Err(_) => r == None && nextOffset == old(nextOffset)
    {
      var obj := GetObjAtOffset(buf.data, nextOffset);
      currentOffset := nextOffset;
      buf.Seek(currentOffset as nat);
      match obj {
        case Ok(o) =>
          nextOffset := NextObjectOffset(currentOffset, o);
          return Some(o);
        case Err(_) =>
          return None;
      }
    }
  }

  /** The objects this crate's object iterator yields in at most `limit` steps from `offset`. */
  function ObjectsFrom(data: seq<bv8>, offset: bv64, limit: nat): (r: seq<Object>)
    ensures |r| <= limit
    decreases limit
  {
    if limit == 0 then []
    else match ObjectAt(data, offset)
      case Ok(o) => [o] + ObjectsFrom(data, NextObjectOffset(offset, o), limit - 1)
      case Err(_) => []
  }

  function LiftAll(os: seq<Objects.Object>): (r: seq<Object>)
    ensures |r| == |os| && forall i :: 0 <= i < |os| ==> r[i] == Lift(os[i])
  {
    seq(|os|, i requires 0 <= i < |os| => Lift(os[i]))
  }

  lemma LiftCons(o: Objects.Object, os: seq<Objects.Object>)
    ensures LiftAll([o] + os) == [Lift(o)] + LiftAll(os)
  {
    assert forall i :: 0 < i <= |os| ==> ([o] + os)[i] == os[i - 1];
  }

  lemma LiftSize(o: Objects.Object)
    ensures Size(Lift(o)) == Objects.Size(o)
  {
  }

  lemma ObjectsFromStep(data: seq<bv8>, offset: bv64, n: nat)
    requires n > 0
    ensures ObjectAt(data, offset).Err? ==> ObjectsFrom(data, offset, n) == []
    ensures ObjectAt(data, offset).Ok? ==>
      ObjectsFrom(data, offset, n) ==
      [ObjectAt(data, offset).value] + ObjectsFrom(data, NextObjectOffset(offset, ObjectAt(data, offset).value), n - 1)
  {
  }

  /** Where sdjournal decodes `o`, this crate decodes `o` lifted, and both iterators step to the same offset. */
  lemma LiftStep(data: seq<bv8>, offset: bv64, o: Objects.Object)
    requires Objects.ObjectAt(data, offset, Objects.MaxDepth) == Ok(o)
    ensures ObjectAt(data, offset) == Ok(Lift(o))
    ensures NextObjectOffset(offset, Lift(o)) == Iter.NextObjectOffset(offset, o)
  {
    ObjectAtAgrees(data, offset, Objects.MaxDepth);
    LiftSize(o);
    NextOffsetsAgree(offset, Lift(o), o);
  }

  /** Objects of equal size end at the same aligned offset. */
  lemma NextOffsetsAgree(offset: bv64, lo: Object, o: Objects.Object)
    requires Size(lo) == Objects.Size(o)
    ensures NextObjectOffset(offset, lo) == Iter.NextObjectOffset(offset, o)
  {
    assert AlignedEnd(offset, Objects.Size(o)) == Iter.NextObjectOffset(offset, o);
  }

  /**
   * Over the same bytes, the walk of this crate's object iterator starts
   * with sdjournal's walk, each object with its Entry items reduced; it may
   * go further, past Entry objects whose items sdjournal cannot decode.
   */
  lemma {:induction false} WalksAgree(data: seq<bv8>, offset: bv64, limit: nat)
    ensures LiftAll(Iter.ObjectsFrom(data, offset, limit)) <= ObjectsFrom(data, offset, limit)
    decreases limit
  {
    if limit > 0 {
      var r := Objects.ObjectAt(data, offset, Objects.MaxDepth);
      if r.Ok? {
        var next := Iter.NextObjectOffset(offset, r.value);
        LiftStep(data, offset, r.value);
        var m := IterWalkOk(data, offset, limit);
        ObjectsFromShift(data, offset, limit, m);
        WalksAgree(data, next, m);
        LiftPrefixCons(r.value, Iter.ObjectsFrom(data, offset, limit), Iter.ObjectsFrom(data, next, m),
          ObjectsFrom(data, offset, limit), ObjectsFrom(data, next, m));
      } else {
        WalkEnds(data, offset, limit);
      }
    }
  }

  lemma WalkEnds(data: seq<bv8>, offset: bv64, n: nat)
    requires n > 0 && Objects.ObjectAt(data, offset, Objects.MaxDepth).Err?
    ensures Iter.ObjectsFrom(data, offset, n) == []
  {
    Iter.ObjectsFromStep(data, offset, n);
  }

  lemma LiftPrefixCons(o: Objects.Object, w: seq<Objects.Object>, w': seq<Objects.Object>, v: seq<Object>, v': seq<Object>)
    requires w == [o] + w' && v == [Lift(o)] + v' && LiftAll(w') <= v'
    ensures LiftAll(w) <= v
  {
    LiftCons(o, w');
    Iter.PrefixCons(Lift(o), LiftAll(w'), v');
  }

  /** One step of sdjournal's walk over a decoded object; `m` is the bound left. */
  lemma IterWalkOk(data: seq<bv8>, offset: bv64, n: nat) returns (m: nat)
    requires n > 0
    ensures m == n - 1
    ensures Objects.ObjectAt(data, offset, Objects.MaxDepth).Ok? ==>
      var o := Objects.ObjectAt(data, offset, Objects.MaxDepth).value;
      Iter.ObjectsFrom(data, offset, n) == [o] + Iter.ObjectsFrom(data, Iter.NextObjectOffset(offset, o), m)
  {
    m := n - 1;
    IterWalkShift(data, offset, n, m);
  }

  lemma IterWalkShift(data: seq<bv8>, offset: bv64, n: nat, m: nat)
    requires n > 0 && m == n - 1
    ensures Objects.ObjectAt(data, offset, Objects.MaxDepth).Ok? ==>
      var o := Objects.ObjectAt(data, offset, Objects.MaxDepth).value;
      Iter.ObjectsFrom(data, offset, n) == [o] + Iter.ObjectsFrom(data, Iter.NextObjectOffset(offset, o), m)
  {
  }

  // ---------------------------------------------------------------------
  // The entry-array iterator

  /** One step of the chain: offset 0 ends it, as does anything but an entry array. */
  function NextArray(data: seq<bv8>, offset: bv64): Option<Objects.EntryArrayObject>
  {
    if offset == 0 then None
    else match ObjectAt(data, offset)
      case Ok(EntryArray(ea)) => Some(ea)
      case _ => None
  }

  /**
   * The chain is the same in both crates: where this crate decodes an Entry
   * sdjournal may fail, but neither is an entry array.
   */
  lemma NextArrayAgrees(data: seq<bv8>, offset: bv64)
    ensures NextArray(data, offset) == Iter.NextArray(data, offset)
  {
    ObjectAtAgrees(data, offset, Objects.MaxDepth);
    if offset != 0 && Objects.IsValid64(offset) && offset as nat < |data| && Objects.KindOf(data[offset as nat]) == Objects.ObjectEntry {
      var r := ObjectAt(data, offset);
      if r.Ok? {
        ObjectAtUnfold(data, offset);
        ObjectOfKindIsEntry(data, offset as nat);
      }
      var s := Objects.ObjectAt(data, offset, Objects.MaxDepth);
      if s.Ok? {
        Objects.ObjectAtKind(data, offset, Objects.MaxDepth);
      }
    }
  }

  /** The Entry kind decodes to nothing but an Entry. */
  lemma ObjectOfKindIsEntry(data: seq<bv8>, p: nat)
    requires ObjectOfKind(data, p, Objects.ObjectEntry).Ok?
    ensures ObjectOfKind(data, p, Objects.ObjectEntry).value.Entry?
  {
  }

  class EntryArrayIter {
    const buf: Cursor
    var currentOffset: bv64

    constructor (data: seq<bv8>, start: bv64)
      ensures fresh(buf) && buf.data == data && buf.pos == start as nat && currentOffset == start
    {
      buf := new Cursor(data);
      currentOffset := start;
      new;
      buf.Seek(start as nat);
    }

    /** Yields the array at the current offset and moves to the next in the chain; at offset 0 or a bad object it stays put. */
    method Next() returns (r: Option<Objects.EntryArrayObject>)
      modifies this
      ensures r == NextArray(buf.data, old(currentOffset))
      ensures currentOffset == if r.Some? then r.value.nextEntryArrayOffset else old(currentOffset)
    {
      if currentOffset == 0 {
        return None;
      }
      var entryArray := GetObjAtOffset(buf.data, currentOffset);
      match entryArray {
        case Ok(h) =>
          if h.EntryArray? {
            currentOffset := h.entryArray.nextEntryArrayOffset;
            return Some(h.entryArray);
          } else {
            return None;
          }
        case Err(_) =>
          return None;
      }
    }
  }

  // ---------------------------------------------------------------------
  // The entry iterator

  /** Where a scan for an Entry ends: the entry found, and the iterator's offsets after it. */
  datatype Scan = Scan(entry: Option<EntryObject>, current: bv64, next: bv64)

  /**
   * `EntryIter::next` from an object iterator at (`current`, `next`): at
   * most `n` objects are taken, stopping at the first Entry or when the
   * object iterator stops.
   */
  function ScanFrom(data: seq<bv8>, current: bv64, next: bv64, n: nat): Scan
    decreases n
  {
    if n == 0 then Scan(None, current, next)
    else match ObjectAt(data, next)
      case Err(_) => Scan(None, next, next)
      case Ok(o) =>
        if o.Entry? then Scan(Some(o.entry), next, NextObjectOffset(next, o))
        else ScanFrom(data, next, NextObjectOffset(next, o), n - 1)
  }

  lemma ScanFromStep(data: seq<bv8>, current: bv64, next: bv64, n: nat)
    requires n > 0
    ensures ObjectAt(data, next).Err? ==> ScanFrom(data, current, next, n) == Scan(None, next, next)
    ensures ObjectAt(data, next).Ok? ==> var o := ObjectAt(data, next).value;
      ScanFrom(data, current, next, n) ==
        if o.Entry? then Scan(Some(o.entry), next, NextObjectOffset(next, o))
        else ScanFrom(data, next, NextObjectOffset(next, o), n - 1)
  {
  }

  lemma ScanFromCounts(data: seq<bv8>, current: bv64, next: bv64, n: nat, n': nat)
    requires n == n'
    ensures ScanFrom(data, current, next, n) == ScanFrom(data, current, next, n')
  {
  }

  /** The first Entry of a sequence of objects. */
  function FirstEntry(os: seq<Object>): Option<EntryObject>
  {
    if os == [] then None
    else if os[0].Entry? then Some(os[0].entry)
    else FirstEntry(os[1..])
  }

  /** `FirstEntry` is the Entry with no Entry before it, and `None` when there is no Entry at all. */
  lemma {:induction false} FirstEntryMeaning(os: seq<Object>)
    ensures FirstEntry(os).None? <==> forall i :: 0 <= i < |os| ==> !os[i].Entry?
    ensures FirstEntry(os).Some? ==> exists i :: (0 <= i < |os| && os[i] == Entry(FirstEntry(os).value) &&
      forall j :: 0 <= j < i ==> !os[j].Entry?)
    decreases |os|
  {
    if os != [] && !os[0].Entry? {
      FirstEntryMeaning(os[1..]);
      if FirstEntry(os).Some? {
        var i :| 0 <= i < |os[1..]| && os[1..][i] == Entry(FirstEntry(os).value) && forall j :: 0 <= j < i ==> !os[1..][j].Entry?;
        assert os[i + 1] == os[1..][i];
        forall j | 0 <= j < i + 1
          ensures !os[j].Entry?
        {
          if j > 0 {
            assert os[j] == os[1..][j - 1];
          }
        }
      } else {
        forall i | 0 <= i < |os|
          ensures !os[i].Entry?
        {
          if i > 0 {
            assert os[i] == os[1..][i - 1];
          }
        }
      }
    }
  }

  lemma FirstEntryCons(o: Object, os: seq<Object>)
    ensures FirstEntry([o] + os) == if o.Entry? then Some(o.entry) else FirstEntry(os)
  {
    assert ([o] + os)[0] == o && ([o] + os)[1..] == os;
  }

  /** A scan of `n` objects finds the first Entry among the objects the object iterator yields in `n` steps. */
  lemma {:induction false} ScanFinds(data: seq<bv8>, current: bv64, next: bv64, n: nat)
    ensures ScanFrom(data, current, next, n).entry == FirstEntry(ObjectsFrom(data, next, n))
    decreases n
  {
    if n > 0 {
      var r := ObjectAt(data, next);
      if r.Ok? {
        var after := NextObjectOffset(next, r.value);
        var m := ObjectsFromNext(data, next, n);
        var m' := ScanFromOk(data, current, next, n, r.value);
        ScanFromCounts(data, next, after, m', m);
        ScanFinds(data, next, after, m);
        FirstEntryStep(r.value, ObjectsFrom(data, next, n), ObjectsFrom(data, after, m),
          ScanFrom(data, current, next, n).entry, ScanFrom(data, next, after, m).entry);
      } else {
        ScanEnds(data, current, next, n);
      }
    }
  }

  lemma FirstEntryStep(o: Object, w: seq<Object>, w': seq<Object>, e: Option<EntryObject>, e': Option<EntryObject>)
    requires w == [o] + w' && e == (if o.Entry? then Some(o.entry) else e') && e' == FirstEntry(w')
    ensures e == FirstEntry(w)
  {
    FirstEntryCons(o, w');
  }

  /** One step of the walk from `offset`; `m` is the bound left. */
  lemma ObjectsFromNext(data: seq<bv8>, offset: bv64, n: nat) returns (m: nat)
    requires n > 0
    ensures m == n - 1
    ensures ObjectAt(data, offset).Ok? ==>
      var o := ObjectAt(data, offset).value;
      ObjectsFrom(data, offset, n) == [o] + ObjectsFrom(data, NextObjectOffset(offset, o), m)
  {
    m := n - 1;
    ObjectsFromShift(data, offset, n, m);
  }

  lemma ObjectsFromShift(data: seq<bv8>, offset: bv64, n: nat, m: nat)
    requires n > 0 && m == n - 1
    ensures ObjectAt(data, offset).Ok? ==>
      var o := ObjectAt(data, offset).value;
      ObjectsFrom(data, offset, n) == [o] + ObjectsFrom(data, NextObjectOffset(offset, o), m)
  {
  }

  /** One step of the scan over a decoded object; `m` is the bound left. */
  lemma ScanFromOk(data: seq<bv8>, current: bv64, next: bv64, n: nat, o: Object) returns (m: nat)
    requires n > 0 && ObjectAt(data, next) == Ok(o)
    ensures m == n - 1
    ensures ScanFrom(data, current, next, n).entry ==
      if o.Entry? then Some(o.entry) else ScanFrom(data, next, NextObjectOffset(next, o), m).entry
  {
    m := n - 1;
    ScanFromStep(data, current, next, n);
    ScanFromCounts(data, next, NextObjectOffset(next, o), n - 1, m);
  }

  lemma ScanEnds(data: seq<bv8>, current: bv64, next: bv64, n: nat)
    requires n > 0 && ObjectAt(data, next).Err?
    ensures ScanFrom(data, current, next, n).entry.None? && ObjectsFrom(data, next, n) == []
  {
    ScanFromStep(data, current, next, n);
    ObjectsFromStep(data, next, n);
  }

  class EntryIter {
    const nObjects: bv64
    const inner: ObjectIter

    constructor (data: seq<bv8>, start: bv64, nObjects: bv64)
      ensures fresh(inner) && fresh(inner.buf) && inner.buf.data == data && inner.buf.pos == start as nat
      ensures inner.currentOffset == start && inner.nextOffset == start && this.nObjects == nObjects
    {
      this.nObjects := nObjects;
      inner := new ObjectIter(data, start);
    }

    /**
     * Takes objects from the inner iterator, at most `n_objects` of them,
     * and yields the first Entry; None when the inner iterator stops or the
     * count runs out first. The count starts again on every call. The inner
     * cursor stands at the inner current offset, as the object iterator
     * always leaves it.
     */
    method Next() returns (r: Option<EntryObject>)
      requires inner.buf.pos == inner.currentOffset as nat
      modifies inner, inner.buf
      ensures var s := ScanFrom(inner.buf.data, old(inner.currentOffset), old(inner.nextOffset), nObjects as nat);
        r == s.entry && inner.currentOffset == s.current && inner.nextOffset == s.next
      ensures inner.buf.pos == inner.currentOffset as nat
    {
      ghost var data := inner.buf.data;
      ghost var scan := ScanFrom(data, inner.currentOffset, inner.nextOffset, nObjects as nat);
      var k: nat := 0;
      ghost var left := nObjects as nat;
      while k < nObjects as nat
        invariant k <= nObjects as nat && left == nObjects as nat - k && inner.buf.data == data
        invariant ScanFrom(data, inner.currentOffset, inner.nextOffset, left) == scan
        invariant inner.buf.pos == inner.currentOffset as nat
        decreases nObjects as nat - k
      {
        var obj;
        obj, left := TakeNext(left);
        if obj.None? {
          return None;
        }
        if obj.value.Entry? {
          return Some(obj.value.entry);
        }
        k := k + 1;
      }
      return None;
    }

    /** One turn of the scan: the next object of the inner iterator, and the count left. */
    method TakeNext(ghost left: nat) returns (obj: Option<Object>, ghost left': nat)
      requires left > 0
      modifies inner, inner.buf
      ensures left' == left - 1 && inner.buf.pos == inner.currentOffset as nat
      ensures obj.None? ==>
        ScanFrom(inner.buf.data, old(inner.currentOffset), old(inner.nextOffset), left) == Scan(None, inner.currentOffset, inner.nextOffset)
      ensures obj.Some? && obj.value.Entry? ==>
        ScanFrom(inner.buf.data, old(inner.currentOffset), old(inner.nextOffset), left) == Scan(Some(obj.value.entry), inner.currentOffset, inner.nextOffset)
      ensures obj.Some? && !obj.value.Entry? ==>
        ScanFrom(inner.buf.data, old(inner.currentOffset), old(inner.nextOffset), left) == ScanFrom(inner.buf.data, inner.currentOffset, inner.nextOffset, left')
    {
      left' := left - 1;
      ghost var before := inner.nextOffset;
      obj := inner.Next();
      ScanFromStep(inner.buf.data, old(inner.currentOffset), before, left);
      ScanFromCounts(inner.buf.data, inner.currentOffset, inner.nextOffset, left - 1, left');
    }
  }

  // ---------------------------------------------------------------------
  // Looking a field up in an entry

  /**
   * What one item of `get_data` gives: the rest of the payload when the
   * item's object is a Data object whose payload starts with `key`. A decode
   * failure is where the source's `unwrap` panics, and so is a payload
   * shorter than the key, which the source slices past its end.
   */
  function Lookup(buf: seq<bv8>, key: seq<bv8>, item: EntryItem): (r: Result<Option<seq<bv8>>>)
    ensures var o := ObjectAt(buf, item.objectOffset);
      (r.Err? <==> o.Err? || (o.value.Data? && |o.value.data.payload| < |key|)) &&
      (r.Ok? && r.value.Some? <==> o.Ok? && o.value.Data? && key <= o.value.data.payload) &&
      (r.Ok? && r.value.Some? ==> o.value.data.payload == key + r.value.value)
  {
    var o :- ObjectAt(buf, item.objectOffset);
    if !o.Data? then Ok(None)
    else if |o.data.payload| < |key| then Err(OutOfBounds)
    else if o.data.payload[..|key|] == key then
      assert o.data.payload == key + o.data.payload[|key|..];
      Ok(Some(o.data.payload[|key|..]))
    else Ok(None)
  }

  /** `get_data` over `items`: the first item that gives a value, or the first failure before it. */
  function DataValue(buf: seq<bv8>, key: seq<bv8>, items: seq<EntryItem>): Result<Option<seq<bv8>>>
  {
    if items == [] then Ok(None)
    else
      var v :- Lookup(buf, key, items[0]);
      if v.Some? then Ok(v) else DataValue(buf, key, items[1..])
  }

  /** `get_data` finds nothing exactly when every item looks up nothing ... */
  lemma {:induction false} DataValueNone(buf: seq<bv8>, key: seq<bv8>, items: seq<EntryItem>)
    ensures DataValue(buf, key, items) == Ok(None) <==> forall i :: 0 <= i < |items| ==> Lookup(buf, key, items[i]) == Ok(None)
    decreases |items|
  {
    if items != [] && Lookup(buf, key, items[0]) == Ok(None) {
      var rest := items[1..];
      DataValueNone(buf, key, rest);
      assert forall i :: 0 < i < |items| ==> items[i] == rest[i - 1];
    }
  }

  /** ... and otherwise answers with the first item that does not look up nothing. */
  lemma {:induction false} DataValueFirst(buf: seq<bv8>, key: seq<bv8>, items: seq<EntryItem>)
    ensures DataValue(buf, key, items) != Ok(None) ==> exists i :: (0 <= i < |items| &&
      Lookup(buf, key, items[i]) == DataValue(buf, key, items) &&
      forall j :: 0 <= j < i ==> Lookup(buf, key, items[j]) == Ok(None))
    decreases |items|
  {
    if items != [] && Lookup(buf, key, items[0]) == Ok(None) {
      var rest := items[1..];
      DataValueFirst(buf, key, rest);
      if DataValue(buf, key, items) != Ok(None) {
        var i :| 0 <= i < |rest| && Lookup(buf, key, rest[i]) == DataValue(buf, key, rest) &&
          forall j :: 0 <= j < i ==> Lookup(buf, key, rest[j]) == Ok(None);
        assert items[i + 1] == rest[i];
        assert forall j :: 0 < j <= i ==> items[j] == rest[j - 1];
      }
    }
  }

  lemma DataValueStep(buf: seq<bv8>, key: seq<bv8>, items: seq<EntryItem>, i: nat)
    requires i < |items|
    ensures DataValue(buf, key, items[i..]) ==
      match Lookup(buf, key, items[i])
      case Err(e) => Err(e)
      case Ok(v) => if v.Some? then Ok(v) else DataValue(buf, key, items[i + 1..])
  {
    assert items[i..][0] == items[i] && items[i..][1..] == items[i + 1..];
  }

  /** `EntryObject::get_data`: looks `key` up in the Data objects the entry's items point to, in item order. */
  method GetData(e: EntryObject, key: seq<bv8>, buf: seq<bv8>) returns (r: Result<Option<seq<bv8>>>)
    ensures r == DataValue(buf, key, e.items)
  {
    var i := 0;
    while i < |e.items|
      invariant i <= |e.items|
      invariant DataValue(buf, key, e.items[i..]) == DataValue(buf, key, e.items)
    {
      DataValueStep(buf, key, e.items, i);
      var obj := GetObjAtOffset(buf, e.items[i].objectOffset);
      if obj.Err? {
        return Err(obj.error);
      }
      var o := obj.value;
      if o.Data? {
        if |o.data.payload| < |key| {
          return Err(OutOfBounds);
        }
        if key == o.data.payload[..|key|] {
          return Ok(Some(o.data.payload[|key|..]));
        }
      }
      i := i + 1;
    }
    return Ok(None);
  }
}
