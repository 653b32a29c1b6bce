/**
 * The iterators of sdjournal's iter.rs over an in-memory journal: object
 * headers, whole objects, the chain of entry arrays and the entries those
 * arrays point to. Each iterator is a class whose `Next` is proved against
 * a function of the buffer and its old state; the sequences the iterators
 * yield are recursive functions with a step bound.
 */
module Iter {
  import opened Bytes
  import opened Journal

  // ---------------------------------------------------------------------
  // Object headers

  /**
   * `load_obj_header_at_offset`: only the 16-byte header. An unaligned
   * offset and the type byte 0 are both "Invalid offset"; a type byte above
   * 7 is `ObjectTypeMax` and, unlike in `get_obj_at_offset`, no error.
   */
  function LoadHeaderAt(data: seq<bv8>, offset: bv64): Result<ObjectHeader>
  {
    if !IsValid64(offset) then Err(InvalidOffset)
    else if |data| <= offset as nat then Err(UnexpectedEof)
    else if data[offset as nat] == 0 then Err(InvalidOffset)
    else HeaderAt(data, offset as nat, KindOf(data[offset as nat]))
  }

  /** Exactly the headers that are aligned, in the buffer and not unused load. */
  lemma LoadHeaderAtDecides(data: seq<bv8>, offset: bv64)
    ensures LoadHeaderAt(data, offset).Ok? <==> IsValid64(offset) && offset as nat + 16 <= |data| && data[offset as nat] != 0
    ensures !IsValid64(offset) ==> LoadHeaderAt(data, offset) == Err(InvalidOffset)
    ensures IsValid64(offset) && offset as nat < |data| && data[offset as nat] == 0 ==> LoadHeaderAt(data, offset) == Err(InvalidOffset)
    ensures LoadHeaderAt(data, offset).Ok? ==>
      LoadHeaderAt(data, offset).value.kind == KindOf(data[offset as nat]) &&
      LoadHeaderAt(data, offset).value.flags == data[offset as nat + 1] &&
      LoadHeaderAt(data, offset).value.reserved == data[offset as nat + 2..offset as nat + 8] &&
      LoadHeaderAt(data, offset).value.size == LeAt(data, offset as nat + 8)
  {
    LoadHeaderAtLoads(data, offset);
    LoadHeaderAtOnlyLoads(data, offset);
    if LoadHeaderAt(data, offset).Ok? {
      HeaderFields(LoadHeaderAt(data, offset), data, offset as nat, KindOf(data[offset as nat]));
    }
  }

  lemma LoadHeaderAtLoads(data: seq<bv8>, offset: bv64)
    ensures IsValid64(offset) && offset as nat + 16 <= |data| && data[offset as nat] != 0 ==> LoadHeaderAt(data, offset).Ok?
  {
  }

  /** ... and what it loads is the header at `offset`, of the kind its type byte names. */
  lemma LoadHeaderAtOnlyLoads(data: seq<bv8>, offset: bv64)
    ensures LoadHeaderAt(data, offset).Ok? ==>
      (IsValid64(offset) && offset as nat + 16 <= |data| && data[offset as nat] != 0 &&
       LoadHeaderAt(data, offset) == HeaderAt(data, offset as nat, KindOf(data[offset as nat])))
  {
    if LoadHeaderAt(data, offset).Ok? {
      assert IsValid64(offset) && offset as nat < |data| && data[offset as nat] != 0;
      assert LoadHeaderAt(data, offset) == HeaderAt(data, offset as nat, KindOf(data[offset as nat]));
    }
  }

  lemma HeaderFields(r: Result<ObjectHeader>, data: seq<bv8>, p: nat, kind: ObjectType)
    requires r == HeaderAt(data, p, kind) && r.Ok?
    ensures p + 16 <= |data| && r.value.kind == kind && r.value.flags == data[p + 1] &&
      r.value.reserved == data[p + 2..p + 8] && r.value.size == LeAt(data, p + 8)
  {
  }

  /** The headers the header iterator loads are those of the objects `get_obj_at_offset` decodes. */
  lemma LoadHeaderAgrees(data: seq<bv8>, offset: bv64, fuel: nat)
    requires ObjectAt(data, offset, fuel).Ok?
    ensures var h := ObjectAt(data, offset, fuel).value.Header(); var r := LoadHeaderAt(data, offset);
      r.Ok? && r.value.kind == h.kind && r.value.flags == h.flags &&
      r.value.reserved == h.reserved && r.value.size == h.size
  {
    ObjectAtKind(data, offset, fuel);
    ObjectAtHeader(data, offset, fuel);
    LoadHeaderAtDecides(data, offset);
  }

  /** A type byte above 7 stops `get_obj_at_offset` but not the header iterator. */
  lemma LoadHeaderAcceptsMax(data: seq<bv8>, offset: bv64, fuel: nat)
    requires IsValid64(offset) && offset as nat + 16 <= |data| && 7 < data[offset as nat]
    ensures LoadHeaderAt(data, offset).Ok? && LoadHeaderAt(data, offset).value.kind == ObjectTypeMax
    ensures ObjectAt(data, offset, fuel) == Err(UnusedMaxObject)
  {
    LoadHeaderAtDecides(data, offset);
    KindOfUnused(data[offset as nat]);
    ObjectAtRefused(data, offset, fuel);
  }

  /**
   * `next_obj_header_offset`: from the cursor's position, which is just past
   * the header, the object's size less the header, rounded up; in wrapping
   * u64 arithmetic.
   */
  function NextObjHeaderOffset(position: bv64, size: bv64): bv64
  {
    Align64(position + size - ObjectHeaderSize)
  }

  /** Where the header iterator goes after the header at `offset`. */
  function NextHeaderOffset(offset: bv64, size: bv64): bv64
  {
    NextObjHeaderOffset(offset + ObjectHeaderSize, size)
  }

  /** The header iterator steps exactly as the object iterator does: to the aligned end of the object. */
  lemma NextHeaderOffsetAligns(offset: bv64, size: bv64)
    ensures NextHeaderOffset(offset, size) == Align64(offset + size)
  {
  }

  /** `ObjectHeaderIter`: walks the file header by header. */
  class ObjectHeaderIter {
    const buf: Cursor
    var nextOffset: bv64

    constructor (data: seq<bv8>, start: bv64)
      ensures fresh(buf) && buf.data == data && buf.pos == start as nat && nextOffset == start
    {
      buf := new Cursor(data);
      nextOffset := start;
      new;
      buf.Seek(start as nat);
    }

    /** Seeks to `offset` and reads the header there; on success the cursor is just past it. */
    method LoadHeader(offset: bv64) returns (r: Result<ObjectHeader>)
      modifies buf
      ensures r == LoadHeaderAt(buf.data, offset)
      ensures r.Ok? ==> buf.pos == offset as nat + 16
    {
      if !IsValid64(offset) {
        return Err(InvalidOffset);
      }
      ghost var p := offset as nat;
      buf.Seek(offset as nat);
      var t :- buf.ReadU8();
      if t == 0 {
        return Err(InvalidOffset);
      }
      r := ReadObjectHeader(buf, p, KindOf(t));
    }

    /** A header that loads is yielded and the iterator moves past its object; otherwise it stops where it is. */
    method Next() returns (r: Option<ObjectHeader>)
      modifies this, buf
      ensures match LoadHeaderAt(buf.data, old(nextOffset))
        case Ok(h) => r == Some(h) && nextOffset == NextHeaderOffset(old(nextOffset), h.size)
        case Err(_) => r == None && nextOffset == old(nextOffset)
    {
      var offset := nextOffset;
      var header := LoadHeader(offset);
      match header {
        case Ok(h) =>
          // the cursor stands just past the header
          nextOffset := NextObjHeaderOffset(offset + ObjectHeaderSize, h.size);
          return Some(h);
        case Err(_) =>
          return None;
      }
    }
  }

  /** The headers the header iterator yields in at most `limit` steps from `offset`. */
  function HeadersFrom(data: seq<bv8>, offset: bv64, limit: nat): (r: seq<ObjectHeader>)
    ensures |r| <= limit
    decreases limit
  {
    if limit == 0 then []
    else match LoadHeaderAt(data, offset)
      case Ok(h) => [h] + HeadersFrom(data, NextHeaderOffset(offset, h.size), limit - 1)
      case Err(_) => []
  }

  /** Unfolds one step of the header walk. */
  lemma HeadersFromStep(data: seq<bv8>, offset: bv64, n: nat)
    requires n > 0
    ensures LoadHeaderAt(data, offset).Err? ==> HeadersFrom(data, offset, n) == []
    ensures LoadHeaderAt(data, offset).Ok? ==>
      HeadersFrom(data, offset, n) ==
      [LoadHeaderAt(data, offset).value] + HeadersFrom(data, NextHeaderOffset(offset, LoadHeaderAt(data, offset).value.size), n - 1)
  {
  }

  /** Stepping the header iterator `limit` times from `offset` yields `HeadersFrom(data, offset, limit)`. */
  method CollectHeaders(data: seq<bv8>, start: bv64, limit: nat) returns (hs: seq<ObjectHeader>)
    ensures hs == HeadersFrom(data, start, limit)
  {
    var it := new ObjectHeaderIter(data, start);
    hs := [];
    var k := 0;
    // the headers still to come
    ghost var rest := HeadersFrom(data, start, limit);
    assert hs + rest == rest;
    while k < limit
      invariant k <= limit && it.buf.data == data
      invariant rest == HeadersFrom(data, it.nextOffset, limit - k)
      invariant hs + rest == HeadersFrom(data, start, limit)
      decreases limit - k
    {
      ghost var before := it.nextOffset;
      var h := it.Next();
      HeadersFromStep(data, before, limit - k);
      if h.None? {
        assert hs + [] == hs;
        return;
      }
      ghost var rest' := HeadersFrom(data, it.nextOffset, limit - k - 1);
      SeqAssociates(hs, [h.value], rest');
      hs := hs + [h.value];
      rest := rest';
      k := k + 1;
    }
    assert hs + [] == hs;
  }

  /** Every header the iterator yields is of a used kind. */
  lemma {:induction false} HeadersFromUsed(data: seq<bv8>, offset: bv64, limit: nat)
    ensures forall i :: 0 <= i < |HeadersFrom(data, offset, limit)| ==>
      HeadersFrom(data, offset, limit)[i].kind != ObjectUnused
    decreases limit
  {
    if limit > 0 {
      match LoadHeaderAt(data, offset)
      case Ok(h) =>
        LoadHeaderAtDecides(data, offset);
        KindOfUnused(data[offset as nat]);
        HeadersFromUsed(data, NextHeaderOffset(offset, h.size), limit - 1);
      case Err(_) =>
    }
  }

  // ---------------------------------------------------------------------
  // Objects

  /** The offset after an object decoded at `offset`: its end, rounded up to the next valid offset. */
  function NextObjectOffset(offset: bv64, o: Object): bv64
  {
    Align64(offset + Size(o))
  }

  /** `ObjectIter`: walks the file object by object. */
  class ObjectIter {
    const buf: Cursor
    var currentOffset: bv64
    var nextOffset: bv64

    constructor (data: seq<bv8>, start: bv64)
      ensures fresh(buf) && buf.data == data && buf.pos == start as nat
      ensures currentOffset == start && nextOffset == start
    {
      buf := new Cursor(data);
      currentOffset := start;
      nextOffset := start;
      new;
      buf.Seek(start as nat);
    }

    /**
     * Decodes the object at the next offset. A decoded object is yielded and
     * the next offset moves past it; a failure ends the walk and keeps the
     * next offset. Either way the current offset becomes the one tried.
     */
    method Next() returns (r: Option<Object>)
      modifies this, buf
      ensures currentOffset == old(nextOffset) && buf.pos == old(nextOffset) as nat
      ensures match ObjectAt(buf.data, old(nextOffset), MaxDepth)
        case Ok(o) => r == Some(o) && nextOffset == NextObjectOffset(old(nextOffset), o)
        case Err(_) => r == None && nextOffset == old(nextOffset)
    {
      var file := new Cursor(buf.data);
      var obj := GetObjAtOffset(file, nextOffset, MaxDepth);
      currentOffset := nextOffset;
      buf.Seek(currentOffset as nat);
      match obj {
        case Ok(o) =>
          // `next_obj_offset`, from the cursor's position: the current offset
          nextOffset := NextObjectOffset(currentOffset, o);
          return Some(o);
        case Err(_) =>
          return None;
      }
    }
  }

  /** The objects the object iterator yields in at most `limit` steps from `offset`. */
  function ObjectsFrom(data: seq<bv8>, offset: bv64, limit: nat): (r: seq<Object>)
    ensures |r| <= limit
    decreases limit
  {
    if limit == 0 then []
    else match ObjectAt(data, offset, MaxDepth)
      case Ok(o) => [o] + ObjectsFrom(data, NextObjectOffset(offset, o), limit - 1)
      case Err(_) => []
  }

  /** Unfolds one step of the object walk. */
  lemma ObjectsFromStep(data: seq<bv8>, offset: bv64, n: nat)
    requires n > 0
    ensures ObjectAt(data, offset, MaxDepth).Err? ==> ObjectsFrom(data, offset, n) == []
    ensures ObjectAt(data, offset, MaxDepth).Ok? ==>
      ObjectsFrom(data, offset, n) ==
      [ObjectAt(data, offset, MaxDepth).value] + ObjectsFrom(data, NextObjectOffset(offset, ObjectAt(data, offset, MaxDepth).value), n - 1)
  {
  }

  /** The object iterator steps as the header iterator does. */
  lemma NextOffsetsAgree(offset: bv64, o: Object)
    ensures NextObjectOffset(offset, o) == NextHeaderOffset(offset, Size(o))
  {
    NextHeaderOffsetAligns(offset, Size(o));
  }

  /** The headers of a sequence of objects. */
  function HeadersOf(os: seq<Object>): (r: seq<ObjectHeader>)
    ensures |r| == |os| && forall i :: 0 <= i < |os| ==> r[i] == os[i].Header()
  {
    seq(|os|, i requires 0 <= i < |os| => os[i].Header())
  }

  lemma HeadersOfCons(o: Object, os: seq<Object>)
    ensures HeadersOf([o] + os) == [o.Header()] + HeadersOf(os)
  {
    assert forall i :: 0 < i <= |os| ==> ([o] + os)[i] == os[i - 1];
  }

  lemma PrefixCons<T>(x: T, a: seq<T>, b: seq<T>)
    requires a <= b
    ensures [x] + a <= [x] + b
  {
  }

  /**
   * Walking headers from an offset visits, in lockstep, the headers of all
   * the objects the object iterator yields from it, and perhaps more: it
   * also passes objects of a type above 7 and objects that do not decode.
   */
  lemma {:induction false} HeadersCoverObjects(data: seq<bv8>, offset: bv64, limit: nat)
    ensures HeadersOf(ObjectsFrom(data, offset, limit)) <= HeadersFrom(data, offset, limit)
    decreases limit
  {
    if limit > 0 && ObjectAt(data, offset, MaxDepth).Ok? {
      var o := ObjectAt(data, offset, MaxDepth).value;
      LoadHeaderAgrees(data, offset, MaxDepth);
      var h := LoadHeaderAt(data, offset).value;
      assert h == o.Header();
      NextOffsetsAgree(offset, o);
      var next := NextObjectOffset(offset, o);
      HeadersCoverObjects(data, next, limit - 1);
      ObjectsFromStep(data, offset, limit);
      HeadersFromStep(data, offset, limit);
      var os, hs := ObjectsFrom(data, next, limit - 1), HeadersFrom(data, next, limit - 1);
      HeadersOfCons(o, os);
      PrefixCons(h, HeadersOf(os), hs);
    }
  }

  // ---------------------------------------------------------------------
  // Entry arrays

  /** One step of the entry-array iterator: offset 0 ends the chain, as does anything but an entry array. */
  function NextArray(data: seq<bv8>, offset: bv64): Option<EntryArrayObject>
  {
    if offset == 0 then None
    else match ObjectAt(data, offset, MaxDepth)
      case Ok(EntryArray(ea)) => Some(ea)
      case _ => None
  }

  /** No array the iterator yields lists the offset 0: the zero slots are dropped. */
  lemma NextArrayNoZeros(data: seq<bv8>, offset: bv64)
    requires NextArray(data, offset).Some?
    ensures forall i :: 0 <= i < |NextArray(data, offset).value.items| ==> NextArray(data, offset).value.items[i] != 0
  {
    var ea := NextArray(data, offset).value;
    var p := offset as nat;
    ObjectAtEntryArray(data, offset, MaxDepth, ea);
    var h := HeaderAt(data, p, ObjectEntryArray).value;
    EntryArrayLayout(data, p, h);
    var slots := SlotsAt(data, p + 24, SlotCount(h.size)).value;
    forall i | 0 <= i < |ea.items|
      ensures ea.items[i] != 0
    {
      DropZerosMember(slots, ea.items[i]);
    }
  }

  /** `EntryArrayIter`: follows the chain of entry arrays. */
  class EntryArrayIter {
    const buf: Cursor
    var currentOffset: bv64

    constructor (data: seq<bv8>, start: bv64)
      ensures fresh(buf) && buf.data == data && buf.pos == start as nat && currentOffset == start
    {
      buf := new Cursor(data);
      currentOffset := start;
      new;
      buf.Seek(start as nat);
    }

    /** Yields the array at the current offset and moves to the next one in the chain; at the end it stays put. */
    method Next() returns (r: Option<EntryArrayObject>)
      modifies this
      ensures r == NextArray(buf.data, old(currentOffset))
      ensures currentOffset == if r.Some? then r.value.nextEntryArrayOffset else old(currentOffset)
    {
      if currentOffset == 0 {
        return None;
      }
      var file := new Cursor(buf.data);
      var entryArray := GetObjAtOffset(file, currentOffset, MaxDepth);
      match entryArray {
        case Ok(h) =>
          if h.EntryArray? {
            currentOffset := h.entryArray.nextEntryArrayOffset;
            return Some(h.entryArray);
          } else {
            return None;
          }
        case Err(_) =>
          return None;
      }
    }
  }

  /** The arrays the entry-array iterator yields in at most `limit` steps from `offset`. */
  function ArraysFrom(data: seq<bv8>, offset: bv64, limit: nat): (r: seq<EntryArrayObject>)
    ensures |r| <= limit
    decreases limit
  {
    if limit == 0 then []
    else match NextArray(data, offset)
      case Some(ea) => [ea] + ArraysFrom(data, ea.nextEntryArrayOffset, limit - 1)
      case None => []
  }

  /** The item lists of `arrays`, one after another. */
  function Flatten(arrays: seq<EntryArrayObject>): (r: seq<bv64>)
  {
    if arrays == [] then [] else arrays[0].items + Flatten(arrays[1..])
  }

  lemma {:induction false} FlattenAppend(a: seq<EntryArrayObject>, b: seq<EntryArrayObject>)
    ensures Flatten(a + b) == Flatten(a) + Flatten(b)
  {
    if a == [] {
      assert a + b == b;
    } else {
      assert (a + b)[0] == a[0];
      assert (a + b)[1..] == a[1..] + b;
      FlattenAppend(a[1..], b);
    }
  }

  /** An offset is queued exactly when one of the yielded arrays lists it. */
  lemma {:induction false} FlattenMember(arrays: seq<EntryArrayObject>, x: bv64)
    ensures x in Flatten(arrays) <==> exists i :: 0 <= i < |arrays| && x in arrays[i].items
  {
    if arrays != [] {
      FlattenMember(arrays[1..], x);
      if x in Flatten(arrays[1..]) {
        var i :| 0 <= i < |arrays[1..]| && x in arrays[1..][i].items;
        assert x in arrays[i + 1].items;
      }
      if exists i :: 0 <= i < |arrays| && x in arrays[i].items {
        var i :| 0 <= i < |arrays| && x in arrays[i].items;
        if i > 0 {
          assert x in arrays[1..][i - 1].items;
        }
      }
    }
  }

  /** The chain never yields an array with a zero slot, so no queued offset is 0. */
  lemma {:induction false} ArraysFromNoZeros(data: seq<bv8>, offset: bv64, limit: nat)
    ensures forall i :: 0 <= i < |Flatten(ArraysFrom(data, offset, limit))| ==>
      Flatten(ArraysFrom(data, offset, limit))[i] != 0
    decreases limit
  {
    if limit > 0 {
      match NextArray(data, offset)
      case Some(ea) =>
        NextArrayNoZeros(data, offset);
        ArraysFromNoZeros(data, ea.nextEntryArrayOffset, limit - 1);
        assert ArraysFrom(data, offset, limit)[1..] == ArraysFrom(data, ea.nextEntryArrayOffset, limit - 1);
      case None =>
    }
  }

  // ---------------------------------------------------------------------
  // Entries

  /** One step of the entry iterator on a queued offset; a decode failure is where the source's `unwrap` panics. */
  function EntryAtOffset(data: seq<bv8>, offset: bv64): Result<Option<EntryObject>>
  {
    var o :- ObjectAt(data, offset, MaxDepth);
    if o.Entry? then Ok(Some(o.entry)) else Ok(None)
  }

  /** The entry step yields an entry exactly when an Entry object decodes at the offset. */
  lemma EntryAtOffsetMeaning(data: seq<bv8>, offset: bv64)
    ensures var r := EntryAtOffset(data, offset); var o := ObjectAt(data, offset, MaxDepth);
      (r.Err? <==> o.Err?) &&
      (r.Ok? && r.value.Some? <==> o.Ok? && o.value.Entry?) &&
      (r.Ok? && r.value.Some? ==> r.value.value == o.value.entry && r.value.value.header.kind == ObjectEntry)
  {
    var o := ObjectAt(data, offset, MaxDepth);
    if o.Ok? {
      ObjectAtKind(data, offset, MaxDepth);
    }
  }

  /** Unfolds one step of the chain. */
  lemma ArraysFromStep(data: seq<bv8>, offset: bv64, n: nat)
    requires n > 0
    ensures NextArray(data, offset).None? ==> ArraysFrom(data, offset, n) == []
    ensures NextArray(data, offset).Some? ==>
      Flatten(ArraysFrom(data, offset, n)) ==
      NextArray(data, offset).value.items + Flatten(ArraysFrom(data, NextArray(data, offset).value.nextEntryArrayOffset, n - 1))
  {
    if NextArray(data, offset).Some? {
      var ea := NextArray(data, offset).value;
      assert ArraysFrom(data, offset, n) == [ea] + ArraysFrom(data, ea.nextEntryArrayOffset, n - 1);
      assert ([ea] + ArraysFrom(data, ea.nextEntryArrayOffset, n - 1))[1..] == ArraysFrom(data, ea.nextEntryArrayOffset, n - 1);
    }
  }

  lemma SeqAssociates<T>(a: seq<T>, b: seq<T>, c: seq<T>)
    ensures a + (b + c) == (a + b) + c
  {
  }

  /** The inner loop of `EntryIter::new`: each of an array's items is pushed to the back of the queue. */
  method PushBackAll(queue: seq<bv64>, items: seq<bv64>) returns (r: seq<bv64>)
    ensures r == queue + items
  {
    r := queue;
    var j := 0;
    while j < |items|
      invariant j <= |items| && r == queue + items[..j]
    {
      r := r + [items[j]];
      j := j + 1;
    }
    assert items[..|items|] == items;
  }

  lemma ArraysFromCounts(data: seq<bv8>, offset: bv64, n: nat, n': nat)
    requires n == n'
    ensures Flatten(ArraysFrom(data, offset, n)) == Flatten(ArraysFrom(data, offset, n'))
  {
  }

  /** One turn of `EntryIter::new`'s outer loop: the next array's items, and the bound left. */
  method TakeArray(eaIter: EntryArrayIter, ghost left: nat) returns (items: Option<seq<bv64>>, ghost left': nat)
    requires left > 0
    modifies eaIter
    ensures left' == left - 1
    ensures items.None? ==> Flatten(ArraysFrom(eaIter.buf.data, old(eaIter.currentOffset), left)) == []
    ensures items.Some? ==> (Flatten(ArraysFrom(eaIter.buf.data, old(eaIter.currentOffset), left)) ==
      items.value + Flatten(ArraysFrom(eaIter.buf.data, eaIter.currentOffset, left')))
  {
    left' := left - 1;
    ghost var before := eaIter.currentOffset;
    var entryArray := eaIter.Next();
    ArraysFromStep(eaIter.buf.data, before, left);
    ArraysFromCounts(eaIter.buf.data, eaIter.currentOffset, left - 1, left');
    if entryArray.None? {
      return None, left';
    }
    return Some(entryArray.value.items), left';
  }

  /**
   * `EntryIter`: a queue of entry offsets gathered up front from the chain
   * of entry arrays, then decoded one at a time. The source follows the
   * chain until it ends; here at most `limit` arrays are read.
   */
  class EntryIter {
    const buf: Cursor
    var offsets: seq<bv64>

    constructor (data: seq<bv8>, start: bv64, limit: nat)
      ensures fresh(buf) && buf.data == data
      ensures offsets == Flatten(ArraysFrom(data, start, limit))
    {
      var eaIter := new EntryArrayIter(data, start);
      var queue: seq<bv64> := [];
      var k := 0;
      ghost var left := limit;
      // the offsets still to be queued
      ghost var rest := Flatten(ArraysFrom(data, start, limit));
      assert queue + rest == rest;
      while k < limit
        invariant k <= limit && left == limit - k && eaIter.buf.data == data
        invariant rest == Flatten(ArraysFrom(data, eaIter.currentOffset, left))
        invariant queue + rest == Flatten(ArraysFrom(data, start, limit))
        decreases limit - k
      {
        var items;
        items, left := TakeArray(eaIter, left);
        if items.None? {
          break;
        }
        ghost var rest' := Flatten(ArraysFrom(data, eaIter.currentOffset, left));
        SeqAssociates(queue, items.value, rest');
        queue := PushBackAll(queue, items.value);
        rest := rest';
        k := k + 1;
      }
      if k == limit {
        assert rest == [];
      }
      assert queue + [] == queue;
      buf := new Cursor(data);
      offsets := queue;
    }

    /**
     * Pops the front offset and decodes it: nothing when the queue is empty,
     * the entry when an Entry decodes, nothing for another kind, and the
     * error where the source panics.
     */
    method Next() returns (r: Result<Option<EntryObject>>)
      modifies this
      ensures old(offsets) == [] ==> r == Ok(None) && offsets == []
      ensures old(offsets) != [] ==> r == EntryAtOffset(buf.data, old(offsets)[0]) && offsets == old(offsets)[1..]
    {
      if offsets == [] {
        return Ok(None);
      }
      var offset := offsets[0];
      offsets := offsets[1..];
      var file := new Cursor(buf.data);
      var entry :- GetObjAtOffset(file, offset, MaxDepth);
      if entry.Entry? {
        return Ok(Some(entry.entry));
      } else {
        return Ok(None);
      }
    }
  }
}
