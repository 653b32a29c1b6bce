/**
 * sdjournal's `Journal`: a file's bytes together with the header read from
 * its start, the iterators it hands out and `verify`, which checks the
 * stored hash of every Data object the object iterator reaches.
 */
module JournalFile {
  import opened Bytes
  import opened Objects = Journal
  import JH = JournalHeader
  import opened Iter

  /** An opened journal: the file's bytes and its decoded header. */
  datatype Journal = Journal(data: seq<bv8>, header: JH.JournalHeader)

  /** `Journal::new`: reads the header from the start of the file; a file shorter than the header is refused. */
  method Open(data: seq<bv8>) returns (r: Result<Journal>)
    ensures r.Ok? <==> JH.HeaderLength <= |data|
    ensures r.Err? ==> r.error == UnexpectedEof
    ensures r.Ok? ==> r.value.data == data && JH.JournalHeaderAt(data, 0) == Ok(r.value.header)
  {
    var file := new Cursor(data);
    var header :- JH.ReadJournalHeader(file);
    return Ok(Journal(data, header));
  }

  /** Where `obj_iter` and `iter_headers` start: one object header before the field hash table, in wrapping u64 arithmetic. */
  function ObjectsStart(j: Journal): bv64
  {
    j.header.fieldHashTableOffset - ObjectHeaderSize
  }

  /** `obj_iter`: an object iterator from `ObjectsStart`. */
  method ObjIter(j: Journal) returns (it: ObjectIter)
    ensures fresh(it) && fresh(it.buf) && it.buf.data == j.data
    ensures it.currentOffset == ObjectsStart(j) && it.nextOffset == ObjectsStart(j)
  {
    it := new ObjectIter(j.data, j.header.fieldHashTableOffset - ObjectHeaderSize);
  }

  /** `iter_headers`: an object-header iterator from `ObjectsStart`. */
  method IterHeaders(j: Journal) returns (it: ObjectHeaderIter)
    ensures fresh(it) && fresh(it.buf) && it.buf.data == j.data && it.nextOffset == ObjectsStart(j)
  {
    it := new ObjectHeaderIter(j.data, j.header.fieldHashTableOffset - ObjectHeaderSize);
  }

  /** `ea_iter`: the chain of entry arrays from the header's `entry_array_offset`. */
  method EaIter(j: Journal) returns (it: EntryArrayIter)
    ensures fresh(it) && fresh(it.buf) && it.buf.data == j.data && it.currentOffset == j.header.entryArrayOffset
  {
    it := new EntryArrayIter(j.data, j.header.entryArrayOffset);
  }

  /**
   * `iter_entries`: the entries listed by the chain of entry arrays from
   * the header's `entry_array_offset`, of which at most `limit` arrays are
   * read.
   */
  method IterEntries(j: Journal, limit: nat) returns (it: EntryIter)
    ensures fresh(it) && it.buf.data == j.data
    ensures it.offsets == Flatten(ArraysFrom(j.data, j.header.entryArrayOffset, limit))
  {
    it := new EntryIter(j.data, j.header.entryArrayOffset, limit);
  }

  /** A Data object whose stored hash is not the lookup3 hash of its payload. */
  predicate Corrupt(o: Object)
  {
    o.Data? && o.data.hash != DataHash(o.data)
  }

  /** Some object of `os` is corrupt. */
  predicate AnyCorrupt(os: seq<Object>)
  {
    os != [] && (Corrupt(os[0]) || AnyCorrupt(os[1..]))
  }

  lemma AnyCorruptCons(o: Object, os: seq<Object>)
    ensures AnyCorrupt([o] + os) <==> Corrupt(o) || AnyCorrupt(os)
  {
    assert ([o] + os)[0] == o && ([o] + os)[1..] == os;
  }

  /** `AnyCorrupt` holds exactly when some element is corrupt. */
  lemma {:induction false} AnyCorruptMeaning(os: seq<Object>)
    ensures AnyCorrupt(os) <==> exists i :: 0 <= i < |os| && Corrupt(os[i])
    decreases |os|
  {
    if os != [] {
      AnyCorruptMeaning(os[1..]);
      if AnyCorrupt(os[1..]) {
        var i :| 0 <= i < |os[1..]| && Corrupt(os[1..][i]);
        assert os[i + 1] == os[1..][i];
      }
      if exists i :: 0 <= i < |os| && Corrupt(os[i]) {
        var i :| 0 <= i < |os| && Corrupt(os[i]);
        if i > 0 {
          assert os[1..][i - 1] == os[i];
        }
      }
    }
  }

  /**
   * What `verify` answers on the objects `w` the object iterator yields
   * within `limit` steps: false at the first corrupt Data object, true when
   * the walk ends first, and `None` when the bound is reached first.
   */
  function Verdict(w: seq<Object>, limit: nat): Option<bool>
    decreases limit
  {
    if limit == 0 then None
    else if w == [] then Some(true)
    else if Corrupt(w[0]) then Some(false)
    else Verdict(w[1..], limit - 1)
  }

  lemma VerdictCons(o: Object, w: seq<Object>, n: nat)
    requires n > 0
    ensures Verdict([o] + w, n) == if Corrupt(o) then Some(false) else Verdict(w, n - 1)
  {
    assert ([o] + w)[0] == o && ([o] + w)[1..] == w;
  }

  /**
   * `v` is the right verdict on the walk `w` checked with bound `limit`:
   * false exactly when some object of `w` is corrupt, true exactly when none
   * is and the walk ended within the bound, `None` when none is and the
   * bound was used up.
   */
  predicate Judges(v: Option<bool>, w: seq<Object>, limit: nat)
  {
    (v == Some(false) <==> AnyCorrupt(w)) &&
    (v == Some(true) <==> !AnyCorrupt(w) && |w| < limit) &&
    (v == None <==> !AnyCorrupt(w) && |w| == limit)
  }

  /** A verdict on the rest of a walk extends to the walk with one more object in front. */
  lemma JudgesCons(o: Object, rest: seq<Object>, v: Option<bool>, limit: nat)
    requires limit > 0 && |rest| <= limit - 1 && Judges(v, rest, limit - 1)
    ensures Judges(if Corrupt(o) then Some(false) else v, [o] + rest, limit)
  {
    AnyCorruptCons(o, rest);
  }

  /** Stopping at the first corrupt object judges the whole walk, for every walk within the bound. */
  lemma {:induction false} VerdictMeaning(w: seq<Object>, limit: nat)
    requires |w| <= limit
    ensures Judges(Verdict(w, limit), w, limit)
    decreases limit
  {
    if limit > 0 && w != [] {
      VerdictMeaning(w[1..], limit - 1);
      assert w == [w[0]] + w[1..];
      JudgesCons(w[0], w[1..], Verdict(w[1..], limit - 1), limit);
    }
  }

  lemma VerdictCounts(data: seq<bv8>, offset: bv64, n: nat, n': nat)
    requires n == n'
    ensures Verdict(ObjectsFrom(data, offset, n), n) == Verdict(ObjectsFrom(data, offset, n'), n')
  {
  }

  /** One step of `verify` on the walk from `offset`; `n'` is the bound left. */
  lemma VerdictStep(data: seq<bv8>, offset: bv64, n: nat) returns (n': nat)
    requires n > 0
    ensures n' == n - 1
    ensures ObjectAt(data, offset, MaxDepth).Err? ==> Verdict(ObjectsFrom(data, offset, n), n) == Some(true)
    ensures ObjectAt(data, offset, MaxDepth).Ok? ==>
      var o := ObjectAt(data, offset, MaxDepth).value;
      Verdict(ObjectsFrom(data, offset, n), n) ==
        if Corrupt(o) then Some(false) else Verdict(ObjectsFrom(data, NextObjectOffset(offset, o), n'), n')
  {
    n' := n - 1;
    ObjectsFromStep(data, offset, n);
    var r := ObjectAt(data, offset, MaxDepth);
    if r.Ok? {
      var next := NextObjectOffset(offset, r.value);
      VerdictCons(r.value, ObjectsFrom(data, next, n - 1), n);
      VerdictCounts(data, next, n - 1, n');
    }
  }

  /**
   * `verify`: walks the objects from `ObjectsStart` and answers false at the
   * first corrupt Data object, true once the walk ends. The source walks
   * until the object iterator stops, which a cycle of sizes can prevent;
   * here at most `limit` objects are checked, and `None` says the bound was
   * reached first.
   */
  method Verify(j: Journal, limit: nat) returns (r: Option<bool>)
    ensures r == Verdict(ObjectsFrom(j.data, ObjectsStart(j), limit), limit)
    ensures Judges(r, ObjectsFrom(j.data, ObjectsStart(j), limit), limit)
  {
    VerdictMeaning(ObjectsFrom(j.data, ObjectsStart(j), limit), limit);
    var it := ObjIter(j);
    var k := 0;
    ghost var left := limit;
    while k < limit
      invariant k <= limit && left == limit - k && it.buf.data == j.data
      invariant Verdict(ObjectsFrom(j.data, it.nextOffset, left), left) == Verdict(ObjectsFrom(j.data, ObjectsStart(j), limit), limit)
      decreases limit - k
    {
      var obj, corrupt;
      obj, corrupt, left := CheckNext(it, left);
      if obj.None? {
        return Some(true);
      }
      if corrupt {
        return Some(false);
      }
      k := k + 1;
    }
    return None;
  }

  /** One turn of `verify`'s loop: the next object, whether it is corrupt, and the bound left. */
  method CheckNext(it: ObjectIter, ghost left: nat) returns (obj: Option<Object>, corrupt: bool, ghost left': nat)
    requires left > 0
    modifies it, it.buf
    ensures left' == left - 1
    ensures obj.None? ==> Verdict(ObjectsFrom(it.buf.data, old(it.nextOffset), left), left) == Some(true)
    ensures corrupt ==> Verdict(ObjectsFrom(it.buf.data, old(it.nextOffset), left), left) == Some(false)
    ensures obj.Some? && !corrupt ==>
      Verdict(ObjectsFrom(it.buf.data, old(it.nextOffset), left), left) == Verdict(ObjectsFrom(it.buf.data, it.nextOffset, left'), left')
  {
    ghost var before := it.nextOffset;
    obj := it.Next();
    left' := VerdictStep(it.buf.data, before, left);
    corrupt := false;
    if obj.Some? && obj.value.Data? {
      var storedHash := obj.value.data.hash;
      var calcHash := DataHash(obj.value.data);
      corrupt := storedHash != calcHash;
    }
  }
}
