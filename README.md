# sdjournal-rs in Dafny

This project models the core of `sdjournal-rs`, a Rust reader for systemd journal files, and proves properties about that model. The model covers four parts:

- **The lookup3 hash** (`Lookup3`, `Lookup3Goldens`). These are Bob Jenkins' `hashlittle`, `hashlittle2`, `hashword` and `hashword2` over wrapping 32-bit words, and the 64-bit `rhash64` that journald stores for every Data object. `mix` and `final_` are total functions on a triple of `bv32` words. Each hash is a method with the source's `while` loop, proved equal to a recursive specification function. The golden values checked by the source's own tests are proved exactly.
- **Object decoding** (`Journal`, `JournalHeader`). This covers the 8-byte offset helpers, `get_obj_at_offset` and `JournalHeader::new`. Each is a method that reads step by step through a `Cursor` over the file's bytes. Each is proved equal to a declarative function of the bytes that states the on-disk layout. The object kinds are Data, Field, Entry, data and field hash tables, EntryArray and Tag. The Entry hash is the xor of its item hashes.
- **The journal and its iterators** (`Iter`, `JournalFile`). The object-header iterator, the object iterator, the entry-array chain iterator and the queued entry iterator are classes. Each `Next` is proved against a function of the buffer and the iterator's old fields. `verify` is proved to answer false exactly when a Data object on the walk has a wrong stored hash.
- **The older crate in `src/lib.rs`** (`Legacy`). The same objects are modelled with a flat Entry item (offset and hash, nothing decoded behind it). The model also covers that crate's iterators, its `EntryIter` that scans at most `n_objects` objects per call, and `EntryObject::get_data`. The older decoder and object walk are proved to agree with sdjournal's.

Shared modelling choices:

- `u8`/`u32`/`u64`/`u128` are `bv8`/`bv32`/`bv64`/`bv128`, and their arithmetic wraps.
- A file is a `seq<bv8>`. `Read + Seek` is a `Bytes.Cursor` holding the bytes and a position.
- A short read is the error `UnexpectedEof`. The source's error strings are the constructors `InvalidOffset`, `UnusedObject` and `UnusedMaxObject`.
- A `u64` subtraction that panics on underflow (`size - 64`, `size - 40`, `size - 48`, `size - 20`) is the error `SizeUnderflow`.
- Some functions are direct definitions with no `ensures` and thus no row below. `DataObject::payload_is_trusted` is `Journal.PayloadIsTrusted`. `SizedObject::size` is `Journal.Size`, which `Journal.ObjectAtHeader` states.
- Wrapping is also used for the `u64` offset sums such as `offset + size` and `curr + size - 16`, where a debug build would panic on overflow.
- The older crate's `is_valid64`, `align64`, `is_compressed` (src/lib.rs:19-34) and its header iterator (src/lib.rs:302-372, and `iter_headers` at src/lib.rs:265-268) are the same code as sdjournal's. They are modelled once, by the `Journal` and `Iter` members cited below.

## Model

| member | source | states |
|---|---|---|
| Lookup3.RotMovesBits | sdjournal/src/hash.rs:24-27 | for 0 < k < 32, bit i of `x` is bit (i + k) mod 32 of `rot(x, k)`: a left rotation |
| Lookup3.RotInverse | sdjournal/src/hash.rs:24-27 | rotating by k and then by 32 - k gives back `x` |
| Lookup3.Tail | sdjournal/src/hash.rs:670-686 | the block loop leaves the last bytes of the key, a whole number of 12-byte blocks after the start, at most 12 and at least 1 for a non-empty key |
| Lookup3.TailAfterRounds | sdjournal/src/hash.rs:670-686 | the key length is 12 times the number of `mix` rounds plus the length of the tail: exactly 12 bytes per round |
| Lookup3.TailZeroPadded | sdjournal/src/hash.rs:688-801 | the final block's three little-endian words equal those of the tail padded with zero bytes, so missing bytes count as zero and nothing past the key is read |
| Lookup3.HashLittle2 | sdjournal/src/hash.rs:495-807 | the `while length > 12` loop over the byte path computes `hashlittle2`'s specification: seed, 12-byte rounds, final fold and early return on an empty key |
| Lookup3.HashLittle | sdjournal/src/hash.rs:169-484 | the byte-path loop of `hashlittle` computes its specification with the seed `0xdeadbeef + len + init_val` |
| Lookup3.Rhash64Halves | sdjournal/src/hash.rs:1-4 | the high 32 bits of `rhash64` are `hashlittle2`'s first result and the low 32 bits its second, both seeds 0 |
| Lookup3.Init2Empty | sdjournal/src/hash.rs:500-506 | with a length of 0 mod 2^32 the state starts at `(0xdeadbeef + pc, 0xdeadbeef + pc, 0xdeadbeef + pc + pb)` |
| Lookup3.HashLittle2Empty | sdjournal/src/hash.rs:801 | an empty key returns `(0xdeadbeef + pc + pb, 0xdeadbeef + pc)` without `final_` |
| Lookup3.HashLittleEmpty | sdjournal/src/hash.rs:478 | an empty key returns `0xdeadbeef + init_val` without `final_` |
| Lookup3.HashLittleIsHashLittle2 | sdjournal/src/hash.rs:486-493 | for every key, `hashlittle(key, pc)` equals the first result of `hashlittle2(key, pc, 0)` |
| Lookup3.WordTail | sdjournal/src/hash.rs:88-110 | `hashword`'s loop leaves the last 1..3 words, a whole number of 3-word blocks after the start |
| Lookup3.HashWord | sdjournal/src/hash.rs:75-114 | the loop computes `hashword`'s specification: seed from `len << 2`, 3-word rounds, final fold and `final_` also for an empty key |
| Lookup3.HashWord2 | sdjournal/src/hash.rs:124-166 | the loop computes `hashword2`'s specification, with `pb` added to `c` and the pair `(c, b)` returned |
| Lookup3.HashSize | sdjournal/src/hash.rs:11-13 | `hash_size(n)` has bit n set and no other bit |
| Lookup3.HashMask | sdjournal/src/hash.rs:20-22 | `hash_mask(n)` has exactly the bits below n set |
| Lookup3Goldens.EmptyKeyGoldens | sdjournal/src/hash.rs:821-853 | the empty-key golden values of `hashlittle` and `hashlittle2` (0xdeadbeef, 0xbd5b7dde, 0x9c093ccd) |
| Lookup3Goldens.RepeatedEmptyHashes | sdjournal/src/hash.rs:868-896 | eight chained empty-key hashes yield 0xdeadbeef, 0xbd5b7dde, …, 0xf56df778 |
| Lookup3Goldens.FourScore00Golden | sdjournal/src/hash.rs:855-857 | `hashlittle2("Four score and seven years ago", 0, 0) == (0x17770551, 0xce7226e6)` |
| Lookup3Goldens.FourScore01Golden | sdjournal/src/hash.rs:859-861 | `hashlittle2(…, 0, 1) == (0xe3607cae, 0xbd371de4)` |
| Lookup3Goldens.FourScore10Golden | sdjournal/src/hash.rs:863-865 | `hashlittle2(…, 1, 0) == (0xcd628161, 0x6cbea4b3)` |
| Lookup3Goldens.FourScoreHashLittle | sdjournal/src/hash.rs:832-838 | `hashlittle` of the same key is 0x17770551 with seed 0 and 0xcd628161 with seed 1 |
| Lookup3Goldens.MonotonicFieldHash | sdjournal/src/hash.rs:814-819 | `hashlittle2("_SOURCE_MONOTONIC_TIMESTAMP", 0, 0)` is `(0x0441f0e2, 0xfa9bf6df)` |
| Lookup3Goldens.MonotonicFieldRhash64 | sdjournal/src/hash.rs:814-819 | `rhash64("_SOURCE_MONOTONIC_TIMESTAMP") == 306791107295704799` |
| Journal.IsValid64Multiple | sdjournal/src/journal.rs:29-32 | `is_valid64(u)` holds exactly when u is a multiple of 8 |
| Journal.Align64 | sdjournal/src/journal.rs:34-37 | `align64` always returns a valid (8-aligned) offset |
| Journal.Align64Fixes | sdjournal/src/journal.rs:34-37 | a valid offset is its own alignment, and aligning twice changes nothing |
| Journal.Align64Rounds | sdjournal/src/journal.rs:34-37 | for u ≤ 2^64 - 8, `align64(u)` is at least u and less than u + 8 |
| Journal.Align64Least | sdjournal/src/journal.rs:34-37 | for u ≤ 2^64 - 8, `align64(u)` is below every valid offset ≥ u: the least one |
| Journal.IsCompressed | sdjournal/src/journal.rs:403-408 | an object is compressed exactly when its XZ or its LZ4 flag bit is set |
| Journal.HeaderAt | sdjournal/src/journal.rs:110-119 | the header loads exactly when 16 bytes are there, with the flags, the six reserved bytes and the LE size that follow the type byte |
| Journal.UnalignedRejected | sdjournal/src/journal.rs:101-103 | any offset that is not a multiple of 8 is "Invalid offset", whatever the bytes |
| Journal.ObjectAtRefused | sdjournal/src/journal.rs:105-315 | past the end the read fails, type byte 0 is "Unused Object", and any type byte above 7 is "Unused MAX Object" |
| Journal.ObjectAtKind | sdjournal/src/journal.rs:107-314 | a decoded object is aligned, has a type byte 1..7, and is of the kind that byte names (1 Data, 2 Field, 3 Entry, 4/5 hash tables, 6 EntryArray, 7 Tag) |
| Journal.ObjectAtHeader | sdjournal/src/journal.rs:368-379 | a decoded object's header and `size()` are the flags, reserved bytes and LE size stored after its type byte |
| Journal.KindOfUnused | sdjournal/src/journal.rs:381-392 | the type byte names `ObjectUnused` exactly when it is 0 and `ObjectTypeMax` exactly when it is above 7 |
| Journal.DataLayout | sdjournal/src/journal.rs:120-139 | a decoded Data object has exactly `size - 64` payload bytes, those after its 64-byte fixed part, and its stored hash at offset 16 |
| Journal.DataTooSmall | sdjournal/src/journal.rs:126 | a Data object smaller than 64 bytes is an error, where the source's subtraction panics |
| Journal.FieldLayout | sdjournal/src/journal.rs:152-164 | a decoded Field object has exactly `size - 40` payload bytes, those after its 40-byte fixed part |
| Journal.EntryItemCountFits | sdjournal/src/journal.rs:183-185 | the loop over `1..(size - 48) / 16` decodes `(size - 64) / 16` items, none when the Entry is smaller than 64 bytes |
| Journal.EntryItemsAt | sdjournal/src/journal.rs:185-197 | decoded items number exactly as many as the loop's turns |
| Journal.EntryItemsLayout | sdjournal/src/journal.rs:185-197 | item k is the item decoded 16·k bytes after the fixed part |
| Journal.EntryItemLayout | sdjournal/src/journal.rs:186-195 | an item holds the LE offset and hash it reads and the object decoded, one level deeper, at that offset |
| Journal.EntryLayout | sdjournal/src/journal.rs:167-207 | a decoded Entry has its fixed fields at 16..64 and its items decoded from offset 64 on |
| Journal.EntryItemsErrorPersists | sdjournal/src/journal.rs:185-190 | once an item fails to decode, the Entry fails with that error |
| Journal.HashItemsAt | sdjournal/src/journal.rs:220-230 | `count` hash items decode exactly when their 16·`count` bytes are there, any short read is `UnexpectedEof`, and exactly `count` items come back |
| Journal.HashItemsLayout | sdjournal/src/journal.rs:222-230 | hash item k holds the two LE offsets 16·k bytes into the items |
| Journal.SlotsAt | sdjournal/src/journal.rs:277-279 | `count` slots decode exactly when their 8·`count` bytes are there, any short read is `UnexpectedEof`, and exactly `count` slots come back |
| Journal.SlotsLayout | sdjournal/src/journal.rs:278-279 | slot k is the LE u64 8·k bytes into the slots |
| Journal.EntryArrayLayout | sdjournal/src/journal.rs:265-290 | a decoded entry array's items are its slots with the zeros dropped, in file order, and its next offset is the LE u64 at 16 |
| Journal.DropZerosMember | sdjournal/src/journal.rs:280-283 | an offset is kept exactly when it is a slot and not 0 |
| Journal.DropZerosAppend | sdjournal/src/journal.rs:278-284 | dropping zeros keeps the slots' order: it distributes over concatenation |
| Journal.GetObjAtOffset | sdjournal/src/journal.rs:98-317 | the cursor-driven decoder returns exactly the object the layout functions give, or the same error, and leaves the cursor at the object's end |
| Journal.ReadObjectOfKind | sdjournal/src/journal.rs:107-316 | dispatch on the type byte decodes the layout of that kind |
| Journal.ReadObjectHeader | sdjournal/src/journal.rs:110-119 | reads flags, reserved and size as `HeaderAt` states, leaving the cursor 16 bytes on |
| Journal.ReadDataFields | sdjournal/src/journal.rs:120-125 | reads the six u64 fields of a Data object |
| Journal.ReadData | sdjournal/src/journal.rs:109-139 | decodes a Data object as `DataAt` states |
| Journal.ReadField | sdjournal/src/journal.rs:141-165 | decodes a Field object as `FieldAt` states |
| Journal.ReadEntryFields | sdjournal/src/journal.rs:178-182 | reads seqnum, realtime, monotonic, the LE u128 boot id and xor_hash |
| Journal.ReadEntry | sdjournal/src/journal.rs:167-207 | decodes an Entry as `EntryAt` states |
| Journal.ReadEntryItems | sdjournal/src/journal.rs:183-197 | the item loop decodes as `EntryItemsAt` states, leaving the cursor 16 bytes per item on |
| Journal.ReadEntryItem | sdjournal/src/journal.rs:186-196 | reads offset and hash, decodes the object there and restores the cursor |
| Journal.ReadHashTable | sdjournal/src/journal.rs:209-263 | decodes a data or field hash table as `HashTableAt` states |
| Journal.ReadHashItems | sdjournal/src/journal.rs:220-230 | the loop reads exactly the items `HashItemsAt` states |
| Journal.ReadHashItem | sdjournal/src/journal.rs:223-228 | reads one hash item's two LE offsets |
| Journal.ReadEntryArray | sdjournal/src/journal.rs:265-290 | decodes an entry array as `EntryArrayAt` states |
| Journal.ReadSlots | sdjournal/src/journal.rs:277-284 | the slot loop returns the slots with zeros dropped, and fails exactly when a slot read does |
| Journal.ReadTag | sdjournal/src/journal.rs:292-313 | decodes a Tag: seqnum, epoch and the 32-byte tag |
| Journal.XorAllAppend | sdjournal/src/journal.rs:507-511 | folding xor over two runs of hashes is the xor of the two folds |
| Journal.XorAllPermutation | sdjournal/src/journal.rs:507-511 | the xor fold of two sequences with the same multiset of hashes is the same |
| Journal.EntryHash | sdjournal/src/journal.rs:504-512 | the accumulating loop returns the xor of all item hashes |
| Journal.EntryHashOrderFree | sdjournal/src/journal.rs:504-512 | the Entry hash does not depend on item order and is 0 for no items |
| JournalHeader.StateOf | sdjournal/src/journal.rs:588-594 | state bytes 0, 1, 2 are Offline, Online, Archived; every other byte is `StateMax` |
| JournalHeader.StateOfCode | sdjournal/src/journal.rs:588-594 | decoding a state's code gives that state back |
| JournalHeader.JournalHeaderAt | sdjournal/src/journal.rs:582-653 | the header decodes exactly when its 240 bytes are there, and fails with a short read otherwise |
| JournalHeader.ReadJournalHeader | sdjournal/src/journal.rs:582-653 | the sequence of 28 cursor reads returns `JournalHeaderAt` at the cursor's position and, on success, leaves the cursor 240 bytes on |
| JournalHeader.ReadPreamble | sdjournal/src/journal.rs:584-596 | signature, the two LE u32 flag words, the state byte and seven reserved bytes |
| JournalHeader.ReadIds | sdjournal/src/journal.rs:597-600 | the four ids read as big-endian u128 |
| JournalHeader.ReadSizes | sdjournal/src/journal.rs:601-602 | header and arena size as LE u64 |
| JournalHeader.ReadHashTableBounds | sdjournal/src/journal.rs:603-606 | data and field hash-table offsets and sizes |
| JournalHeader.ReadTail | sdjournal/src/journal.rs:607-610 | tail object offset, `n_objects`, `n_entries`, tail entry seqnum |
| JournalHeader.ReadEntryBounds | sdjournal/src/journal.rs:611-612 | head entry seqnum and entry array offset |
| JournalHeader.ReadTimestamps | sdjournal/src/journal.rs:613-615 | head and tail realtime and tail monotonic timestamps |
| JournalHeader.ReadObjectCounts | sdjournal/src/journal.rs:616-619 | `n_data`, `n_fields`, `n_tags`, `n_entry_arrays` |
| JournalHeader.EncodeJournalHeader | sdjournal/src/journal.rs:548-579 | the on-disk image of a header is exactly 240 bytes |
| JournalHeader.FieldsDetermineHeader | sdjournal/src/journal.rs:621-652 | bytes holding a header's fields at the decoder's positions decode to exactly that header |
| JournalHeader.JournalHeaderRoundTrip | sdjournal/src/journal.rs:582-653 | decoding the encoding of any header with an 8-byte signature and 7 reserved bytes gives that header back |
| Iter.LoadHeaderAtDecides | sdjournal/src/iter.rs:33-65 | a header loads exactly when the offset is aligned, 16 bytes are there and the type byte is not 0; unaligned and unused both are "Invalid offset"; the fields are those stored |
| Iter.LoadHeaderAgrees | sdjournal/src/iter.rs:33-65 | wherever `get_obj_at_offset` decodes an object, the header loader loads that object's header |
| Iter.LoadHeaderAcceptsMax | sdjournal/src/iter.rs:40-52 | a type byte above 7 loads as `ObjectTypeMax`, while `get_obj_at_offset` refuses it |
| Iter.NextHeaderOffsetAligns | sdjournal/src/iter.rs:27-31 | the cursor position after the header plus size less 16, aligned, is `align64(offset + size)` |
| Iter.ObjectHeaderIter.constructor | sdjournal/src/iter.rs:17-25 | the cursor is at `start` and so is the next offset |
| Iter.ObjectHeaderIter.LoadHeader | sdjournal/src/iter.rs:33-65 | loads `LoadHeaderAt` through the iterator's cursor, leaving it 16 bytes past the offset |
| Iter.ObjectHeaderIter.Next | sdjournal/src/iter.rs:71-80 | on a header, yields it and moves to `align64(offset + size)`; otherwise yields None and stays |
| Iter.HeadersFromStep | sdjournal/src/iter.rs:71-80 | the header walk is the loaded header followed by the walk from the next offset, and ends where loading fails |
| Iter.CollectHeaders | sdjournal/src/iter.rs:68-80 | driving `Next` up to `limit` times collects exactly the header walk |
| Iter.HeadersFromUsed | sdjournal/src/iter.rs:40-43 | no header on the walk is of kind `ObjectUnused`: type byte 0 stops the walk |
| Iter.ObjectIter.constructor | sdjournal/src/iter.rs:90-99 | current and next offset are `start` |
| Iter.ObjectIter.Next | sdjournal/src/iter.rs:110-123 | current offset becomes the one tried; on success yields the object and moves to `align64(offset + size)`, on failure yields None and keeps the next offset |
| Iter.ObjectsFromStep | sdjournal/src/iter.rs:110-123 | the object walk is the decoded object followed by the walk from its aligned end, and ends at the first failure |
| Iter.NextOffsetsAgree | sdjournal/src/iter.rs:101-104 | the object iterator steps exactly as the header iterator does |
| Iter.HeadersCoverObjects | sdjournal/src/iter.rs:101-123 | the headers of the objects walked are a prefix of the header walk from the same offset |
| Iter.NextArrayNoZeros | sdjournal/src/iter.rs:146-162 | an array the iterator yields lists no offset 0 |
| Iter.EntryArrayIter.constructor | sdjournal/src/iter.rs:132-140 | the current offset is `start` |
| Iter.EntryArrayIter.Next | sdjournal/src/iter.rs:146-162 | offset 0 yields None; an entry array is yielded and the iterator moves to its `next_entry_array_offset`; anything else yields None without moving |
| Iter.ArraysFromStep | sdjournal/src/iter.rs:146-162 | the chain's items are the first array's items followed by those of the chain from its next offset |
| Iter.FlattenAppend | sdjournal/src/iter.rs:177-181 | the queue of a chain split in two is the two queues one after another |
| Iter.FlattenMember | sdjournal/src/iter.rs:177-181 | an offset is queued exactly when some array of the chain lists it |
| Iter.ArraysFromNoZeros | sdjournal/src/iter.rs:177-181 | no queued offset is 0 |
| Iter.PushBackAll | sdjournal/src/iter.rs:178-180 | pushing an array's items onto the queue appends them in order |
| Iter.TakeArray | sdjournal/src/iter.rs:177-180 | one turn of the outer loop: the next array's items, which with the rest of the chain make up the chain's items |
| Iter.EntryIter.constructor | sdjournal/src/iter.rs:171-187 | the queue holds every item of every array in chain order, then item order |
| Iter.EntryAtOffsetMeaning | sdjournal/src/iter.rs:193-201 | an offset yields an entry exactly when an Entry decodes there, the error exactly when nothing decodes, nothing for another kind |
| Iter.EntryIter.Next | sdjournal/src/iter.rs:193-201 | an empty queue yields None; otherwise the front offset is popped and decoded |
| JournalFile.Open | sdjournal/src/journal.rs:51-58 | opening succeeds exactly when the file holds a whole header, keeps all the file's bytes and the header decoded from offset 0 |
| JournalFile.ObjIter | sdjournal/src/journal.rs:60-63 | starts one object header before the field hash table, in wrapping arithmetic |
| JournalFile.IterHeaders | sdjournal/src/journal.rs:66-69 | starts the header iterator at the same place |
| JournalFile.IterEntries | sdjournal/src/journal.rs:72-76 | the entry queue is the chain from the header's `entry_array_offset` |
| JournalFile.EaIter | sdjournal/src/journal.rs:78-81 | starts the chain at the header's `entry_array_offset` |
| JournalFile.AnyCorruptMeaning | sdjournal/src/journal.rs:86-91 | a walk has a corrupt object exactly when some Data object on it has a stored hash other than `rhash64` of its payload |
| JournalFile.VerdictMeaning | sdjournal/src/journal.rs:84-95 | the verdict is false exactly when some object on the walk is corrupt, and true exactly when none is and the walk ends within the bound |
| JournalFile.VerdictStep | sdjournal/src/journal.rs:85-93 | one object of the walk decides the verdict or passes it on to the rest |
| JournalFile.CheckNext | sdjournal/src/journal.rs:85-93 | one turn of the loop: the next object and whether it is a Data object with a wrong stored hash |
| JournalFile.Verify | sdjournal/src/journal.rs:84-95 | the loop's answer is false exactly when a Data object on the object iterator's walk is corrupt, true when none is and the walk ends |
| Legacy.ItemsAt | src/lib.rs:121-131 | flat Entry items number exactly as many as the loop's turns, and the read fails exactly when they do not fit |
| Legacy.ItemsLayout | src/lib.rs:123-131 | item k is the LE offset and hash 16·k bytes into the items |
| Legacy.TurnsCount | src/lib.rs:123 | the loop over `1..(size - 48) / 16` runs `(size - 64) / 16` times: the same count as sdjournal |
| Legacy.ItemsAgree | src/lib.rs:121-131 | where sdjournal's items decode, this crate's flat items are their offsets and hashes |
| Legacy.EntryAgrees | src/lib.rs:105-142 | where sdjournal's Entry decodes, this crate's Entry is the same with flat items |
| Legacy.OffEntryAgrees | src/lib.rs:44-250 | for every kind but Entry, this crate decodes exactly what sdjournal does |
| Legacy.ObjectAtAgrees | src/lib.rs:36-251 | at every offset this crate's decoder agrees with sdjournal's, and away from Entries it agrees on errors too |
| Legacy.EntryLayout | src/lib.rs:105-142 | a decoded Entry is aligned, of kind Entry, with its items read from offset 64 |
| Legacy.EntryAtLayout | src/lib.rs:105-142 | the Entry's fixed fields are read at 16..64 and its items after them |
| Legacy.ReadEntryItems | src/lib.rs:121-131 | the item loop decodes as `ItemsAt` states |
| Legacy.ReadEntryItem | src/lib.rs:124-130 | reads one item's LE offset and hash |
| Legacy.ReadEntry | src/lib.rs:105-142 | decodes a flat Entry |
| Legacy.ReadObjectOfKind | src/lib.rs:45-250 | dispatch on the type byte decodes the layout of that kind |
| Legacy.ReadObjectAt | src/lib.rs:39-251 | the cursor-driven decoder returns exactly this crate's `ObjectAt` |
| Legacy.GetObjAtOffset | src/lib.rs:36-251 | decoding through a fresh cursor over the slice returns exactly this crate's `ObjectAt` |
| Legacy.OpenAsWritten | src/lib.rs:255-262 | as written, opening keeps only the bytes after the 240-byte header |
| Legacy.AsWrittenReadsPastHeader | src/lib.rs:255-262 | on the journal opened as written, every position reads the header stored 240 bytes further on in the file |
| Legacy.ObjIter | src/lib.rs:270-273 | starts one object header before the field hash table |
| Legacy.IterEntries | src/lib.rs:276-280 | starts the entry scan at the same place, with the header's `n_objects` as the number of objects each call may scan |
| Legacy.EaIter | src/lib.rs:282-285 | starts the chain at the header's `entry_array_offset` |
| Legacy.ObjectIter.constructor | src/lib.rs:375-384 | current and next offset are `start` |
| Legacy.ObjectIter.LoadObjAtOffset | src/lib.rs:391-604 | decodes through the iterator's own cursor exactly as `get_obj_at_offset` does |
| Legacy.ObjectIter.Next | src/lib.rs:616-629 | current offset becomes the one tried; on success the next offset becomes `align64(current_offset + size)`, on failure it stays |
| Legacy.ObjectsFromStep | src/lib.rs:616-629 | this crate's object walk steps object by object and ends at the first failure |
| Legacy.WalksAgree | src/lib.rs:616-629 | sdjournal's object walk, flattened, is a prefix of this crate's walk from the same offset |
| Legacy.NextArrayAgrees | src/lib.rs:652-668 | this crate's entry-array step is sdjournal's: None at offset 0 and on anything but an entry array |
| Legacy.EntryArrayIter.constructor | src/lib.rs:638-646 | the current offset is `start` |
| Legacy.EntryArrayIter.Next | src/lib.rs:652-668 | yields None at offset 0; otherwise yields the entry array and moves to its next offset, or yields None |
| Legacy.ScanFromStep | src/lib.rs:689-697 | one turn of the scan: a failed decode ends it, an Entry is returned, anything else passes to the next object |
| Legacy.FirstEntryMeaning | src/lib.rs:689-697 | the first Entry of a walk is None exactly when the walk has no Entry, and otherwise the Entry before which none occurs |
| Legacy.ScanFinds | src/lib.rs:689-697 | the scan of `n` objects returns the first Entry among the at most `n` objects the object iterator yields |
| Legacy.EntryIter.constructor | src/lib.rs:677-683 | wraps an object iterator at `start` and keeps `n_objects` |
| Legacy.EntryIter.TakeNext | src/lib.rs:690-694 | one turn of the scan: the next object, which decides the scan or passes it on |
| Legacy.EntryIter.Next | src/lib.rs:689-697 | returns the scan's answer on the next `n_objects` objects and leaves the inner iterator where the scan left it |
| Legacy.Lookup | src/lib.rs:291-295 | an item answers with the bytes after `key` exactly when it is a Data object whose payload starts with `key`; a failed decode and a payload shorter than the key, where the source panics, are errors |
| Legacy.DataValueNone | src/lib.rs:289-299 | `get_data` answers None exactly when every item answers nothing |
| Legacy.DataValueFirst | src/lib.rs:289-299 | otherwise it answers what the first item that answers anything answers |
| Legacy.DataValueStep | src/lib.rs:290-298 | one turn of the loop: an error or a value ends it, nothing passes to the next item |
| Legacy.GetData | src/lib.rs:289-299 | the loop with its early return computes `DataValue` |

## Left out

- The aligned-word and u16 paths of `hashlittle` and `hashlittle2` are not modelled. They choose a path from the key's address, which is not observable here. Only the byte-at-a-time path is modelled (sdjournal/src/hash.rs:341-483, 665-803). No claim is made that the paths agree. In the u16 path of `hashlittle`, case 11 leaves out `k[4]`.
- Lookup3.HashWord: does not model the debug-build overflow panic of the unwrapped `0xdeadbeef + (length << 2) + init_val` (sdjournal/src/hash.rs:83); the sum wraps, as in a release build.
- Lookup3.HashLittle2Empty: needs the key length to be 0 mod 2^32, because the source truncates `key.len()` to u32. So a key of 2^32 bytes also hashes as empty.
- Lookup3.HashSize: requires `n < 32`; `1 << n` with n ≥ 32 overflows in the source (a panic in debug builds).
- Journal.PayloadIsTrusted: requires a non-empty payload; indexing `payload[0]` of an empty payload panics in the source.
- Entry decoding in sdjournal follows item offsets recursively with no bound (sdjournal/src/journal.rs:189). The model gives it `MaxDepth` = 8 levels of fuel, and deeper nesting is the error `TooDeep`. So nesting deeper than 8 levels, which the source decodes, fails here. That failure ends the object walk (Iter.ObjectIter.Next, Iter.ObjectsFrom) and `verify` (JournalFile.Verify) where the source walks on. Only a cycle of Entry items makes the source recurse until its stack overflows.
- Journal.GetObjAtOffset: states the cursor position only on success; after a failed read the source leaves it wherever the failing read left it.
- `Journal::verify`, `EntryIter::new` and the chain walks loop until the data ends the walk, which a cycle of offsets can prevent. JournalFile.Verify, Iter.EntryIter.constructor and the `…From` walks take a step bound `limit`. Verify answers `None` when the bound is used up.
- `n_objects` only sizes the `VecDeque` in sdjournal's `EntryIter::new` (sdjournal/src/iter.rs:175) and bounds no loop, so Iter.EntryIter.constructor has no such parameter. The capacity's own panic is left out with the allocations below.
- Allocation failure is not modelled. The decoders allocate from the object's size field before reading: `vec![0u8; (size - 64) as usize]`, `vec![0u8; (size - 40) as usize]` and `Vec::with_capacity(…)` for the Entry, hash-table and entry-array items (sdjournal/src/journal.rs:126, 155, 184, 221, 249, 277; src/lib.rs:64, 93, 122, 155, 183, 211). `VecDeque::with_capacity(n_objects)` does the same (sdjournal/src/iter.rs:175). The source panics with "capacity overflow" when such a request exceeds `isize::MAX` bytes, and aborts when a smaller one cannot be met. An example is a data hash table of size ≥ 2^63 + 48 or an entry array of size ≥ 2^63 + 20. On such objects Journal.ObjectAt, Journal.GetObjAtOffset, Legacy.ObjectAt and Legacy.GetObjAtOffset return `UnexpectedEof`, because the bytes are not there. Iter.ObjectIter.Next, Legacy.ObjectIter.Next and the walks then end quietly. JournalFile.Verify can then answer true where the source crashes. Iter.EntryIter.constructor builds its queue for any `n_objects`.
- iter.rs calls `get_obj_at_offset(buf.get_ref(), …)` on a slice, while the journal.rs version takes a `Read + Seek`. The iterators model each decode as a fresh cursor over the same bytes, after which the iterator seeks its own cursor as the source does.
- Panics become error results. The `unwrap` in sdjournal's `EntryIter::next` and in the older `get_data` becomes the decoder's error (`Result.Err`) in Iter.EntryIter.Next and Legacy.GetData. The out-of-range slice `payload[..key.len()]` is also an error.
- Legacy.GetData: returns the payload bytes after the key; the UTF-8 check and `String` conversion (`str::from_utf8(…).unwrap()`) are not modelled.
- Legacy.EntryIter.Next: requires the inner cursor to sit at the current offset, an invariant the constructor establishes and `Next` keeps.
- Compression (the XZ and LZ4 flags) and the sealing tag's HMAC are not implemented by the source. Only the flag test and the raw tag bytes are modelled.
- The `Display` impls and the formatted header dump are string formatting and are not modelled. Also not modelled:
  - the FFI stubs sdjournal/src/ffi.rs;
  - src/hash.rs, a call into C;
  - src/lookup3.h and src/macro.h;
  - the CLIs;
  - the benchmark;
  - the tests that map journal files from disk.
- src/journal.rs and src/traits.rs declare data only. The older crate's `JournalHeader::new` is not part of this model. `Legacy.OpenAsWritten` reads the header with sdjournal's decoder and takes the slice to advance past it, as reading from a `&[u8]` does.

## Findings

| source | as written | input that shows it | evidently intended | confidence | as-written member | corrected member |
|---|---|---|---|---|---|---|
| src/lib.rs:255-262 | `Journal::new` reads the header through `&mut path`. Reading from a `&[u8]` advances the slice, so `file` keeps only the bytes after the 240-byte header. | Any file: the header's `field_hash_table_offset` and `entry_array_offset` count from the file's start, but are applied to the shortened slice, so every object is read 240 bytes too far on. | Keep the whole file, as sdjournal's `Journal::new` does (sdjournal/src/journal.rs:51-58). | not executed; the older `JournalHeader::new` is not shown, and the finding assumes it reads through `Read` as `&[u8]` implements it | Legacy.OpenAsWritten, Legacy.AsWrittenReadsPastHeader | JournalFile.Open |
