/** Bob Jenkins' lookup3 hash as ported in sdjournal/src/hash.rs: the mixing
    core (`rot`, `mix`, `final_`), the byte-at-a-time path of `hashlittle` and
    `hashlittle2`, the word hashes `hashword` and `hashword2`, the 64-bit
    facade `rhash64` and the table-size helpers `hash_size` and `hash_mask`.

    Words are `bv32`, so `+`, `-`, `^`, `<<` and `>>` are exactly Rust's
    `wrapping_add`, `wrapping_sub`, xor and shifts on `u32`. Each hash is a
    spec function (`...Of`) describing its value and a method with the
    source's `while` loop proved equal to it. */
module Lookup3 {

  /** The internal state: the three words `mix` and `final_` update in place. */
  datatype State = State(a: bv32, b: bv32, c: bv32)

  /** The seed constant of lookup3. */
  const Golden: bv32 := 0xdeadbeef

  const Two32: int := 0x1_0000_0000

  // ---------------------------------------------------------------------------
  // Rotation

  /** `rot(x, k)`: `x << k | x >> (32 - k)`. The distance is a `u8` as in the
      source, which only calls it with constants between 4 and 25; k = 0
      would make the right shift overflow. */
  function Rot(x: bv32, k: bv8): bv32
    requires 0 < k < 32
  {
    (x << k) | (x >> (32 - k))
  }

  /** Bit i of x, as 0 or 1. */
  function Bit(x: bv32, i: bv8): bv32
    requires i < 32
  {
    (x >> i) & 1
  }

  // The solver settles the two rotation facts below for all distances at
  // once only at a high cost, so they are proved two distances at a time
  // and then assembled case by case.

  lemma RotFrom1(x: bv32, k: bv8, i: bv8)
    requires 1 <= k < 2 && i < 32
    ensures Bit(Rot(x, k), (i + k) & 31) == Bit(x, i)
    ensures Rot(Rot(x, k), 32 - k) == x
  {
  }

  lemma RotFrom2(x: bv32, k: bv8, i: bv8)
    requires 2 <= k < 4 && i < 32
    ensures Bit(Rot(x, k), (i + k) & 31) == Bit(x, i)
    ensures Rot(Rot(x, k), 32 - k) == x
  {
  }

  lemma RotFrom4(x: bv32, k: bv8, i: bv8)
    requires 4 <= k < 6 && i < 32
    ensures Bit(Rot(x, k), (i + k) & 31) == Bit(x, i)
    ensures Rot(Rot(x, k), 32 - k) == x
  {
  }

  lemma RotFrom6(x: bv32, k: bv8, i: bv8)
    requires 6 <= k < 8 && i < 32
    ensures Bit(Rot(x, k), (i + k) & 31) == Bit(x, i)
    ensures Rot(Rot(x, k), 32 - k) == x
  {
  }

  lemma RotFrom8(x: bv32, k: bv8, i: bv8)
    requires 8 <= k < 10 && i < 32
    ensures Bit(Rot(x, k), (i + k) & 31) == Bit(x, i)
    ensures Rot(Rot(x, k), 32 - k) == x
  {
  }

  lemma RotFrom10(x: bv32, k: bv8, i: bv8)
    requires 10 <= k < 12 && i < 32
    ensures Bit(Rot(x, k), (i + k) & 31) == Bit(x, i)
    ensures Rot(Rot(x, k), 32 - k) == x
  {
  }

  lemma RotFrom12(x: bv32, k: bv8, i: bv8)
    requires 12 <= k < 14 && i < 32
    ensures Bit(Rot(x, k), (i + k) & 31) == Bit(x, i)
    ensures Rot(Rot(x, k), 32 - k) == x
  {
  }

  lemma RotFrom14(x: bv32, k: bv8, i: bv8)
    requires 14 <= k < 16 && i < 32
    ensures Bit(Rot(x, k), (i + k) & 31) == Bit(x, i)
    ensures Rot(Rot(x, k), 32 - k) == x
  {
  }

  lemma RotFrom16(x: bv32, k: bv8, i: bv8)
    requires 16 <= k < 18 && i < 32
    ensures Bit(Rot(x, k), (i + k) & 31) == Bit(x, i)
    ensures Rot(Rot(x, k), 32 - k) == x
  {
  }

  lemma RotFrom18(x: bv32, k: bv8, i: bv8)
    requires 18 <= k < 20 && i < 32
    ensures Bit(Rot(x, k), (i + k) & 31) == Bit(x, i)
    ensures Rot(Rot(x, k), 32 - k) == x
  {
  }

  lemma RotFrom20(x: bv32, k: bv8, i: bv8)
    requires 20 <= k < 22 && i < 32
    ensures Bit(Rot(x, k), (i + k) & 31) == Bit(x, i)
    ensures Rot(Rot(x, k), 32 - k) == x
  {
  }

  lemma RotFrom22(x: bv32, k: bv8, i: bv8)
    requires 22 <= k < 24 && i < 32
    ensures Bit(Rot(x, k), (i + k) & 31) == Bit(x, i)
    ensures Rot(Rot(x, k), 32 - k) == x
  {
  }

  lemma RotFrom24(x: bv32, k: bv8, i: bv8)
    requires 24 <= k < 26 && i < 32
    ensures Bit(Rot(x, k), (i + k) & 31) == Bit(x, i)
    ensures Rot(Rot(x, k), 32 - k) == x
  {
  }

  lemma RotFrom26(x: bv32, k: bv8, i: bv8)
    requires 26 <= k < 28 && i < 32
    ensures Bit(Rot(x, k), (i + k) & 31) == Bit(x, i)
    ensures Rot(Rot(x, k), 32 - k) == x
  {
  }

  lemma RotFrom28(x: bv32, k: bv8, i: bv8)
    requires 28 <= k < 30 && i < 32
    ensures Bit(Rot(x, k), (i + k) & 31) == Bit(x, i)
    ensures Rot(Rot(x, k), 32 - k) == x
  {
  }

  lemma RotFrom30(x: bv32, k: bv8, i: bv8)
    requires 30 <= k < 32 && i < 32
    ensures Bit(Rot(x, k), (i + k) & 31) == Bit(x, i)
    ensures Rot(Rot(x, k), 32 - k) == x
  {
  }

  /** `rot` is a left rotation: bit i of x lands on bit (i + k) mod 32. */
  lemma RotMovesBits(x: bv32, k: bv8, i: bv8)
    requires 0 < k < 32 && i < 32
    ensures Bit(Rot(x, k), (i + k) & 31) == Bit(x, i)
  {
    if k < 2 { RotFrom1(x, k, i); }
    else if k < 4 { RotFrom2(x, k, i); }
    else if k < 6 { RotFrom4(x, k, i); }
    else if k < 8 { RotFrom6(x, k, i); }
    else if k < 10 { RotFrom8(x, k, i); }
    else if k < 12 { RotFrom10(x, k, i); }
    else if k < 14 { RotFrom12(x, k, i); }
    else if k < 16 { RotFrom14(x, k, i); }
    else if k < 18 { RotFrom16(x, k, i); }
    else if k < 20 { RotFrom18(x, k, i); }
    else if k < 22 { RotFrom20(x, k, i); }
    else if k < 24 { RotFrom22(x, k, i); }
    else if k < 26 { RotFrom24(x, k, i); }
    else if k < 28 { RotFrom26(x, k, i); }
    else if k < 30 { RotFrom28(x, k, i); }
    else { RotFrom30(x, k, i); }
  }

  /** Rotating by k and then by 32 - k gives the word back. */
  lemma RotInverse(x: bv32, k: bv8)
    requires 0 < k < 32
    ensures Rot(Rot(x, k), 32 - k) == x
  {
    if k < 2 { RotFrom1(x, k, 0); }
    else if k < 4 { RotFrom2(x, k, 0); }
    else if k < 6 { RotFrom4(x, k, 0); }
    else if k < 8 { RotFrom6(x, k, 0); }
    else if k < 10 { RotFrom8(x, k, 0); }
    else if k < 12 { RotFrom10(x, k, 0); }
    else if k < 14 { RotFrom12(x, k, 0); }
    else if k < 16 { RotFrom14(x, k, 0); }
    else if k < 18 { RotFrom16(x, k, 0); }
    else if k < 20 { RotFrom18(x, k, 0); }
    else if k < 22 { RotFrom20(x, k, 0); }
    else if k < 24 { RotFrom22(x, k, 0); }
    else if k < 26 { RotFrom24(x, k, 0); }
    else if k < 28 { RotFrom26(x, k, 0); }
    else if k < 30 { RotFrom28(x, k, 0); }
    else { RotFrom30(x, k, 0); }
  }

  // ---------------------------------------------------------------------------
  // Mixing rounds. Both are total: no precondition, every step is a wrapping
  // add or subtract, an xor or a rotation by a constant.

  /** `mix`: one let per statement of the source. */
  function Mix(s: State): State
  {
    var a1 := s.a - s.c;   var a2 := a1 ^ Rot(s.c, 4);  var c1 := s.c + s.b;
    var b1 := s.b - a2;    var b2 := b1 ^ Rot(a2, 6);   var a3 := a2 + c1;
    var c2 := c1 - b2;     var c3 := c2 ^ Rot(b2, 8);   var b3 := b2 + a3;
    var a4 := a3 - c3;     var a5 := a4 ^ Rot(c3, 16);  var c4 := c3 + b3;
    var b4 := b3 - a5;     var b5 := b4 ^ Rot(a5, 19);  var a6 := a5 + c4;
    var c5 := c4 - b5;     var c6 := c5 ^ Rot(b5, 4);   var b6 := b5 + a6;
    State(a6, b6, c6)
  }

  /** `final_`: one let per statement of the source. */
  function Final(s: State): State
  {
    var c1 := s.c ^ s.b;  var c2 := c1 - Rot(s.b, 14);
    var a1 := s.a ^ c2;   var a2 := a1 - Rot(c2, 11);
    var b1 := s.b ^ a2;   var b2 := b1 - Rot(a2, 25);
    var c3 := c2 ^ b2;    var c4 := c3 - Rot(b2, 16);
    var a3 := a2 ^ c4;    var a4 := a3 - Rot(c4, 4);
    var b3 := b2 ^ a4;    var b4 := b3 - Rot(a4, 14);
    var c5 := c4 ^ b4;    var c6 := c5 - Rot(b4, 24);
    State(a4, b4, c6)
  }

  // ---------------------------------------------------------------------------
  // Byte traversal (the byte-at-a-time path of hashlittle and hashlittle2)

  /** Byte j of k widened to 32 bits; a byte at or past the end counts as zero. */
  function ByteAt(k: seq<bv8>, j: nat): bv32
  {
    if j < |k| then k[j] as bv32 else 0
  }

  /** The sum the source adds for four bytes, lowest first:
      `k[i] + (k[i+1] << 8) + (k[i+2] << 16) + (k[i+3] << 24)`. */
  function LittleEndian(b0: bv32, b1: bv32, b2: bv32, b3: bv32): bv32
  {
    b0 + (b1 << 8) + (b2 << 16) + (b3 << 24)
  }

  /** The little-endian word of bytes i .. i + 3 of k; missing bytes count
      as zero. */
  function LeWord(k: seq<bv8>, i: nat): bv32
  {
    LittleEndian(ByteAt(k, i), ByteAt(k, i + 1), ByteAt(k, i + 2), ByteAt(k, i + 3))
  }

  /** Adds the first twelve bytes of k into a, b and c as three little-endian words. */
  function AddBlock(s: State, k: seq<bv8>): State
  {
    State(s.a + LeWord(k, 0), s.b + LeWord(k, 4), s.c + LeWord(k, 8))
  }

  /** The `while length > 12` loop: one `mix` per block of twelve bytes
      while more than twelve remain. */
  function Blocks(s: State, k: seq<bv8>): State
    decreases |k|
  {
    if |k| <= 12 then s else Blocks(Mix(AddBlock(s, k)), k[12..])
  }

  /** The bytes left for the tail match once `Blocks` is done: a suffix
      of k shorter by a multiple of twelve, at most twelve bytes long and
      non-empty when k is. */
  function Tail(k: seq<bv8>): (r: seq<bv8>)
    ensures |r| <= 12
    ensures |k| <= 12 ==> r == k
    ensures |k| > 0 ==> |r| > 0
    ensures (|k| - |r|) % 12 == 0 && r == k[|k| - |r|..]
    decreases |k|
  {
    if |k| <= 12 then k else Tail(k[12..])
  }

  /** The number of `mix` rounds `Blocks` performs. */
  function Rounds(k: seq<bv8>): nat
    decreases |k|
  {
    if |k| <= 12 then 0 else 1 + Rounds(k[12..])
  }

  /** Every round consumes twelve bytes and the tail takes the rest, so the
      traversal reads each byte of k once and nothing past its end. */
  lemma {:induction false} TailAfterRounds(k: seq<bv8>)
    ensures |k| == 12 * Rounds(k) + |Tail(k)|
    decreases |k|
  {
    if |k| > 12 {
      TailAfterRounds(k[12..]);
    }
  }

  /** The state after traversal, the last block and `final_`; a key with no
      byte at all returns its initial state unmixed. */
  function Run(s0: State, k: seq<bv8>): State
  {
    if |k| == 0 then s0 else Final(AddBlock(Blocks(s0, k), Tail(k)))
  }

  /** The length as the source sees it: `key.len() as u32`. */
  function Len32(n: nat): bv32
  {
    (n % Two32) as bv32
  }

  /** The bytes the source reads: the first `key.len() as u32` of them. */
  function Visible<T>(key: seq<T>): seq<T>
  {
    key[..|key| % Two32]
  }

  /** Initial state of `hashlittle2`: a = 0xdeadbeef + length + pc, b = a, c = a + pb. */
  function Init2(key: seq<bv8>, pc: bv32, pb: bv32): State
  {
    var a := Golden + Len32(|key|) + pc;
    State(a, a, a + pb)
  }

  /** Initial state of `hashlittle`: a = b = c = 0xdeadbeef + length + init_val. */
  function Init1(key: seq<bv8>, initVal: bv32): State
  {
    var a := Golden + Len32(|key|) + initVal;
    State(a, a, a)
  }

  /** The value `hashlittle2(key, pc, pb)` returns: the pair (c, b). */
  function HashLittle2Of(key: seq<bv8>, pc: bv32, pb: bv32): (bv32, bv32)
  {
    var s := Run(Init2(key, pc, pb), Visible(key));
    (s.c, s.b)
  }

  /** The value `hashlittle(key, init_val)` returns: c. */
  function HashLittleOf(key: seq<bv8>, initVal: bv32): bv32
  {
    Run(Init1(key, initVal), Visible(key)).c
  }

  /** `hashlittle2`, byte-at-a-time path. The state s stands for the
      source's a, b and c, and k for the unread bytes, so the source's
      `length` is |k|. Each loop round adds bytes 0..11 of k and mixes; the
      source's `match length` then adds exactly the bytes present, which is
      `AddBlock` with the missing bytes as zero. */
  method HashLittle2(key: seq<bv8>, pc: bv32, pb: bv32) returns (c: bv32, b: bv32)
    ensures (c, b) == HashLittle2Of(key, pc, pb)
  {
    var s := Init2(key, pc, pb);
    var k := Visible(key);
    while |k| > 12
      invariant Blocks(Init2(key, pc, pb), Visible(key)) == Blocks(s, k)
      invariant Tail(Visible(key)) == Tail(k)
      invariant |Visible(key)| > 0 ==> |k| > 0
    {
      s := Mix(AddBlock(s, k));
      k := k[12..];
    }
    if |k| == 0 {
      return s.c, s.b;
    }
    s := Final(AddBlock(s, k));
    c, b := s.c, s.b;
  }

  /** `hashlittle`, byte-at-a-time path: the same traversal returning c only. */
  method HashLittle(key: seq<bv8>, initVal: bv32) returns (c: bv32)
    ensures c == HashLittleOf(key, initVal)
  {
    var s := Init1(key, initVal);
    var k := Visible(key);
    while |k| > 12
      invariant Blocks(Init1(key, initVal), Visible(key)) == Blocks(s, k)
      invariant Tail(Visible(key)) == Tail(k)
      invariant |Visible(key)| > 0 ==> |k| > 0
    {
      s := Mix(AddBlock(s, k));
      k := k[12..];
    }
    if |k| == 0 {
      return s.c;
    }
    s := Final(AddBlock(s, k));
    c := s.c;
  }

  /** `rhash64(data)`: both halves of `hashlittle2(data, 0, 0)`, c as the high word. */
  function Rhash64(data: seq<bv8>): bv64
  {
    var (c, b) := HashLittle2Of(data, 0, 0);
    ((c as bv64) << 32) | (b as bv64)
  }

  /** The unpacked halves of `rhash64`: the high word is c, the low word b. */
  lemma Rhash64Halves(data: seq<bv8>)
    ensures ((Rhash64(data) >> 32) as bv32, (Rhash64(data) & 0xffff_ffff) as bv32) == HashLittle2Of(data, 0, 0)
  {
  }

  /** A key the source reads as empty (no byte, or a length that truncates
      to zero as a `u32`) starts from a = b = 0xdeadbeef + pc, c = a + pb. */
  lemma Init2Empty(key: seq<bv8>, pc: bv32, pb: bv32)
    requires |key| % Two32 == 0
    ensures Init2(key, pc, pb) == State(Golden + pc, Golden + pc, Golden + pc + pb)
  {
    assert Len32(|key|) == 0;
  }

  /** ... and is not mixed at all: `hashlittle2` returns
      c = 0xdeadbeef + pc + pb and b = 0xdeadbeef + pc. */
  lemma HashLittle2Empty(key: seq<bv8>, pc: bv32, pb: bv32)
    requires |key| % Two32 == 0
    ensures HashLittle2Of(key, pc, pb) == (Golden + pc + pb, Golden + pc)
  {
    assert Visible(key) == [];
    Init2Empty(key, pc, pb);
  }

  /** Likewise `hashlittle` returns 0xdeadbeef + init_val, so hashing the
      empty key repeatedly adds 0xdeadbeef each time. */
  lemma HashLittleEmpty(key: seq<bv8>, initVal: bv32)
    requires |key| % Two32 == 0
    ensures HashLittleOf(key, initVal) == Golden + initVal
  {
  }

  /** `hashlittle(key, pc)` is the c half of `hashlittle2(key, pc, 0)`. */
  lemma HashLittleIsHashLittle2(key: seq<bv8>, pc: bv32)
    ensures HashLittleOf(key, pc) == HashLittle2Of(key, pc, 0).0
  {
    assert Init1(key, pc) == Init2(key, pc, 0);
  }

  /** Appending zeros leaves every byte of k where it was and reads as zero
      past its end. */
  lemma PadByte(k: seq<bv8>, n: nat, j: nat)
    ensures ByteAt(k + seq(n, _ => 0), j) == ByteAt(k, j)
  {
    var p := k + seq(n, _ => 0);
    if j < |k| {
      assert p[j] == k[j];
    } else if j < |p| {
      assert p[j] == 0;
    }
  }

  /** Words built from the same four bytes are equal. */
  lemma SameWord(k: seq<bv8>, p: seq<bv8>, i: nat)
    requires forall j: nat | i <= j < i + 4 :: ByteAt(k, j) == ByteAt(p, j)
    ensures LeWord(k, i) == LeWord(p, i)
  {
    assert ByteAt(k, i) == ByteAt(p, i) && ByteAt(k, i + 1) == ByteAt(p, i + 1);
    assert ByteAt(k, i + 2) == ByteAt(p, i + 2) && ByteAt(k, i + 3) == ByteAt(p, i + 3);
  }

  /** The tail match adds only the bytes present, which is the same as
      adding the three words of the tail padded with zeros to a full block. */
  lemma TailZeroPadded(k: seq<bv8>)
    requires |k| <= 12
    ensures var p := k + seq(12 - |k|, _ => 0);
      |p| == 12 && LeWord(k, 0) == LeWord(p, 0) && LeWord(k, 4) == LeWord(p, 4) && LeWord(k, 8) == LeWord(p, 8)
  {
    var p := k + seq(12 - |k|, _ => 0);
    forall j: nat | j < 12 {
      PadByte(k, 12 - |k|, j);
    }
    SameWord(k, p, 0);
    SameWord(k, p, 4);
    SameWord(k, p, 8);
  }

  // ---------------------------------------------------------------------------
  // Word traversal (hashword and hashword2)

  /** Word i of k, or zero past the end. */
  function WordAt(k: seq<bv32>, i: nat): bv32
  {
    if i < |k| then k[i] else 0
  }

  /** Adds the first three words of k into a, b and c. */
  function AddWords(s: State, k: seq<bv32>): State
  {
    State(s.a + WordAt(k, 0), s.b + WordAt(k, 1), s.c + WordAt(k, 2))
  }

  /** The `while length > 3` loop: one `mix` per three words while more
      than three remain. */
  function WordBlocks(s: State, k: seq<bv32>): State
    decreases |k|
  {
    if |k| <= 3 then s else WordBlocks(Mix(AddWords(s, k)), k[3..])
  }

  /** The words left for the tail match once `WordBlocks` is done: a suffix
      of k shorter by a multiple of three, at most three words long and
      non-empty when k is. */
  function WordTail(k: seq<bv32>): (r: seq<bv32>)
    ensures |r| <= 3
    ensures |k| <= 3 ==> r == k
    ensures |k| > 0 ==> |r| > 0
    ensures (|k| - |r|) % 3 == 0 && r == k[|k| - |r|..]
    decreases |k|
  {
    if |k| <= 3 then k else WordTail(k[3..])
  }

  /** Traversal, tail and `final_`; unlike the byte hashes, `final_` runs
      even when the key is empty. */
  function WordRun(s0: State, k: seq<bv32>): State
  {
    Final(AddWords(WordBlocks(s0, k), WordTail(k)))
  }

  /** a = 0xdeadbeef + (length << 2) + seed, with `length = k.len() as u32`. */
  function WordSeed(k: seq<bv32>, initVal: bv32): bv32
  {
    Golden + (Len32(|k|) << 2) + initVal
  }

  /** Initial state of `hashword`: a = b = c = the seed. */
  function WordInit1(k: seq<bv32>, initVal: bv32): State
  {
    var a := WordSeed(k, initVal);
    State(a, a, a)
  }

  /** Initial state of `hashword2`: a = b = the seed with pc, c = a + pb. */
  function WordInit2(k: seq<bv32>, pc: bv32, pb: bv32): State
  {
    var a := WordSeed(k, pc);
    State(a, a, a + pb)
  }

  /** The value `hashword(k, init_val)` returns: c. */
  function HashWordOf(k: seq<bv32>, initVal: bv32): bv32
  {
    WordRun(WordInit1(k, initVal), Visible(k)).c
  }

  /** The value `hashword2(k, pc, pb)` returns: the pair (c, b). */
  function HashWord2Of(k: seq<bv32>, pc: bv32, pb: bv32): (bv32, bv32)
  {
    var s := WordRun(WordInit2(k, pc, pb), Visible(k));
    (s.c, s.b)
  }

  /** `hashword`. The initial sum is a plain `+` in the source, which panics
      on overflow in a debug build; it is taken here as wrapping, the release
      behaviour. k holds the unread words, so the source's `length` is |k|;
      the `match length` tail adds the words present: `AddWords`. */
  method HashWord(key: seq<bv32>, initVal: bv32) returns (c: bv32)
    ensures c == HashWordOf(key, initVal)
  {
    var s := WordInit1(key, initVal);
    var k := Visible(key);
    while |k| > 3
      invariant WordBlocks(WordInit1(key, initVal), Visible(key)) == WordBlocks(s, k)
      invariant WordTail(Visible(key)) == WordTail(k)
    {
      s := Mix(AddWords(s, k));
      k := k[3..];
    }
    s := Final(AddWords(s, k));
    c := s.c;
  }

  /** `hashword2`: the same traversal seeded with c = a + pb, returning (c, b). */
  method HashWord2(key: seq<bv32>, pc: bv32, pb: bv32) returns (c: bv32, b: bv32)
    ensures (c, b) == HashWord2Of(key, pc, pb)
  {
    var s := WordInit2(key, pc, pb);
    var k := Visible(key);
    while |k| > 3
      invariant WordBlocks(WordInit2(key, pc, pb), Visible(key)) == WordBlocks(s, k)
      invariant WordTail(Visible(key)) == WordTail(k)
    {
      s := Mix(AddWords(s, k));
      k := k[3..];
    }
    s := Final(AddWords(s, k));
    c, b := s.c, s.b;
  }

  // ---------------------------------------------------------------------------
  // Table sizes

  /** `hash_size(n)`: `1 << n`, the number of buckets n address bits cover.
      The source's shift panics for n >= 32, hence the precondition. Exactly
      bit n is set. */
  function HashSize(n: bv8): (r: bv32)
    requires n < 32
    ensures forall i: bv8 | i < 32 :: Bit(r, i) == (if i == n then 1 else 0)
  {
    1 << n
  }

  /** `hash_mask(n)`: `hash_size(n) - 1`, the mask of the low n bits. */
  function HashMask(n: bv8): (r: bv32)
    requires n < 32
    ensures forall i: bv8 | i < 32 :: Bit(r, i) == (if i < n then 1 else 0)
  {
    HashSize(n) - 1
  }
}
