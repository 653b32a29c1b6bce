/**
 * Byte-level reading shared by the journal decoders: the `io::Result`
 * errors they produce, little- and big-endian integer decoding, and a
 * cursor over an in-memory buffer standing for the `Read + Seek` file the
 * decoders are handed (a `Cursor<&[u8]>` or an mmap'ed file).
 */
module Bytes {

  /** Why a read or a decode fails. */
  datatype Error =
    | InvalidOffset   // "Invalid offset": the offset is not 8-byte aligned (or names an unused object header)
    | UnusedObject    // "Unused Object": the type byte is 0
    | UnusedMaxObject // "Unused MAX Object": the type byte is above 7
    | UnexpectedEof   // a fixed-size read ran past the end of the buffer
    | SizeUnderflow   // the object's size is below its fixed part, where the source's u64 subtraction panics
    | TooDeep         // Entry items nest deeper than the decoding depth allowed
    | OutOfBounds     // a slice past the end of a payload, where the source panics

  datatype Result<T> = Ok(value: T) | Err(error: Error)
  {
    predicate IsFailure() { Err? }

    function PropagateFailure<U>(): Result<U>
      requires Err?
    {
      Err(error)
    }

    function Extract(): T
      requires Ok?
    {
      value
    }
  }

  datatype Option<T> = None | Some(value: T)

  /** Little-endian decoding, as `byteorder::LittleEndian` reads. */
  function Le32(b: seq<bv8>): bv32
    requires |b| == 4
  {
    (b[0] as bv32) | ((b[1] as bv32) << 8) | ((b[2] as bv32) << 16) | ((b[3] as bv32) << 24)
  }

  function Le64(b: seq<bv8>): bv64
    requires |b| == 8
  {
    (Le32(b[..4]) as bv64) | ((Le32(b[4..]) as bv64) << 32)
  }

  function Le128(b: seq<bv8>): bv128
    requires |b| == 16
  {
    (Le64(b[..8]) as bv128) | ((Le64(b[8..]) as bv128) << 64)
  }

  /** Big-endian decoding of a 128-bit value (the header's 128-bit ids). */
  function Be128(b: seq<bv8>): bv128
    requires |b| == 16
  {
    Le128(Reverse(b))
  }

  function Reverse<T>(s: seq<T>): (r: seq<T>)
    ensures |r| == |s|
    ensures forall i :: 0 <= i < |s| ==> r[i] == s[|s| - 1 - i]
  {
    if s == [] then [] else Reverse(s[1..]) + [s[0]]
  }

  /** The little-endian encoding of a 64-bit value: the inverse of `Le64`. */
  function ToLe64(x: bv64): (r: seq<bv8>)
    ensures |r| == 8
  {
    [ (x & 0xff) as bv8, ((x >> 8) & 0xff) as bv8, ((x >> 16) & 0xff) as bv8, ((x >> 24) & 0xff) as bv8,
      ((x >> 32) & 0xff) as bv8, ((x >> 40) & 0xff) as bv8, ((x >> 48) & 0xff) as bv8, ((x >> 56) & 0xff) as bv8 ]
  }

  lemma Le64OfToLe64(x: bv64)
    ensures Le64(ToLe64(x)) == x
  {
  }

  /** The little-endian u64 at position `q`. */
  function LeAt(data: seq<bv8>, q: nat): bv64
    requires q + 8 <= |data|
  {
    Le64(data[q..q + 8])
  }

  /** The little-endian encoding of a 32-bit value: the inverse of `Le32`. */
  function ToLe32(x: bv32): (r: seq<bv8>)
    ensures |r| == 4
  {
    [(x & 0xff) as bv8, ((x >> 8) & 0xff) as bv8, ((x >> 16) & 0xff) as bv8, ((x >> 24) & 0xff) as bv8]
  }

  lemma Le32OfToLe32(x: bv32)
    ensures Le32(ToLe32(x)) == x
  {
  }

  /** The big-endian encoding of a 128-bit value: the inverse of `Be128`. */
  function ToBe128(x: bv128): (r: seq<bv8>)
    ensures |r| == 16
  {
    Reverse(ToLe64(Low64(x)) + ToLe64(High64(x)))
  }

  lemma ReverseReverse<T>(s: seq<T>)
    ensures Reverse(Reverse(s)) == s
  {
  }

  function Low64(x: bv128): bv64
  {
    (x & 0xffff_ffff_ffff_ffff) as bv64
  }

  function High64(x: bv128): bv64
  {
    (x >> 64) as bv64
  }

  lemma Le128Halves(x: bv128)
    ensures ((Low64(x) as bv128) | ((High64(x) as bv128) << 64)) == x
  {
  }

  lemma Be128OfToBe128(x: bv128)
    ensures Be128(ToBe128(x)) == x
  {
    var lo, hi := ToLe64(Low64(x)), ToLe64(High64(x));
    ReverseReverse(lo + hi);
    assert (lo + hi)[..8] == lo && (lo + hi)[8..] == hi;
    Le64OfToLe64(Low64(x));
    Le64OfToLe64(High64(x));
    Le128Halves(x);
  }

  /** The `n` bytes at position `p`, or `UnexpectedEof` when fewer remain. */
  function BytesAt(data: seq<bv8>, p: nat, n: nat): (r: Result<seq<bv8>>)
    ensures r.Ok? <==> p + n <= |data|
    ensures r.Ok? ==> |r.value| == n && r.value == data[p..p + n]
    ensures r.Err? ==> r.error == UnexpectedEof
  {
    if p + n <= |data| then Ok(data[p..p + n]) else Err(UnexpectedEof)
  }

  function U8At(data: seq<bv8>, p: nat): Result<bv8>
  {
    if p + 1 <= |data| then Ok(data[p]) else Err(UnexpectedEof)
  }

  function U32At(data: seq<bv8>, p: nat): Result<bv32>
  {
    if p + 4 <= |data| then Ok(Le32(data[p..p + 4])) else Err(UnexpectedEof)
  }

  function U64At(data: seq<bv8>, p: nat): Result<bv64>
  {
    if p + 8 <= |data| then Ok(Le64(data[p..p + 8])) else Err(UnexpectedEof)
  }

  function U128At(data: seq<bv8>, p: nat): Result<bv128>
  {
    if p + 16 <= |data| then Ok(Le128(data[p..p + 16])) else Err(UnexpectedEof)
  }

  function U128BeAt(data: seq<bv8>, p: nat): Result<bv128>
  {
    if p + 16 <= |data| then Ok(Be128(data[p..p + 16])) else Err(UnexpectedEof)
  }

  /**
   * A read/seek cursor over a byte buffer. A read that cannot be satisfied
   * fails with `UnexpectedEof` and leaves the position where it was, as
   * `read_exact` on a `Cursor` does.
   */
  class Cursor {
    const data: seq<bv8>
    var pos: nat

    constructor (data: seq<bv8>)
      ensures this.data == data && pos == 0
    {
      this.data := data;
      pos := 0;
    }

    method Seek(p: nat)
      modifies this
      ensures pos == p
    {
      pos := p;
    }

    method ReadU8() returns (r: Result<bv8>)
      modifies this
      ensures r == U8At(data, old(pos))
      ensures pos == if r.Ok? then old(pos) + 1 else old(pos)
    {
      if pos + 1 <= |data| {
        r := Ok(data[pos]);
        pos := pos + 1;
      } else {
        r := Err(UnexpectedEof);
      }
    }

    method ReadExact(n: nat) returns (r: Result<seq<bv8>>)
      modifies this
      ensures r == BytesAt(data, old(pos), n)
      ensures pos == if r.Ok? then old(pos) + n else old(pos)
    {
      if pos + n <= |data| {
        r := Ok(data[pos..pos + n]);
        pos := pos + n;
      } else {
        r := Err(UnexpectedEof);
      }
    }

    method ReadU32() returns (r: Result<bv32>)
      modifies this
      ensures r == U32At(data, old(pos))
      ensures pos == if r.Ok? then old(pos) + 4 else old(pos)
    {
      var b :- ReadExact(4);
      r := Ok(Le32(b));
    }

    method ReadU64() returns (r: Result<bv64>)
      modifies this
      ensures r == U64At(data, old(pos))
      ensures pos == if r.Ok? then old(pos) + 8 else old(pos)
    {
      var b :- ReadExact(8);
      r := Ok(Le64(b));
    }

    method ReadU128() returns (r: Result<bv128>)
      modifies this
      ensures r == U128At(data, old(pos))
      ensures pos == if r.Ok? then old(pos) + 16 else old(pos)
    {
      var b :- ReadExact(16);
      r := Ok(Le128(b));
    }

    method ReadU128Be() returns (r: Result<bv128>)
      modifies this
      ensures r == U128BeAt(data, old(pos))
      ensures pos == if r.Ok? then old(pos) + 16 else old(pos)
    {
      var b :- ReadExact(16);
      r := Ok(Be128(b));
    }
  }
}
