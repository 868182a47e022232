/**
 * An abstract network bit stream: a writer appends bits, a reader walks a
 * sequence of bits with a cursor. Multi-bit values are written least
 * significant bit first; the real library's bit order within a byte is not
 * part of this model, only how many bits each write takes and that a read
 * at the same place gives the value back.
 */
module BitStream {
  import opened Common

  type Bits = seq<bool>

  datatype Reader = Reader(bits: Bits, pos: nat)

  /** The `n` low bits of `v`, least significant first. */
  function Encode(v: nat, n: nat): (bs: Bits)
    ensures |bs| == n
  {
    if n == 0 then [] else [v % 2 == 1] + Encode(v / 2, n - 1)
  }

  /** The number whose bits, least significant first, are `bs`. */
  function Decode(bs: Bits): (v: nat)
    ensures v < Pow2(|bs|)
  {
    if |bs| == 0 then 0 else (if bs[0] then 1 else 0) + 2 * Decode(bs[1..])
  }

  /** The value of the `n` low bits of `v`: what a bit field of width `n` keeps. */
  function Low(v: nat, n: nat): (r: nat)
    ensures r < Pow2(n)
  {
    if n == 0 then 0 else v % 2 + 2 * Low(v / 2, n - 1)
  }

  /** A value that fits in `n` bits is its own low bits. */
  lemma {:induction false} LowFits(v: nat, n: nat)
    requires v < Pow2(n)
    ensures Low(v, n) == v
  {
    if n > 0 {
      LowFits(v / 2, n - 1);
    }
  }

  /** Decoding what was encoded gives back the value's low bits. */
  lemma {:induction false} DecodeEncode(v: nat, n: nat)
    ensures Decode(Encode(v, n)) == Low(v, n)
  {
    if n > 0 {
      DecodeEncode(v / 2, n - 1);
      assert Encode(v, n)[1..] == Encode(v / 2, n - 1);
    }
  }

  /** Encoding what was decoded gives the bits back. */
  lemma {:induction false} EncodeDecode(bs: Bits)
    ensures Encode(Decode(bs), |bs|) == bs
  {
    if |bs| > 0 {
      EncodeDecode(bs[1..]);
      var v := Decode(bs);
      assert v % 2 == (if bs[0] then 1 else 0) && v / 2 == Decode(bs[1..]);
    }
  }

  /** The reader's next bits are `bs`. */
  predicate Holds(r: Reader, bs: Bits)
  {
    r.pos + |bs| <= |r.bits| && r.bits[r.pos..r.pos + |bs|] == bs
  }

  /** What holds for a concatenation holds for its two parts, one after the other. */
  lemma HoldsSplit(r: Reader, a: Bits, b: Bits)
    requires Holds(r, a + b)
    ensures Holds(r, a) && Holds(Skip(r, |a|), b)
  {
    assert r.bits[r.pos..r.pos + |a|] == (a + b)[..|a|];
    assert r.bits[r.pos + |a|..r.pos + |a| + |b|] == (a + b)[|a|..];
  }

  /** The reader moved on by `n` bits. */
  function Skip(r: Reader, n: nat): (r': Reader)
    ensures r'.bits == r.bits && r'.pos == r.pos + n
  {
    r.(pos := r.pos + n)
  }

  /** `WriteBits(&value, n)`: the `n` low bits of the value. */
  function WriteBits(v: nat, n: nat): (bs: Bits)
    ensures |bs| == n
    ensures Decode(bs) == Low(v, n)
  {
    DecodeEncode(v, n);
    Encode(v, n)
  }

  /** `ReadBits(&value, n)`: fails, consuming nothing, when fewer than `n` bits remain. */
  function ReadBits(r: Reader, n: nat): (res: Option<(nat, Reader)>)
    ensures res.None? <==> r.pos + n > |r.bits|
    ensures res.Some? ==> res.value.0 < Pow2(n) && res.value.1 == Skip(r, n)
  {
    if r.pos + n > |r.bits| then None else Some((Decode(r.bits[r.pos..r.pos + n]), Skip(r, n)))
  }

  /** Reading back the bits of a write gives the value's `n` low bits. */
  lemma ReadWriteBits(r: Reader, v: nat, n: nat)
    requires Holds(r, WriteBits(v, n))
    ensures ReadBits(r, n) == Some((Low(v, n), Skip(r, n)))
  {
    var bs := WriteBits(v, n);
    assert r.bits[r.pos..r.pos + n] == bs;
  }

  /** Every bit pattern the reader can meet is the write of the value it reads. */
  lemma ReadBitsIsWritten(r: Reader, n: nat)
    requires r.pos + n <= |r.bits|
    ensures Holds(r, WriteBits(ReadBits(r, n).value.0, n))
  {
    var bs := r.bits[r.pos..r.pos + n];
    var v := Decode(bs);
    assert ReadBits(r, n).value.0 == v;
    EncodeDecode(bs);
    assert WriteBits(v, n) == Encode(v, n) == bs;
  }

  function WriteBit(b: bool): (bs: Bits)
    ensures |bs| == 1 && bs[0] == b
  {
    [b]
  }

  /** `ReadBit(bool&)`: fails when the stream is exhausted. */
  function ReadBitChecked(r: Reader): (res: Option<(bool, Reader)>)
    ensures res.None? <==> r.pos >= |r.bits|
    ensures res.Some? ==> res.value == (r.bits[r.pos], Skip(r, 1))
  {
    if r.pos < |r.bits| then Some((r.bits[r.pos], Skip(r, 1))) else None
  }

  /**
   * `bool ReadBit()`: the bit, or false once the stream is exhausted; the
   * library's behaviour past the end is not part of this model.
   */
  function ReadBit(r: Reader): (res: (bool, Reader))
    ensures r.pos < |r.bits| ==> res == (r.bits[r.pos], Skip(r, 1))
    ensures r.pos >= |r.bits| ==> res == (false, r)
  {
    if r.pos < |r.bits| then (r.bits[r.pos], Skip(r, 1)) else (false, r)
  }

  /** `Write(unsigned char)`. */
  function WriteByte(v: uint8): (bs: Bits)
    ensures |bs| == 8
  {
    WriteBits(v, 8)
  }

  /** `Read(unsigned char&)`. */
  function ReadByte(r: Reader): (res: Option<(uint8, Reader)>)
    ensures res.None? <==> r.pos + 8 > |r.bits|
    ensures res.Some? ==> res.value.1 == Skip(r, 8)
  {
    match ReadBits(r, 8)
    case None => None
    case Some((v, r')) => Some((v, r'))
  }

  lemma ReadWriteByte(r: Reader, v: uint8)
    requires Holds(r, WriteByte(v))
    ensures ReadByte(r) == Some((v, Skip(r, 8)))
  {
    ReadWriteBits(r, v, 8);
    LowFits(v, 8);
  }
}
