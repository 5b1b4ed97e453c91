/**
 * `float_to_regs` of modbus_server.py: a float, packed as a big-endian
 * IEEE 754 binary32 value, split into two 16-bit Modbus register words,
 * high word first.
 */
module FloatWords {

  /** One byte. */
  type byte = b: int | 0 <= b < 0x100

  /** One 16-bit Modbus register word. */
  type Word = w: int | 0 <= w < 0x1_0000

  /** A 32-bit pattern. */
  type Bits32 = b: int | 0 <= b < 0x1_0000_0000

  /**
   * The IEEE 754-2008 binary32 interchange encoding (section 3.4) that the
   * Python runtime applies to a value inside `struct.pack('>f', value)`.
   * Rounding to single precision is floating-point numerics outside this
   * model, so the encoding is supplied by the caller.
   */
  type Binary32Encoding = real -> Bits32

  /** 256 to the power `n`: one more than the largest number `n` bytes can hold. */
  function Pow256(n: nat): nat
  {
    if n == 0 then 1 else 0x100 * Pow256(n - 1)
  }

  /**
   * `int.from_bytes(bs, 'big')`: the bytes as a base-256 number, most
   * significant first. It fits in as many bytes as were read, and its lowest
   * byte is the last one read.
   */
  function FromBytesBig(bs: seq<byte>): (n: nat)
    ensures n < Pow256(|bs|)
    ensures bs != [] ==> n % 0x100 == bs[|bs| - 1]
  {
    if bs == [] then 0
    else
      var high := FromBytesBig(bs[..|bs| - 1]);
      assert high * 0x100 + bs[|bs| - 1] < Pow256(|bs|) by {
        assert high + 1 <= Pow256(|bs| - 1);
        assert (high + 1) * 0x100 <= Pow256(|bs| - 1) * 0x100;
      }
      high * 0x100 + bs[|bs| - 1]
  }

  /** Two bytes read big-endian form one word. */
  lemma TwoBytes(bs: seq<byte>)
    requires |bs| == 2
    ensures FromBytesBig(bs) == bs[0] as int * 0x100 + bs[1] < 0x1_0000
  {
    assert bs[..1][..0] == [];
    assert FromBytesBig(bs[..1]) == bs[0];
  }

  /** Four bytes read big-endian: three steps of shifting in one more byte. */
  lemma FourBytes(bs: seq<byte>)
    requires |bs| == 4
    ensures FromBytesBig(bs) == ((bs[0] as int * 0x100 + bs[1]) * 0x100 + bs[2]) * 0x100 + bs[3]
    ensures FromBytesBig(bs) < 0x1_0000_0000
  {
    TwoBytes(bs[..2]);
    assert bs[..3][..2] == bs[..2];
  }

  /** Shifting a byte in below `x` and taking it back out again. */
  lemma ShiftByte(x: nat, b: byte)
    ensures (x * 0x100 + b) / 0x100 == x && (x * 0x100 + b) % 0x100 == b
  {
  }

  /**
   * The byte string of `struct.pack('>f', ...)` for a bit pattern: four
   * bytes, most significant first. Reading them back big-endian gives the
   * pattern again.
   */
  function PackBig(bits: Bits32): (bs: seq<byte>)
    ensures |bs| == 4 && FromBytesBig(bs) == bits
  {
    var n1 := bits / 0x100;
    var n2 := n1 / 0x100;
    var bs: seq<byte> := [n2 / 0x100, n2 % 0x100, n1 % 0x100, bits % 0x100];
    FourBytes(bs);
    bs
  }

  /** The other direction: packing the number four bytes stand for gives those bytes back. */
  lemma PackFromBytes(bs: seq<byte>)
    requires |bs| == 4
    ensures FromBytesBig(bs) < 0x1_0000_0000 && PackBig(FromBytesBig(bs)) == bs
  {
    FourBytes(bs);
    var n2 := bs[0] as int * 0x100 + bs[1];
    var n1 := n2 * 0x100 + bs[2];
    var n := n1 * 0x100 + bs[3];
    ShiftByte(n1, bs[3]);
    ShiftByte(n2, bs[2]);
    ShiftByte(bs[0], bs[1]);
  }

  /**
   * `float_to_regs`: the first two and the last two packed bytes, each read
   * as a big-endian word. The high word times 65536 plus the low word is
   * the value's binary32 bit pattern.
   */
  function FloatToRegs(encode: Binary32Encoding, value: real): (regs: seq<Word>)
    ensures |regs| == 2
    ensures regs[0] as int * 0x1_0000 + regs[1] == encode(value)
  {
    var b := PackBig(encode(value));
    TwoBytes(b[..2]);
    TwoBytes(b[2..]);
    FourBytes(b);
    [FromBytesBig(b[..2]), FromBytesBig(b[2..])]
  }

  /** Two values get the same word pair exactly when their bit patterns agree. */
  lemma FloatToRegsInjective(encode: Binary32Encoding, v: real, w: real)
    ensures FloatToRegs(encode, v) == FloatToRegs(encode, w) <==> encode(v) == encode(w)
  {
    var rv, rw := FloatToRegs(encode, v), FloatToRegs(encode, w);
    if encode(v) == encode(w) {
      assert rv[0] == encode(v) / 0x1_0000 == rw[0];
      assert rv[1] == encode(v) % 0x1_0000 == rw[1];
    }
  }

  /** The high word of a value's bit pattern: the first register `float_to_regs` returns. */
  function HighWord(encode: Binary32Encoding, value: real): Word
  {
    encode(value) / 0x1_0000
  }

  /** The low word of a value's bit pattern: the second register `float_to_regs` returns. */
  function LowWord(encode: Binary32Encoding, value: real): Word
  {
    encode(value) % 0x1_0000
  }

  /** `float_to_regs` is the high word followed by the low word. */
  lemma FloatToRegsWords(encode: Binary32Encoding, value: real)
    ensures FloatToRegs(encode, value) == [HighWord(encode, value), LowWord(encode, value)]
  {
    var regs := FloatToRegs(encode, value);
    SplitWords(regs[0], regs[1], encode(value));
  }

  /** A high and a low word put together split back into the same two words. */
  lemma SplitWords(hi: int, lo: Word, bits: int)
    requires hi * 0x1_0000 + lo == bits
    ensures bits / 0x1_0000 == hi && bits % 0x1_0000 == lo
  {
  }
}
