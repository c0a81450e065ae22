/**
 * Machine-level value types shared by the gateway, the test tools and the
 * sensor node: bytes, the 16- and 32-bit unsigned words the C code uses,
 * opaque single-precision floats, and the usual Option/Result wrappers.
 */
module Common {

  /** An unsigned 8-bit value (`uint8_t`). */
  type byte = x: int | 0 <= x < 0x100

  /** An unsigned 32-bit value (`unsigned long` on the 32-bit targets). */
  type u32 = x: int | 0 <= x < 0x1_0000_0000

  /** A signed 16-bit value (`short`, `int16_t`). */
  type i16 = x: int | -0x8000 <= x < 0x8000

  /** An IEEE-754 single-precision value, kept as its bit pattern: the model
      never computes with floats, it only moves them and compares them bit
      for bit. */
  datatype Float32 = Float32(bits: u32)

  datatype Option<T> = None | Some(value: T)

  datatype Result<T, E> = Ok(value: T) | Err(error: E)

  /** Increment with the wrap-around of a `uint8_t` (`x++` on a byte). */
  function IncByte(x: byte): (r: byte)
    ensures x < 0xFF ==> r == x + 1
    ensures x == 0xFF ==> r == 0
  {
    (x + 1) % 0x100
  }

  /** Unsigned 32-bit subtraction, as C computes `a - b` on `unsigned long`. */
  function SubU32(a: u32, b: u32): (r: u32)
    ensures b <= a ==> r == a - b
    ensures a < b ==> r == a - b + 0x1_0000_0000
  {
    (a - b) % 0x1_0000_0000
  }

  /** The four bytes of a 32-bit word, least significant first (the memory
      order of the little-endian AVR and ARM targets). */
  function LittleEndian32(w: u32): (bs: seq<byte>)
    ensures |bs| == 4
  {
    [w % 0x100, (w / 0x100) % 0x100, (w / 0x1_0000) % 0x100, w / 0x100_0000]
  }

  /** The 32-bit word stored little-endian in `bs`. */
  function Word32(bs: seq<byte>): (w: u32)
    requires |bs| == 4
  {
    bs[0] as int + 0x100 * bs[1] as int + 0x1_0000 * bs[2] as int + 0x100_0000 * bs[3] as int
  }

  /** Storing a word and loading it back gives the same word. */
  lemma Word32OfLittleEndian(w: u32)
    ensures Word32(LittleEndian32(w)) == w
  {
    var q1 := w / 0x100;
    var q2 := q1 / 0x100;
    assert w == w % 0x100 + 0x100 * q1;
    assert q1 == q1 % 0x100 + 0x100 * q2;
    assert q2 == q2 % 0x100 + 0x100 * (q2 / 0x100);
    assert q2 == w / 0x1_0000;
    assert q2 / 0x100 == w / 0x100_0000;
  }
}
