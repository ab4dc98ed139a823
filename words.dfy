/**
 * Machine-word helpers shared by the model of snap_example_qnvme.c.
 *
 * The tool works with C `uint32_t` and `uint64_t` values.  Counters and
 * offsets whose arithmetic matters are kept as bounded integers with their
 * wrap-around written out; values that are only shuffled bit by bit are
 * kept as bit-vectors.
 */
module Words {

  const Two32: int := 0x1_0000_0000
  const Two64: int := 0x1_0000_0000_0000_0000

  /** A C `uint32_t`, as an integer. */
  type u32 = x: int | 0 <= x < 0x1_0000_0000

  /** A C `uint64_t`, as an integer. */
  type u64 = x: int | 0 <= x < 0x1_0000_0000_0000_0000

  /** The conversion of a C integer to `uint32_t`: reduction modulo 2^32. */
  function Wrap32(x: int): (r: u32)
    ensures (r - x) % Two32 == 0
    ensures 0 <= x < Two32 ==> r == x
  {
    x % Two32
  }

  /** The conversion of a C integer to `uint64_t`: reduction modulo 2^64. */
  function Wrap64(x: int): (r: u64)
    ensures (r - x) % Two64 == 0
    ensures 0 <= x < Two64 ==> r == x
  {
    x % Two64
  }

  /** Reducing an intermediate sum early does not change the reduced result. */
  lemma WrapAdd(x: int, y: int)
    ensures Wrap32(Wrap32(x) + y) == Wrap32(x + y)
  {
  }

  /** `(uint32_t)(x & 0xffffffff)`: the low half of a 64-bit word. */
  function Low32(x: bv64): bv32
  {
    (x & 0xffff_ffff) as bv32
  }

  /** `(uint32_t)(x >> 32)`: the high half of a 64-bit word. */
  function High32(x: bv64): bv32
  {
    (x >> 32) as bv32
  }

  /**
   * The number of 8-byte words visited by a C loop
   * `for (i = 0; i < size; i += 8)`: the least n with 8 * n >= size.
   */
  function WordCount(size: int): (n: nat)
    ensures 8 * n >= size
    ensures n > 0 ==> 8 * (n - 1) < size
  {
    if size <= 0 then 0 else (size + 7) / 8
  }

  /** Bit 3 of a value is set exactly when its remainder mod 16 is at least 8. */
  lemma Bit3Set(x: nat)
    ensures (x / 8) % 2 == 1 <==> x % 16 >= 8
  {
    var q := x / 16;
    var r := x % 16;
    assert x == 16 * q + r;
    assert x / 8 == 2 * q + r / 8;
  }

  /** Bit 1 of a value is set exactly when its remainder mod 4 is at least 2. */
  lemma Bit1Set(x: nat)
    ensures (x / 2) % 2 == 1 <==> x % 4 >= 2
  {
    var q := x / 4;
    var r := x % 4;
    assert x == 4 * q + r;
    assert x / 2 == 2 * q + r / 2;
  }
}
