/** Bytes, 32-byte hashes, and the fixed-width arithmetic the runtime relies on. */
module Primitives {

  const U32_MAX: nat := 0xFFFF_FFFF
  const USIZE_RANGE: nat := 0x1_0000_0000

  type Byte = b: nat | b < 256
  type Bytes = seq<Byte>

  /** `[u8; 32]`: DIDs, Merkle roots, commitment ids and node hashes. */
  type Hash = h: Bytes | |h| == 32 witness seq(32, _ => 0)

  const ZERO_HASH: Hash :=
    [0, 0, 0, 0, 0, 0, 0, 0, 0, 0, 0, 0, 0, 0, 0, 0, 0, 0, 0, 0, 0, 0, 0, 0, 0, 0, 0, 0, 0, 0, 0, 0]

  datatype Option<+T> = None | Some(value: T)

  function Min(a: nat, b: nat): nat {
    if a < b then a else b
  }

  /** `u32::saturating_add`. */
  function SaturatingAdd(a: nat, b: nat): nat {
    Min(a + b, U32_MAX)
  }

  /** `u32::saturating_sub`. */
  function SaturatingSub(a: nat, b: nat): nat {
    if a < b then 0 else a - b
  }

  /** `x as usize` on the wasm32 runtime. */
  function AsUsize(x: nat): nat {
    x % USIZE_RANGE
  }

  /** SCALE encoding of a `u32` block number. */
  function LittleEndian(n: nat): (r: Bytes)
    ensures |r| == 4
  {
    [n % 256, n / 256 % 256, n / 65536 % 256, n / 16777216 % 256]
  }

  function Weighed(a: nat, b: nat, c: nat, d: nat): nat {
    a + 256 * b + 65536 * c + 16777216 * d
  }

  /** Least significant byte first. */
  lemma LittleEndianValue(n: nat)
    requires n <= U32_MAX
    ensures var b := LittleEndian(n); n == Weighed(b[0], b[1], b[2], b[3])
  {
    FromDigits(n);
  }

  lemma LittleEndianInjective(m: nat, n: nat)
    requires m <= U32_MAX && n <= U32_MAX
    requires LittleEndian(m) == LittleEndian(n)
    ensures m == n
  {
    LittleEndianValue(m);
    LittleEndianValue(n);
    assert LittleEndian(m)[0] == LittleEndian(n)[0];
    assert LittleEndian(m)[1] == LittleEndian(n)[1];
    assert LittleEndian(m)[2] == LittleEndian(n)[2];
    assert LittleEndian(m)[3] == LittleEndian(n)[3];
  }

  lemma FromDigits(n: nat)
    requires n <= U32_MAX
    ensures n == n % 256 + 256 * (n / 256 % 256) + 65536 * (n / 65536 % 256) + 16777216 * (n / 16777216 % 256)
  {
  }
}
