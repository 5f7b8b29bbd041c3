/** Fixed-width integers of the collector, and the two result shapes its
    fallible calls use. */
module Machine {
  const U8_MAX: nat := 0xFF
  const U32_MAX: nat := 0xFFFF_FFFF
  const U64_MAX: nat := 0xFFFF_FFFF_FFFF_FFFF

  /** `usize` on the 64-bit Linux targets the collector supports. */
  const USIZE_MAX: nat := U64_MAX

  /** Instants and durations are nanoseconds. */
  const MILLISECOND: nat := 1_000_000
  const SECOND: nat := 1000 * MILLISECOND

  type byte = n: nat | n <= U8_MAX
  type u32 = n: nat | n <= U32_MAX
  type u64 = n: nat | n <= U64_MAX
  type usize = n: nat | n <= USIZE_MAX

  datatype Option<+T> = None | Some(value: T) {
    function UnwrapOr(default: T): T {
      if Some? then value else default
    }
  }

  datatype Result<+T, +E> = Ok(value: T) | Err(error: E)

  function Min(a: int, b: int): int {
    if a < b then a else b
  }

  function Max(a: int, b: int): int {
    if a < b then b else a
  }

  /** `saturating_add` and `saturating_sub` on `u64` and `usize`. */
  function SatAdd(a: u64, b: u64): u64 {
    Min(a + b, U64_MAX)
  }

  function SatSub(a: u64, b: u64): u64 {
    Max(a - b, 0)
  }

  function Power(base: nat, n: nat): nat {
    if n == 0 then 1 else base * Power(base, n - 1)
  }

  lemma {:induction false} PowerDoubles(base: nat, m: nat, n: nat)
    ensures Power(base, m + n) == Power(base, m) * Power(base, n)
  {
    if m > 0 {
      PowerDoubles(base, m - 1, n);
    }
  }

  lemma PowersOfTwo()
    ensures Power(2, 8) == 0x100 && Power(2, 32) == 0x1_0000_0000
  {
    assert Power(2, 4) == 16;
    PowerDoubles(2, 4, 4);
    PowerDoubles(2, 8, 8);
    PowerDoubles(2, 16, 16);
  }

  /** The widest values of 8, 32 and 64 bits. */
  lemma WidthsAreBits()
    ensures U8_MAX == Power(2, 8) - 1 && U32_MAX == Power(2, 32) - 1 && U64_MAX == USIZE_MAX == Power(2, 64) - 1
    ensures U64_MAX == 2 * Power(2, 63) - 1
  {
    PowersOfTwo();
    PowerDoubles(2, 32, 32);
    assert Power(2, 64) == 2 * Power(2, 63);
  }
}
