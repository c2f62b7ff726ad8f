/** Rust's u64 with its checked and saturating operations. */
module UInt64 {
  import opened Wrappers

  const U64_MAX: int := 0xffff_ffff_ffff_ffff

  type u64 = x: int | 0 <= x <= 0xffff_ffff_ffff_ffff

  function CheckedAdd(a: u64, b: u64): Option<u64> {
    if a + b <= U64_MAX then Some(a + b) else None
  }

  function SaturatingAdd(a: u64, b: u64): u64 {
    if a + b <= U64_MAX then a + b else U64_MAX
  }

  function SaturatingSub(a: u64, b: u64): u64 {
    if a >= b then a - b else 0
  }

  function SaturatingMul(a: u64, b: u64): u64 {
    MulNat(a, b);
    if a * b <= U64_MAX then a * b else U64_MAX
  }

  lemma MulNat(a: nat, b: nat)
    ensures 0 <= a * b
  {
  }

  function Min(a: u64, b: u64): u64 {
    if a <= b then a else b
  }

  function Max(a: u64, b: u64): u64 {
    if a <= b then b else a
  }
}
