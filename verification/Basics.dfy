/** Small shared vocabulary: optional values and the machine word sizes of the server. */
module Basics {

  datatype Option<+T> = None | Some(value: T)

  const U64_MAX: nat := 0xFFFF_FFFF_FFFF_FFFF

  // `usize` on the 64-bit targets the server supports.
  const USIZE_MAX: nat := 0xFFFF_FFFF_FFFF_FFFF

  const I64_MAX: int := 0x7FFF_FFFF_FFFF_FFFF

  function Min(a: int, b: int): int {
    if a <= b then a else b
  }

  function Max(a: int, b: int): int {
    if a >= b then a else b
  }

  // ----- `usize` arithmetic that stops at the largest value

  function SaturatingAdd(a: nat, b: nat): nat {
    Min(a + b, USIZE_MAX)
  }

  function SaturatingMul(a: nat, b: nat): nat {
    Min(a * b, USIZE_MAX)
  }

  function SaturatingSub(a: nat, b: nat): nat {
    if a < b then 0 else a - b
  }

  // ----- logarithms

  function Doublings(width: nat, n: nat): nat
    requires width > 0
    decreases n - width
  {
    if width >= n then 0 else 1 + Doublings(2 * width, n)
  }

  function Power2(k: nat): (r: nat)
    ensures r > 0
  {
    if k == 0 then 1 else 2 * Power2(k - 1)
  }

  function CeilLog2(n: nat): nat {
    Doublings(1, n)
  }

  lemma {:induction false} DoublingsReach(j: nat, n: nat)
    ensures n <= Power2(j + Doublings(Power2(j), n))
    ensures Doublings(Power2(j), n) > 0 ==> Power2(j + Doublings(Power2(j), n) - 1) < n
    decreases n - Power2(j)
  {
    if Power2(j) < n {
      assert Power2(j + 1) == 2 * Power2(j);
      DoublingsReach(j + 1, n);
    }
  }

  /** `CeilLog2(n)` is the least exponent whose power of two is at least `n`. */
  lemma CeilLog2IsLeast(n: nat)
    ensures n <= Power2(CeilLog2(n)) && (CeilLog2(n) > 0 ==> Power2(CeilLog2(n) - 1) < n)
  {
    DoublingsReach(0, n);
  }
}
