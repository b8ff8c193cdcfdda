/** Fixed-width machine words and the wrapping and saturating arithmetic the stack uses on them. */
module Words {

  const TWO32: int := 0x1_0000_0000

  type byte = x: int | 0 <= x < 0x100
  type u16 = x: int | 0 <= x < 0x1_0000
  type u32 = x: int | 0 <= x < 0x1_0000_0000
  type u128 = x: int | 0 <= x < 0x1_0000_0000_0000_0000_0000_0000_0000_0000

  datatype Option<+T> = None | Some(value: T)

  /** `u32::wrapping_add` */
  function WrapAdd(a: u32, b: u32): u32 {
    if a + b < TWO32 then a + b else a + b - TWO32
  }

  /** `u32::wrapping_sub` */
  function WrapSub(a: u32, b: u32): u32 {
    if b <= a then a - b else a - b + TWO32
  }

  /** `saturating_sub`, at any unsigned width */
  function SatSub(a: nat, b: nat): nat {
    if b <= a then a - b else 0
  }

  function Min(a: nat, b: nat): nat {
    if a <= b then a else b
  }

  function Max(a: int, b: int): int {
    if a <= b then b else a
  }

  /** The 32-bit word that a mathematical counter is stored as. */
  function Mod32(x: nat): u32 {
    x % TWO32
  }

  /** `len() as u32`: the cast keeps the low 32 bits. */
  function Len32(b: seq<byte>): u32 {
    Mod32(|b|)
  }

  /** Adding counters is adding words. */
  lemma Mod32Plus(x: nat, n: nat)
    ensures Mod32(x + n) == WrapAdd(Mod32(x), Mod32(n))
  {
    var q := x / TWO32 + n / TWO32;
    var r := Mod32(x) + Mod32(n);
    assert x + n == TWO32 * q + r;
    if r < TWO32 {
      assert (x + n) % TWO32 == r;
    } else {
      assert x + n == TWO32 * (q + 1) + (r - TWO32);
    }
  }

  /** Shifting both words leaves their distance. */
  lemma WrapShift(a: u32, b: u32, k: u32)
    ensures WrapSub(WrapAdd(a, k), WrapAdd(b, k)) == WrapSub(a, b)
  {
  }

  /** `s[..n]` when the sequence is long enough, all of `s` otherwise: `Vec::truncate`. */
  function Truncate(s: seq<byte>, n: nat): (r: seq<byte>)
    ensures r <= s && |r| == Min(n, |s|)
  {
    if |s| <= n then s else s[..n]
  }

  lemma {:induction false} MulStrict(a: nat, b: nat, n: nat)
    requires a < b
    ensures a * n + n <= b * n
    decreases b - a
  {
    if a + 1 < b {
      MulStrict(a, b - 1, n);
    }
    assert (b - 1) * n + n == b * n;
  }
}
