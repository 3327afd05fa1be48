/** Packing of an (agent, company) pair of 64-bit identifiers into one 128-bit
    lookup key, as `combine`, `get_first` and `get_second` do with shifts and
    masks. Over naturals, `(a << 64) | b` is `a * 2^64 + b` because `b < 2^64`. */
module Codec {

  const TWO_64: nat := 0x1_0000_0000_0000_0000

  /** A Rust `u64`. */
  type U64 = x: int | 0 <= x < 0x1_0000_0000_0000_0000

  /** A Rust `u128`. */
  type U128 = x: int | 0 <= x < 0x1_0000_0000_0000_0000_0000_0000_0000_0000

  /** `combine`: the agent id in the high 64 bits, the company id in the low 64 bits. */
  function Combine(a: U64, b: U64): (k: U128)
    ensures k / TWO_64 == a && k % TWO_64 == b
  {
    a * TWO_64 + b
  }

  /** `get_first`: the high 64 bits of a key. */
  function GetFirst(k: U128): (a: U64)
    ensures a * TWO_64 <= k < a * TWO_64 + TWO_64
  {
    k / TWO_64
  }

  /** `get_second`: the low 64 bits of a key. */
  function GetSecond(k: U128): (b: U64)
    ensures k == GetFirst(k) * TWO_64 + b
  {
    k % TWO_64
  }

  /** Both projections invert the packing. */
  lemma SplitCombine(a: U64, b: U64)
    ensures GetFirst(Combine(a, b)) == a
    ensures GetSecond(Combine(a, b)) == b
  {
  }

  /** The packing inverts both projections: every 128-bit key is some pair. */
  lemma CombineSplit(k: U128)
    ensures Combine(GetFirst(k), GetSecond(k)) == k
  {
  }

  /** Distinct pairs never share a key. */
  lemma CombineInjective(a: U64, b: U64, c: U64, d: U64)
    ensures Combine(a, b) == Combine(c, d) <==> a == c && b == d
  {
    SplitCombine(a, b);
    SplitCombine(c, d);
  }
}
