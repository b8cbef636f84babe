/** Go's fixed-width integers, an Option for nullable values, and counted
    multiples: the vocabulary the reader and the prober share. */
module Words {

  const U64_MODULUS: int := 0x1_0000_0000_0000_0000
  const I64_BOUND: int := 0x8000_0000_0000_0000

  /** Go's uint64. */
  type u64 = x: int | 0 <= x < U64_MODULUS

  /** Go's int64 (and Go's int on a 64-bit platform). */
  type i64 = x: int | -I64_BOUND <= x < I64_BOUND

  datatype Option<+T> = None | Some(value: T)

  function Min(a: nat, b: nat): nat {
    if a <= b then a else b
  }

  /** `a - b` on uint64: wraps modulo 2^64 when b exceeds a. */
  function SubU64(a: u64, b: u64): (r: u64)
    ensures a >= b ==> r == a - b
    ensures a < b ==> r == U64_MODULUS - (b - a)
  {
    (a - b) % U64_MODULUS
  }

  /** The conversion `int64(x)` of a uint64: the same 64 bits read as two's complement. */
  function ToI64(x: u64): (r: i64)
    ensures x < I64_BOUND ==> r == x
    ensures r < 0 <==> x >= I64_BOUND
    ensures (r - x) % U64_MODULUS == 0
  {
    if x < I64_BOUND then x else x - U64_MODULUS
  }

  /** c * j, spelled as repeated addition so that the drain's counting proofs
      stay in linear arithmetic; TimesIsProduct connects it to `*`. */
  function Times(c: nat, j: nat): nat {
    if c == 0 then 0 else Times(c - 1, j) + j
  }

  lemma {:induction false} TimesIsProduct(c: nat, j: nat)
    ensures Times(c, j) == c * j
  {
    if c > 0 {
      TimesIsProduct(c - 1, j);
      assert c * j == (c - 1) * j + j;
    }
  }
}
