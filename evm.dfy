/**
 * Machine words and accounts as the two contracts see them.
 *
 * Every amount, count and timestamp in contract storage is a uint256.
 * Its `+`, `-` and `*` operators wrap around modulo 2^256, so the model
 * spells each of them out as a function whose contract says when the
 * mathematical result is returned and what is returned otherwise.
 */
module Evm {

  const MODULUS: nat := 0x1_0000_0000_0000_0000_0000_0000_0000_0000_0000_0000_0000_0000_0000_0000_0000_0000

  /** Largest uint256 value. */
  const MAX_U256: nat := MODULUS - 1

  const ADDRESS_MODULUS: nat := 0x1_0000_0000_0000_0000_0000_0000_0000_0000_0000

  /** A 256-bit unsigned machine word. */
  type U256 = x: nat | x < MODULUS

  /** A 160-bit account address. */
  type Address = a: nat | a < ADDRESS_MODULUS

  /** The null account, which storage yields for an address never written. */
  const ZERO_ADDRESS: Address := 0

  /** An optional value: a payout, or the counter behind an id. */
  datatype Option<T> = None | Some(value: T)

  /** The low 256 bits of `x`: what a uint256 keeps of an unbounded total. */
  function Truncate(x: nat): (r: U256)
    ensures x < MODULUS ==> r == x
  {
    x % MODULUS
  }

  /** uint256 `a + b`. */
  function WrappingAdd(a: U256, b: U256): (r: U256)
    ensures a + b < MODULUS ==> r == a + b
    ensures a + b >= MODULUS ==> r == a + b - MODULUS
  {
    (a + b) % MODULUS
  }

  /** uint256 `a - b`: borrows 2^256 when `b` exceeds `a`. */
  function WrappingSub(a: U256, b: U256): (r: U256)
    ensures b <= a ==> r == a - b
    ensures a < b ==> r == MODULUS - (b - a)
  {
    (a - b) % MODULUS
  }

  /** uint256 `a * b`: the product's low 256 bits, never more than the product. */
  function WrappingMul(a: U256, b: U256): (r: U256)
    ensures a * b < MODULUS ==> r == a * b
    ensures r <= a * b
  {
    a * b % MODULUS
  }
}
