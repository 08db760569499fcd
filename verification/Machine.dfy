/** Sizes and types that all parts of the kernel share. */
module Machine {

  /** The number of values of an unsigned int. */
  const WORD: nat := 0x1_0000_0000

  /** PAGE_SIZE and PAGE_CACHE_SIZE */
  const PAGE: nat := 4096

  const EINVAL: int := 22

  /** The value of a u8. */
  type Octet = n: nat | n < 256

  type Bytes = seq<bv8>

  /** No element occurs twice. */
  predicate Distinct(q: seq<nat>) {
    forall a: nat, b: nat :: a < b < |q| ==> q[a] != q[b]
  }
}
