/** Types every part of the model shares. */
module Common {
  datatype Option<+T> = None | Some(value: T)

  type Byte = b: int | 0 <= b < 256

  type Bytes = seq<Byte>

  const TWO_63: nat := 0x8000_0000_0000_0000
  const TWO_64: nat := 0x1_0000_0000_0000_0000

  predicate Uint64(n: int) { 0 <= n < TWO_64 }

  /** Unsigned 64-bit arithmetic. */
  function Wrap(n: int): (u: int)
    ensures Uint64(u) && (Uint64(n) ==> u == n)
  {
    if Uint64(n) then n else n % TWO_64
  }

  /** Go's conversion of a 64-bit uint to int. */
  function ToInt(u: nat): (i: int) {
    if u % TWO_64 < TWO_63 then u % TWO_64
    else u % TWO_64 - TWO_64
  }

  /** What the transaction caches use for a size or byte limit of 0. */
  const DEFAULT_CACHE_SIZE: nat := 2900
  const DEFAULT_MAX_TX_BYTES: nat := 65536
}
