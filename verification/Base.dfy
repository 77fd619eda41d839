/** Vocabulary shared by the three services: identifiers, the 32-bit integers of the
    Kotlin service and of the INT columns, and the ways a database call can fail. */
module Base {

  datatype Option<+T> = None | Some(value: T)

  /** Row identifiers (UUID text in the services) are only ever compared for equality. */
  type Uuid = int

  const INT_MAX: int := 0x7FFF_FFFF
  const INT_MIN: int := -0x8000_0000

  predicate FitsInt(n: int) {
    INT_MIN <= n <= INT_MAX
  }

  /** What is left of `n` in a 32-bit two's-complement integer. */
  function WrapInt(n: int): (w: int)
    ensures FitsInt(w)
    ensures FitsInt(n) ==> w == n
    ensures (n - w) % 0x1_0000_0000 == 0
  {
    (n + 0x8000_0000) % 0x1_0000_0000 - 0x8000_0000
  }

  /** Where a transaction is struck by a storage error, if anywhere. */
  datatype Fault = NoFault | AtBegin | AtRow | AtOutbox | AtCommit
}
