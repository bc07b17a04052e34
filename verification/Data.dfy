/** The values every component shares: outcomes, bytes, chunks and hashes. */
module Data {

  datatype Option<+T> = None | Some(value: T)

  /** The outcome of an entry point: a value, or the error that reverts it. */
  datatype Result<+T, +E> = Ok(value: T) | Err(error: E) {
    predicate IsFailure() {
      Err?
    }

    function PropagateFailure<U>(): Result<U, E>
      requires Err?
    {
      Err(error)
    }

    function Extract(): T
      requires Ok?
    {
      value
    }
  }

  /** A guard: pass, or revert with an error. */
  datatype Guard<+E> = Pass | Revert(error: E) {
    predicate IsFailure() {
      Revert?
    }

    function PropagateFailure<U>(): Result<U, E>
      requires Revert?
    {
      Err(error)
    }
  }

  function Need<E>(condition: bool, error: E): Guard<E> {
    if condition then Pass else Revert(error)
  }

  newtype Byte = x: int | 0 <= x < 0x100

  const CHUNK_BYTES: nat := 31

  /** The protocol's only unit of data. */
  type Chunk = c: seq<Byte> | |c| == CHUNK_BYTES witness seq(CHUNK_BYTES, _ => 0)

  /**
   * A 32-byte word as the protocol sees it. Keccak with its domain tags is read as collision free: the
   * three tagged uses are distinct constructors, and `Word` stands for every word that is the hash of
   * nothing a party holds.
   */
  datatype Hash =
    | Leaf(chunk: Chunk)
    | Node(left: Hash, right: Hash)
    | Root(leafCount: nat, peaks: seq<Hash>)
    | Word(bits: nat)
}
