/** Reading a ring of cells from some cell on, shared by the queue and the stream buffer. */
module Rings {

  /** Going on from an index by at most the length of the ring: one conditional subtraction. */
  function Wrap(length: nat, k: nat): nat
    requires k < 2 * length
  {
    if k < length then k else k - length
  }

  /** The count entries from first on. */
  function Around<T>(ring: seq<T>, first: nat, count: nat): (r: seq<T>)
    requires first < |ring| && count <= |ring|
    ensures |r| == count
  {
    seq(count, i requires 0 <= i < count => ring[Wrap(|ring|, first + i)])
  }
}
