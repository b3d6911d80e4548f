/** Small datatypes and sequence facts shared by the other modules. */
module Base {

  datatype Option<+T> = None | Some(value: T)

  datatype Result<+T, +E> = Ok(value: T) | Err(error: E)

  /** One stored or transmitted octet. */
  type byte = x: int | 0 <= x < 256

  /** Go's `min` on int64. */
  function Min(a: int, b: int): int {
    if a <= b then a else b
  }

  /** Go's `max` on int64 and time.Duration. */
  function Max(a: int, b: int): int {
    if a >= b then a else b
  }

  /** A fold over a stream of bytes: how every checksum of the engine is fed. */
  function Fold<S>(step: (S, byte) -> S, s: S, data: seq<byte>): S
    decreases |data|
  {
    if data == [] then s else Fold(step, step(s, data[0]), data[1..])
  }

  /** Feeding a stream piece by piece leaves the sum the whole stream leaves. */
  lemma {:induction false} FoldConcat<S>(step: (S, byte) -> S, s: S, a: seq<byte>, b: seq<byte>)
    ensures Fold(step, s, a + b) == Fold(step, Fold(step, s, a), b)
    decreases |a|
  {
    if a == [] {
      assert a + b == b;
    } else {
      assert (a + b)[1..] == a[1..] + b;
      FoldConcat(step, step(s, a[0]), a[1..], b);
    }
  }

  lemma Associates<T>(x: seq<T>, y: seq<T>, z: seq<T>)
    ensures x + (y + z) == x + y + z
  {
  }

  lemma SubsetSize<T>(a: set<T>, b: set<T>)
    requires a <= b
    ensures |a| <= |b| && (|a| == |b| ==> a == b)
  {
    assert b == a + (b - a);
    assert |b| == |a| + |b - a|;
  }
}
