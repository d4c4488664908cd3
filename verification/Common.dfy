/** What several models share. */
module Common {
  datatype Option<T> = None | Some(value: T)

  /** The fate of a write to the API server: it may take effect although the caller is told it failed. */
  datatype WriteResult = Rejected | AppliedButLost | Applied

  function Pow2(n: nat): nat { if n == 0 then 1 else 2 * Pow2(n - 1) }

  function Min(a: int, b: int): int { if a < b then a else b }

  lemma {:induction false} SubsetSize<T>(a: set<T>, b: set<T>)
    requires a <= b
    ensures |a| <= |b|
  {
    assert b == a + (b - a);
  }
}
