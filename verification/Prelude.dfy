/** Small vocabulary shared by the modules. */
module Prelude {
  type byte = b: int | 0 <= b < 256

  const U64: nat := 0x1_0000_0000_0000_0000

  datatype Option<T> = None | Some(value: T)

  ghost predicate Distinct<T>(xs: seq<T>) {
    forall i, j | 0 <= i < j < |xs| :: xs[i] != xs[j]
  }

  /** Removing position `i` by moving the last item into it. */
  function SwapDelete<T>(xs: seq<T>, i: nat): seq<T>
    requires i < |xs|
  {
    xs[i := xs[|xs| - 1]][..|xs| - 1]
  }
}
