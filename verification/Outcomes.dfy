/** Small result datatypes shared by the models. */
module Outcomes {

  datatype Option<+T> = None | Some(value: T)

  datatype Result<+T, +E> = Ok(value: T) | Err(error: E)

  /** The larger of zero and `n`: the effective size of a budget the source never checks for sign. */
  function Pos(n: int): nat {
    if n > 0 then n else 0
  }

  /** A count keeps within the effective size exactly if it keeps within the budget, or is zero. */
  lemma PosBounds(n: int, count: nat)
    ensures count <= Pos(n) <==> count <= n || count == 0
  {
  }
}
