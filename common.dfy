/** Small wrapper shared by every module of the voting bot model. */
module Common {

  /** A value that may be absent: the empty result set of a lookup query, or
      a missing entry of the pending-selection map. */
  datatype Option<+T> = None | Some(value: T)
}
