/** The optional value used for the dashboard's nullable cells. */
module Wrappers {

  /** A cell that is either missing (pandas NaN / NaT) or holds a value. */
  datatype Option<+T> = None | Some(value: T) {

    /** The value inside, or `default` when the cell is missing. */
    function GetOr(default: T): T {
      match this
      case Some(v) => v
      case None => default
    }
  }
}
