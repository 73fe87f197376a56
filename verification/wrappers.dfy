/** A nullable reference of the editor (a track's child list, its clip
    array, what the track factory hands back) is an `Option` here. */
module Wrappers {

  datatype Option<+T> = None | Some(value: T) {

    /** The held value, or `default` when there is none. */
    function GetOr(default: T): T
    {
      match this
      case Some(v) => v
      case None => default
    }
  }
}
