/** The optional value used for the picker's two date slots (JavaScript `null`)
    and for the chart plugin's optional settings (`undefined`). */
module Wrappers {

  datatype Option<+T> = None | Some(value: T) {

    /** `x ?? fallback` */
    function GetOr(fallback: T): T {
      match this
      case Some(v) => v
      case None => fallback
    }
  }
}
