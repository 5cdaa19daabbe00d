/** Result shapes shared by the extraction pipeline. */
module Wrappers {

  /** Python's `None` or a present value. */
  datatype Option<+T> = None | Some(value: T) {
    function GetOr(default: T): T {
      match this
      case Some(v) => v
      case None => default
    }
  }

  /** What calling a Python extractor does: it returns a value or `None`, or it raises. */
  datatype Call<+T> = Returns(result: Option<T>) | Raises
}
