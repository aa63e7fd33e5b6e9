/** Optional values, used wherever the downloader works with something that may be absent
    (`None` in Python, a regular-expression search that found nothing, a parse that raised). */
module Wrappers {

  datatype Option<+T> = None | Some(value: T) {

    /** The value, or `default` when there is none. */
    function GetOr(default: T): T {
      match this
      case Some(v) => v
      case None => default
    }
  }
}
