/** Optional values, for the absent JSON field, the missing separator and the
    validation that found nothing wrong. */
module Wrappers {
  datatype Option<+T> = None | Some(value: T)
}
