/** Optional values: stand-ins for the component's nullable fields (a record without a
    category, no record selected for the details dialog, a date that does not parse). */
module Wrappers {

  datatype Option<+T> = None | Some(value: T)
}
