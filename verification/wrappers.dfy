/** The conventional Some/None datatype, used for values that may be absent
    (a wire string that is not a status code, a listing that does not parse). */
module Wrappers {

  datatype Option<+T> = None | Some(value: T)
}
