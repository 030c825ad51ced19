/** The optional value used for JavaScript's `undefined` (an unset environment
    variable, a missing header or query parameter, a missing array element)
    and for the NaN result of a numeric conversion. */
module Wrappers {

  datatype Option<+T> = None | Some(value: T)
}
