/** The optional value used wherever the scripts can produce `undefined` or
    `NaN` instead of a value (an unknown format, an empty series, an index
    past the end of the date list). */
module Wrappers {

  datatype Option<+T> = None | Some(value: T)
}
