/** The optional value used for results that may be absent: a failed IP poll,
    an error text that does not parse. */
module Wrappers {

  datatype Option<+T> = None | Some(value: T)
}
