/** The usual optional-value datatype: `None` stands for an absent URL
    parameter or for a `NaN` coming out of a number parse. */
module Wrappers {

  datatype Option<+T> = None | Some(value: T)

}
