/** The optional-value datatype shared by the model: `None` stands for a
    missing field or an operation that threw, `Some` for a present value. */
module Wrappers {

  datatype Option<+T> = None | Some(value: T)
}
