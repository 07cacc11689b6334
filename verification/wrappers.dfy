/** The optional value used across the model. `None` stands either for Python's
    `None` or, where a function's doc comment says so, for "the Python code
    raises an exception here". */
module Wrappers {

  datatype Option<+T> = None | Some(value: T)

}
