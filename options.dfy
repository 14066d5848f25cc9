/** The conventional optional value: `None` stands for a missing object
    (a null pointer in the C++ code) or for a NaN floating-point result. */
module Options {

  datatype Option<+T> = None | Some(value: T)
}
