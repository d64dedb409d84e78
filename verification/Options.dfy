// The optional value of C++ and Python, used by every component.
module Options {

  datatype Option<+T> = None | Some(value: T)
}
