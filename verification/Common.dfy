/** Types every module of the model shares. */
module Common {

  datatype Option<+T> = None | Some(value: T)
}
