/** The optional keyword arguments of the source (`size=None`, `scaleRatio=None`). */
module Options {

  datatype Option<+T> = None | Some(value: T)
}
