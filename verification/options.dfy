/** An optional value: a sensor sample that may be missing, or a name not yet captured. */
module Options {

  datatype Option<+T> = None | Some(value: T)

}
