/** An optional value, used for the results of the readers in this model. */
module Optional {

  datatype Option<+T> = None | Some(value: T)
}
