/** A value that may be absent: a JavaScript `undefined` coordinate, a missing
    attribute, a direction not yet recorded. */
module Options {

  datatype Option<+T> = None | Some(value: T)
}
