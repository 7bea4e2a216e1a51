/** The optional value used throughout the model: `None` stands for a missing
    cell, a NaN or NaT produced by coercion, or a lookup that found nothing. */
module Wrappers {

  datatype Option<+T> = None | Some(value: T)
}
