/** The optional-value datatype used across the model: a Python `None`, a
    missing dictionary key, or a DOM query that found nothing. */
module Wrappers {

  datatype Option<+T> = None | Some(value: T)
}
