/** Stand-in for the repository's `Option<T>` (`OptionHelpers.Some` / `None`),
    whose source is not part of this model: a value that is present or not. */
module Options {

  datatype Option<+T> = None | Some(value: T)
}
