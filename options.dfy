/** Optional values, used for "no result" outcomes throughout the model. */
module Options {

  datatype Option<+T> = None | Some(value: T)
}
