/** Optional values: a field that pandas leaves as NaN / NaT is `None`. */
module Wrappers {

  datatype Option<+T> = None | Some(value: T)

}
