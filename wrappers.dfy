/** Optional values: JavaScript's `null` / missing / not-a-number inputs. */
module Wrappers {

  datatype Option<+T> = None | Some(value: T)
}
