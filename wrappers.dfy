/**
 Optional values. In a record or payload property `None` means the property
 is absent; in the pending delete id it means `null`.
 */
module Wrappers {

  datatype Option<+T> = None | Some(value: T)
}
