/** Types that several of the models share. */
module Basics {

  datatype Option<+T> = None | Some(value: T)

  type Byte = n: nat | n < 256
}
