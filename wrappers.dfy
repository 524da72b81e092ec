/** The optional result used where the simulator reports "no value" (a payback that never happens). */
module Wrappers {

  datatype Option<+T> = None | Some(value: T)
}
