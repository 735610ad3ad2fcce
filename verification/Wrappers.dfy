/** The result types shared by every module. */
module Wrappers {

  datatype Option<+T> = None | Some(value: T)

  /**
   What a call comes to: a value, a refusal, or an access outside a table or a block, after which
   C says nothing.
   */
  datatype Outcome<+T> = Done(value: T) | Failed | Stray
}
