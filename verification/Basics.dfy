/** Names shared by the models of the kernel: thread and task identifiers, and optional values. */
module Basics {

  type Tid = nat
  type Pid = nat

  datatype Option<T> = None | Some(value: T)
}
