/** Small vocabulary shared by every module. */
module Prelude {
  datatype Option<+T> = None | Some(value: T)

  type UserId = nat
  type MasterId = nat
  type CategoryId = nat
}
