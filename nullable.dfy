/** A C# nullable reference (`string?`, `byte[]?`, `AdressEntity?`): absent or present. */
module Nullable {

  datatype Option<+T> = None | Some(value: T)
}
