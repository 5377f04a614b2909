/** Result and option values shared by every module. A raised contract error is a Failure carrying its message. */
module Common {

  datatype Option<+T> = None | Some(value: T)

  datatype Result<+T> = Success(value: T) | Failure(error: string)
}
