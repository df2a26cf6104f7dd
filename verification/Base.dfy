/** Result and option types shared by the whole model (include/dage/result.hpp). */
module Base {

  datatype Option<+T> = None | Some(value: T)

  /** Success carries a value, failure carries an error code. */
  datatype Result<+T, +E> = Success(value: T) | Failure(error: E)

  const U64 := 0x1_0000_0000_0000_0000
}
