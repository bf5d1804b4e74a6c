/** Optional values and fallible results, used for the parts of the note
    manager that can fail (an unparseable date, invalid note data). */
module Wrappers {

  datatype Option<+T> = None | Some(value: T)

  datatype Result<+T, +E> = Ok(value: T) | Err(error: E)
}
