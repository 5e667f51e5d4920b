/** Optional values and the success-or-message outcome used for the plugin's usage errors. */
module Wrappers {

  /** A value that may be absent (Python's `None`). */
  datatype Option<+T> = None | Some(value: T)

  /** Either a value, or the message handed to `parser.error` / `nagios_exit`. */
  datatype Result<+T> = Ok(value: T) | Error(message: string)
}
