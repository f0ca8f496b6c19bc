/** The optional value that process_command returns: None for a rejected command. */
module Wrappers {
  datatype Option<+T> = None | Some(value: T)
}
