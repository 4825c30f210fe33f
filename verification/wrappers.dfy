/** The optional-value datatype shared by the detector and image modules. */
module Wrappers {

  /** A value that may be absent: `null` / `undefined` on the script side. */
  datatype Option<+T> = None | Some(value: T)
}
