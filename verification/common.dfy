/** Values shared by the modules. */
module Common {

  /** An optional value, standing for JavaScript's `null`/`undefined`. */
  datatype Option<T> = None | Some(value: T)

  /** An environment object such as `process.env`: variable names to values. */
  type Env = map<string, string>
}
