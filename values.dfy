// ECMAScript language values as seen by the runtime parts of the model.

module Values {

  /**
   * A language value. Objects are addresses into a heap that the owning component
   * keeps; numbers are integers because floating-point arithmetic is not modelled.
   */
  datatype Value =
    | Undefined
    | Null
    | Bool(b: bool)
    | Number(n: int)
    | String(s: string)
    | Object(addr: nat)

  /** The errors the modelled operations throw. */
  datatype ErrorKind = ReferenceError | TypeError
}
