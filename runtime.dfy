/**
 * What the script takes from the Python runtime: `None`, the exceptions that escape it,
 * and the two parse functions `int()` and `float()`, which are left abstract.
 */
module Runtime {

  /** Python's `None` versus a value. */
  datatype Option<+T> = None | Some(value: T)

  /** The exceptions that the script does not catch and that therefore end the whole run. */
  datatype Fault =
    | IndexOutOfRange     // `lines[i + 1]` on a header line that is the last line of the file
    | ZeroSizeReduction   // `np.max` / `np.min` applied to a field with no values

  /** Either the value a call returns or the exception it raises. */
  datatype Outcome<+T> = Ok(value: T) | Raised(error: Fault)

  /** Python's `int(text)`: `None` where it raises `ValueError`. */
  type IntParser = string -> Option<int>

  /** Python's `float(text)`: `None` where it raises `ValueError`. */
  type FloatParser = string -> Option<real>
}
