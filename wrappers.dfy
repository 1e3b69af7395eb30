/** Optional values, results and outcomes shared by every module of the model,
    and the Python exceptions the modelled code raises. */
module Wrappers {

  /** The exceptions raised by the modelled Python code. */
  datatype PyError =
    | ValueError      // a set-once link reassigned, or a duplicate mRID added
    | KeyError        // a lookup or removal of an absent member
    | TypeError       // `weakref.ref(None)`
    | AttributeError  // an attribute read through `None`
    | ZeroDivisionError

  /** Python's `None` / a present value. */
  datatype Option<+T> = None | Some(value: T)

  /** A value, or the exception raised instead of returning it. */
  datatype Result<+T> = Ok(value: T) | Err(error: PyError)

  /** A call that returns nothing, or the exception it raised. */
  datatype Outcome = Pass | Fail(error: PyError)
}
