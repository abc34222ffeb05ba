/** Success and failure values shared by the model. */
module Wrappers {

  datatype Option<+T> = None | Some(value: T)

  /** Why an operation of the proxy raised instead of returning a value. */
  datatype ProxyError =
    | NoFrequencyMatch       // `re.search` found no current-frequency line: `m.group` on None raises
    | NoBoostMarker          // `re.search` found no boost-support block: `m.group` on None raises
    | NotAnInteger(text: string)  // `int(...)` of the helper's output raised ValueError

  datatype Result<+T> = Ok(value: T) | Err(error: ProxyError)

  /** The outcome of an operation that returns nothing when it succeeds. */
  datatype Outcome = Pass | Fail(error: ProxyError)
}
