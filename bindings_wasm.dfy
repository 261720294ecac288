/** The error type the WebAssembly bindings hand to their callers, and its constructors. */
module BindingsWasm {
  import opened Wrappers
  import ErrorChain
  import StorageErrors
  import ClientErrors
  import GroupErrors

  /**
   * GenericError of the WebAssembly bindings, which has fewer variants than that of the
   * foreign-function bindings. Errors of crates outside this model are carried by their
   * displayed text.
   */
  datatype GenericError =
    | Client(client: ClientErrors.ClientError)
    | ClientBuilder(message: string)
    | Storage(storage: StorageErrors.StorageError)
    | ApiError(message: string)
    | GroupError(group: GroupErrors.GroupError)
    | Signature(message: string)
    | GroupMetadata(message: string)
    | Generic(err: string)

  /** `From<String>`: the string, unchanged, as a Generic error. */
  function FromString(err: string): (r: GenericError)
    ensures r.Generic? && r.err == err
  {
    Generic(err)
  }

  /** The text a Generic error carries. */
  function GenericText(e: GenericError): Option<string>
  {
    if e.Generic? then Some(e.err) else None
  }

  /** `GenericError::from_error`: a Generic error carrying the stringified chain. */
  method FromError(err: ErrorChain.ErrorValue) returns (r: GenericError)
    ensures r == FromString(ErrorChain.ChainText(err))
    ensures GenericText(r) == Some(ErrorChain.ChainText(err))
  {
    var text := ErrorChain.StringifyErrorChain(err);
    r := Generic(text);
  }

  /** Converting a string and reading the Generic text back gives the string; only Generic errors carry one. */
  lemma FromStringRoundTrip(err: string, e: GenericError)
    ensures GenericText(FromString(err)) == Some(err)
    ensures GenericText(e).Some? <==> e.Generic?
  {
  }
}
