/** How a call in the lowering engine ends: with a value, or with one of the
    Python exceptions the code can raise. Nothing in the engine catches an
    exception, so whatever state was changed before the raise stays changed. */
module Outcomes {

  datatype Option<+T> = None | Some(value: T)

  /** The exceptions the engine can raise on its own:
      - KeyError: an identifier that is not a carrier of the operator;
      - AttributeError: `None` (an unsupported expression) used as a carrier;
      - IndexError: a syntax node with fewer children than the code indexes. */
  datatype Exception = KeyError(key: string) | AttributeError | IndexError

  datatype Outcome<+T> = Normal(value: T) | Raised(exc: Exception)
}
