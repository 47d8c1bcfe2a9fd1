/**
 * Failure-carrying results and the exceptions the rinse core raises.
 * Python exceptions become `Err(e)` values; the `Error` constructors name
 * the Python exception class (and, for ValueError, which of rinse's checks
 * raised it).
 */
module Base {

  datatype Option<+T> = None | Some(value: T)

  /** Python truthiness of an optional string argument: neither None nor "". */
  predicate Truthy(o: Option<string>)
  {
    o.Some? && o.value != ""
  }

  /** The three cross-field rules of WS-Addressing that rinse checks. */
  datatype AddressingRule =
    | ReplyToNeedsMessageId
    | FaultToNeedsMessageId
    | RelationshipTypeNeedsRelatesTo

  datatype Error =
    | NamespaceConflict(prefix: string, existing: string)  // ValueError from elementmaker
    | AddressingConstraint(rule: AddressingRule)           // ValueError from append_wsa_headers
    | KeyError(key: string)
    | IndexError                                           // `[0]` of an empty xpath result
    | TypeError                                            // lxml refusing an argument
    | AttributeError(name: string)
    | SchemaParseError                                     // etree.XMLSchema refusing a document
    | DocumentInvalid                                      // XMLSchema.assertValid failing

  datatype Result<+T> = Ok(value: T) | Err(error: Error)
  {
    predicate IsFailure() { Err? }

    function PropagateFailure<U>(): Result<U>
      requires Err?
    {
      Err(error)
    }

    function Extract(): T
      requires Ok?
    {
      value
    }
  }

  /** The result of a Python call made for its effect only: returns None or raises. */
  datatype Outcome = Pass | Fail(error: Error)
}
