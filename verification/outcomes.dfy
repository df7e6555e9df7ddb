/** Outcomes of a step: a value, or the Python exception the step raises.
    Also the calls a step makes to services it does not own (the key-value store,
    the messaging API, the object store), recorded in order so that contracts can
    say which calls happen before a failure. */
module Outcomes {

  datatype Option<+T> = None | Some(value: T) {
    function GetOr(default: T): T {
      match this
      case Some(v) => v
      case None => default
    }
  }

  /** The exceptions the modelled code raises or lets through. */
  datatype Failure =
    | UnsupportedMessageType(messageType: string)   // ValueError in the validator
    | UnsupportedActionGroup(actionGroup: string)   // ValueError in an action-group handler
    | AckSendFailed                                 // Exception raised after an erroneous acknowledgement
    | UnboundName(name: string)                     // UnboundLocalError: a local read before assignment
    | MissingKey(key: string)                       // KeyError from `d[key]`
    | IndexOutOfRange                               // IndexError from `parts[1]`
    | MissingChunk                                  // AttributeError on a stream event without a chunk
    | ServiceError                                  // an exception raised by an external service

  datatype Result<+T> = Ok(value: T) | Raised(error: Failure)

  /** Python's `str(x)` (and f-string rendering) of a value that is a string or None. */
  function Str(o: Option<string>): (r: string)
    ensures o.Some? ==> r == o.value
    ensures o.None? ==> r == "None"
  {
    match o
    case Some(s) => s
    case None => "None"
  }

  /** The keys of a messaging-API reply; the code only asks whether "error" is one of them. */
  datatype SendResponse = SendResponse(keys: set<string>) {
    predicate HasError() { "error" in keys }
  }

  /** One call to an external service, with the arguments it was given. */
  datatype Call =
    | GetItem(partitionKey: string, sortKey: string)
    | Query(partitionKey: string, sortKeyPrefix: string)
    | SendText(to: Option<string>, body: string)
    | SendDocument(recipient: string, url: string)
    | Upload(filePath: Option<string>, objectName: string)
    | AskAgent(inputText: string, sessionHint: Option<string>)

  /** The value of a step that returns Python's None. */
  type NoValue = ()

  /** What a step produced, together with the external calls it made, in order. */
  datatype Run<+T> = Run(result: Result<T>, calls: seq<Call>)
}
