/** The first state-machine step: checks the message type, optionally checks that the
    sender has an active authenticated session, acknowledges the message and tags the
    event for the following steps. */
module ValidateMessage {
  import opened Outcomes
  import opened StepEvent

  const NotFoundMessageType := "NOT_FOUND_MESSAGE_TYPE"
  const UnauthorizedType := "unauthorized"
  const SessionSortKey := "AUTH"
  const AuthRedirect := "Buenos días! Gracias por comunicarte con Rufus Bank.\n Para proceder, debes autenticarte: - https://rufus-auth.san99tiago.com"
  const Acknowledgement := "Ruffy recibió tu mensaje (procesando)..."

  /** The message type of the record, or the sentinel when any level of the path is missing. */
  function MessageType(e: Event): (r: string)
    ensures ReadString(e, "type").Some? ==> r == NewImage(e).value["type"]["S"]
    ensures ReadString(e, "type").None? ==> r == NotFoundMessageType
  {
    ReadString(e, "type").GetOr(NotFoundMessageType)
  }

  /** The sender, as read on the authenticated path: Python None when missing. */
  function Sender(e: Event): Option<string>
  {
    ReadString(e, "from_number")
  }

  /** The AUTH_ENABLED setting (unset reads as "false"); only the exact text "true" enables. */
  predicate AuthEnabled(setting: Option<string>)
  {
    setting.GetOr("false") == "true"
  }

  lemma AuthEnabledExactly(setting: Option<string>)
    ensures AuthEnabled(setting) <==> setting == Some("true")
  {
  }

  /** The fields a successful validation writes: the correlation id and the message type,
      plus the redirect text when the sender has no session. */
  function Tags(correlationId: string, messageType: string, sessionActive: bool): map<string, string>
  {
    if sessionActive then
      map[CorrelationIdField := correlationId, MessageTypeField := messageType]
    else
      map[CorrelationIdField := correlationId, MessageTypeField := UnauthorizedType,
          ResponseMessageField := AuthRedirect]
  }

  /** `ValidateMessage.validate_input`. `allowed` is the set of accepted message types,
      `authSetting` the AUTH_ENABLED variable, `correlationId` the id the step carries,
      `sessionFound` whether the store returns a (truthy) item for a key, and `messenger`
      the messaging API's reply to a text sent to a recipient. */
  function ValidateInput(e: Event, allowed: set<string>, authSetting: Option<string>,
                         correlationId: string, sessionFound: (string, string) -> bool,
                         messenger: (Option<string>, string) -> SendResponse): (r: Run<Event>)
    // An unknown type fails before the store or the messaging API is called.
    ensures MessageType(e) !in allowed ==>
      r == Run(Raised(UnsupportedMessageType(MessageType(e))), [])
    // With auth disabled the sender is never read, so the acknowledgement cannot be sent.
    ensures MessageType(e) in allowed && !AuthEnabled(authSetting) ==>
      r == Run(Raised(UnboundName("phone_number")), [])
    // With auth enabled: one session lookup, then one acknowledgement, to the sender.
    ensures MessageType(e) in allowed && AuthEnabled(authSetting) ==>
      r.calls == [GetItem("USER#" + Str(Sender(e)), SessionSortKey), SendText(Sender(e), Acknowledgement)]
    ensures r.result.Ok? <==>
      MessageType(e) in allowed && AuthEnabled(authSetting)
      && !messenger(Sender(e), Acknowledgement).HasError()
    ensures (MessageType(e) in allowed && AuthEnabled(authSetting)
             && messenger(Sender(e), Acknowledgement).HasError()) ==> r.result == Raised(AckSendFailed)
    // On success only the tags are written; a missing session redirects without failing.
    ensures r.result.Ok? && sessionFound("USER#" + Str(Sender(e)), SessionSortKey) ==>
      Extends(e, r.result.value, map[CorrelationIdField := correlationId, MessageTypeField := MessageType(e)])
    ensures r.result.Ok? && !sessionFound("USER#" + Str(Sender(e)), SessionSortKey) ==>
      Extends(e, r.result.value, map[CorrelationIdField := correlationId, MessageTypeField := UnauthorizedType,
                                     ResponseMessageField := AuthRedirect])
  {
    var messageType := MessageType(e);
    if messageType !in allowed then
      Run(Raised(UnsupportedMessageType(messageType)), [])
    else if !AuthEnabled(authSetting) then
      Run(Raised(UnboundName("phone_number")), [])
    else
      var phoneNumber := Sender(e);
      var lookup := GetItem("USER#" + Str(phoneNumber), SessionSortKey);
      var active := sessionFound(lookup.partitionKey, lookup.sortKey);
      var calls := [lookup, SendText(phoneNumber, Acknowledgement)];
      if messenger(phoneNumber, Acknowledgement).HasError() then
        Run(Raised(AckSendFailed), calls)
      else
        var tags := Tags(correlationId, messageType, active);
        WithFieldsExtends(e, tags);
        Run(Ok(WithFields(e, tags)), calls)
  }
}
