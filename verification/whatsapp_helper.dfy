/** The follow-up message sent once a user has authenticated: the recipient is read from
    the session record's partition key `USER#<number>`. */
module WhatsAppHelper {
  import opened Outcomes
  import opened Text

  /** The kind of change a change-feed record reports. */
  datatype EventName = Insert | Modify | Remove

  /** A change-feed record of the session table, with its new image deserialized. */
  datatype StreamRecord = StreamRecord(eventId: string, eventName: EventName, newImage: map<string, string>)

  const AuthenticatedText := "Te autenticaste exitosamente con Ruffy. ¿Cómo puedo apoyarte hoy?"
  const Processed := "Auth success processed OK!"

  /** `pk.split("#")[1].replace("+", "")`; None where the indexing raises. */
  function Recipient(pk: string): (r: Option<string>)
    ensures r.Some? <==> '#' in pk
    ensures r.Some? ==> '+' !in r.value && '#' !in r.value
    ensures r.Some? ==> r.value == RemoveAll(SecondSegment(pk, '#').value, '+')
  {
    match SecondSegment(pk, '#')
    case Some(number) => Some(RemoveAll(number, '+'))
    case None => None
  }

  /** The recipient of a well-formed key is its text after the first '#', up to any
      further '#', with every '+' dropped. */
  lemma RecipientOfUserKey(number: string)
    requires '#' !in number
    ensures Recipient("USER#" + number) == Some(RemoveAll(number, '+'))
  {
    var pk := "USER#" + number;
    assert pk[4] == '#';
    var parts := ["USER", number];
    assert Join(parts, '#') == pk;
    SplitJoin(parts, '#');
  }

  /** A record whose new image has a partition key with at least one '#'. */
  predicate Deliverable(image: map<string, string>)
  {
    "PK" in image && '#' in image["PK"]
  }

  /** What `trigger_response` raises on an image that is not deliverable. */
  function Rejection(image: map<string, string>): Failure
  {
    if "PK" !in image then MissingKey("PK") else IndexOutOfRange
  }

  /** `trigger_response`. `messenger` is the messaging API's reply to a text; an error in
      it is logged and otherwise ignored. */
  function TriggerResponse(record: StreamRecord, messenger: (Option<string>, string) -> SendResponse): (r: Run<string>)
    // A missing or '#'-less partition key raises (and is re-raised) before anything is sent.
    ensures !Deliverable(record.newImage) ==> r == Run(Raised(Rejection(record.newImage)), [])
    ensures "PK" !in record.newImage ==> r.result == Raised(MissingKey("PK"))
    // Otherwise the fixed text goes to the recipient, and the step reports success
    // whether or not the send reported an error.
    ensures Deliverable(record.newImage) ==>
      r == Run(Ok(Processed), [SendText(Recipient(record.newImage["PK"]), AuthenticatedText)])
    ensures Deliverable(record.newImage) && messenger(Recipient(record.newImage["PK"]), AuthenticatedText).HasError()
            ==> r.result == Ok(Processed)
  {
    if "PK" !in record.newImage then Run(Raised(MissingKey("PK")), [])
    else
      var pkString := record.newImage["PK"];
      match Recipient(pkString)
      case None => Run(Raised(IndexOutOfRange), [])
      case Some(fromMessage) =>
        var response := messenger(Some(fromMessage), AuthenticatedText);
        Run(Ok(Processed), [SendText(Some(fromMessage), AuthenticatedText)])
  }

  /** A number written with a leading '+' reaches the same recipient as without it. */
  lemma LeadingPlusDropped(number: string)
    requires '#' !in number && '+' !in number
    ensures Recipient("USER#" + number) == Some(number)
    ensures Recipient("USER#+" + number) == Some(number)
  {
    RecipientOfUserKey(number);
    assert "USER#+" + number == "USER#" + (['+'] + number);
    RecipientOfUserKey(['+'] + number);
    RemoveAllConcat(['+'], number, '+');
  }

  /** The correlation id is read with a default and only logged: an image without one is
      handled exactly like the same image with one. */
  lemma CorrelationIdOptional(record: StreamRecord, messenger: (Option<string>, string) -> SendResponse)
    ensures TriggerResponse(record.(newImage := record.newImage - {"correlation_id"}), messenger)
         == TriggerResponse(record, messenger)
  {
    var stripped := record.newImage - {"correlation_id"};
    assert "PK" in stripped <==> "PK" in record.newImage;
    if "PK" in stripped {
      assert stripped["PK"] == record.newImage["PK"];
    }
  }
}
