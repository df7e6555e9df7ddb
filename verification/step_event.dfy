/** The event the state-machine steps pass along: the change-feed record that started
    the turn (under "input") and the top-level fields the steps add as they go. */
module StepEvent {
  import opened Outcomes

  /** A stored attribute in change-feed wire form: type descriptor ("S", "N", ...) to text. */
  type AttributeValue = map<string, string>
  type Image = map<string, AttributeValue>

  datatype Change = Change(newImage: Option<Image>)             // "dynamodb" -> "NewImage"
  datatype StreamInput = StreamInput(dynamodb: Option<Change>)  // "input" -> "dynamodb"

  /** Each level of `input.dynamodb.NewImage` may be missing. `fields` holds every other
      top-level key of the event. */
  datatype Event = Event(input: Option<StreamInput>, fields: map<string, string>)

  const CorrelationIdField := "correlation_id"
  const MessageTypeField := "message_type"
  const ResponseMessageField := "response_message"

  function NewImage(e: Event): Option<Image>
  {
    if e.input.Some? && e.input.value.dynamodb.Some? then e.input.value.dynamodb.value.newImage
    else None
  }

  /** `event.get("input", {}).get("dynamodb", {}).get("NewImage", {}).get(attr, {}).get("S")`:
      None when any level is missing. */
  function ReadString(e: Event, attr: string): (r: Option<string>)
    ensures r.Some? <==> NewImage(e).Some? && attr in NewImage(e).value && "S" in NewImage(e).value[attr]
    ensures r.Some? ==> r.value == NewImage(e).value[attr]["S"]
  {
    match NewImage(e)
    case Some(image) => if attr in image && "S" in image[attr] then Some(image[attr]["S"]) else None
    case None => None
  }

  /** `event[k] = v` for each entry of `added`, in any order. */
  function WithFields(e: Event, added: map<string, string>): Event
  {
    e.(fields := e.fields + added)
  }

  /** `after` is `before` with exactly the entries of `added` written and nothing else
      changed: the record under "input" and every other field keep their values. */
  ghost predicate Extends(before: Event, after: Event, added: map<string, string>)
  {
    && after.input == before.input
    && after.fields.Keys == before.fields.Keys + added.Keys
    && (forall k :: k in added ==> after.fields[k] == added[k])
    && (forall k :: k in before.fields && k !in added ==> after.fields[k] == before.fields[k])
  }

  /** Writing fields extends the event by exactly those fields. */
  lemma WithFieldsExtends(e: Event, added: map<string, string>)
    ensures Extends(e, WithFields(e, added), added)
  {
  }

  /** The extended event is determined by the original and the written fields. */
  lemma ExtendsUnique(e: Event, a: Event, b: Event, added: map<string, string>)
    requires Extends(e, a, added) && Extends(e, b, added)
    ensures a == b
  {
    assert a.fields == b.fields;
  }
}
