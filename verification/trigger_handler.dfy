/** The handler of the session table's change feed: for every record that is not a
    removal, in order, it sends the follow-up message; the first failure stops the batch
    and is re-raised. */
module AuthTriggerHandler {
  import opened Outcomes
  import opened WhatsAppHelper

  /** The send that `trigger_response` makes for a deliverable record. */
  function Notice(record: StreamRecord): Call
    requires Deliverable(record.newImage)
  {
    SendText(Recipient(record.newImage["PK"]), AuthenticatedText)
  }

  predicate Skipped(record: StreamRecord)
  {
    record.eventName == Remove
  }

  /** A record the handler gets past: a removal, or one with a usable partition key. */
  predicate Accepted(record: StreamRecord)
  {
    Skipped(record) || Deliverable(record.newImage)
  }

  /** The position of the first record that is not accepted, or the length of the batch
      when there is none. */
  function FirstRejected(records: seq<StreamRecord>): (k: nat)
    ensures k <= |records|
  {
    if |records| == 0 then 0
    else if !Accepted(records[0]) then 0
    else 1 + FirstRejected(records[1..])
  }

  /** FirstRejected finds the first record that is not accepted. */
  lemma {:induction false} FirstRejectedIsFirst(records: seq<StreamRecord>)
    ensures forall i :: 0 <= i < FirstRejected(records) ==> Accepted(records[i])
    ensures FirstRejected(records) < |records| ==> !Accepted(records[FirstRejected(records)])
  {
    if |records| > 0 && Accepted(records[0]) {
      FirstRejectedIsFirst(records[1..]);
      forall i | 1 <= i < FirstRejected(records)
        ensures Accepted(records[i])
      {
        assert records[i] == records[1..][i - 1];
      }
    }
  }

  /** The sends of a run of records: one notice per deliverable record that is not a
      removal, in record order. */
  function Notices(records: seq<StreamRecord>): seq<Call>
  {
    if |records| == 0 then []
    else
      var record := records[0];
      (if !Skipped(record) && Deliverable(record.newImage) then [Notice(record)] else []) + Notices(records[1..])
  }

  /** `lambda_handler` together with `send_message_to_user`. */
  function LambdaHandler(records: seq<StreamRecord>, messenger: (Option<string>, string) -> SendResponse): (r: Run<NoValue>)
    // The batch succeeds exactly when every record is a removal or deliverable, and then
    // one notice has gone out per record that is not a removal, in order.
    ensures r.result.Ok? <==> forall i :: 0 <= i < |records| ==> Accepted(records[i])
    ensures r.result.Ok? ==> r.calls == Notices(records)
  {
    if |records| == 0 then Run(Ok(()), [])
    else
      var record := records[0];
      if Skipped(record) then
        AcceptedHead(records);
        LambdaHandler(records[1..], messenger)
      else
        var first := TriggerResponse(record, messenger);
        if first.result.Raised? then
          Run(Raised(first.result.error), first.calls)
        else
          AcceptedHead(records);
          var rest := LambdaHandler(records[1..], messenger);
          Run(rest.result, first.calls + rest.calls)
  }

  /** With an accepted head, the whole batch is accepted exactly when its tail is. */
  lemma AcceptedHead(records: seq<StreamRecord>)
    requires |records| > 0 && Accepted(records[0])
    ensures (forall i :: 0 <= i < |records| ==> Accepted(records[i]))
        <==> forall i :: 0 <= i < |records[1..]| ==> Accepted(records[1..][i])
  {
    if forall i :: 0 <= i < |records[1..]| ==> Accepted(records[1..][i]) {
      forall i | 1 <= i < |records| ensures Accepted(records[i]) {
        assert records[i] == records[1..][i - 1];
      }
    }
  }

  /** A batch with a rejected record fails with that record's exception, after the
      notices of the records before it and none after. */
  lemma {:induction false} StopsAtFirstRejection(records: seq<StreamRecord>,
                                                 messenger: (Option<string>, string) -> SendResponse)
    requires FirstRejected(records) < |records|
    ensures var k := FirstRejected(records);
      LambdaHandler(records, messenger) == Run(Raised(Rejection(records[k].newImage)), Notices(records[..k]))
  {
    var record := records[0];
    if Accepted(record) {
      StopsAtFirstRejection(records[1..], messenger);
      var k := FirstRejected(records[1..]);
      assert records[..k + 1][1..] == records[1..][..k];
      assert records[1..][k] == records[k + 1];
    } else {
      assert records[..0] == [];
    }
  }

  /** A removal record anywhere in the batch changes nothing: it is neither sent to nor
      able to fail. */
  lemma {:induction false} RemovalsAreInert(before: seq<StreamRecord>, removal: StreamRecord,
                                            after: seq<StreamRecord>,
                                            messenger: (Option<string>, string) -> SendResponse)
    requires removal.eventName == Remove
    ensures LambdaHandler(before + [removal] + after, messenger) == LambdaHandler(before + after, messenger)
  {
    if |before| > 0 {
      RemovalsAreInert(before[1..], removal, after, messenger);
      var withRemoval, without := before + [removal] + after, before + after;
      assert withRemoval[0] == without[0] == before[0];
      assert withRemoval[1..] == before[1..] + [removal] + after;
      assert without[1..] == before[1..] + after;
    } else {
      var batch := before + [removal] + after;
      assert batch[0] == removal && batch[1..] == after == before + after;
    }
  }
}
