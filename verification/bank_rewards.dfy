/** The rewards action group: the reward items stored under the sender's number. */
module BankRewards {
  import opened Outcomes
  import opened Dict
  import opened ActionGroups

  const ActionGroupName := "GetBankRewards"
  const TaggedActionGroupName := "<GetBankRewards>"
  const SenderParameter := "from_number"
  const RewardsPrefix := "REWARDS#"

  /** The two spellings of the action group the agent may use. */
  function Accepted(): set<string>
  {
    {ActionGroupName, TaggedActionGroupName}
  }

  /** `action_group_get_rewards`: the user is the last `from_number` given. */
  function GetRewards(params: seq<Param>, store: (string, string) -> seq<Dict>): (r: Run<Payload>)
    ensures r.result.Raised? <==> exists i :: 0 <= i < |params| && Faulty(params[i], SenderParameter)
    ensures r.result.Raised? ==> r.calls == []
    // The query result is returned as it is.
    ensures r.result.Ok? ==>
      var key := UserPartition(LastValue(params, SenderParameter, None));
      r == Run(Ok(Records(store(key, RewardsPrefix))), [Query(key, RewardsPrefix)])
  {
    match ScanParameter(params, SenderParameter, None)
    case Raised(err) => Run(Raised(err), [])
    case Ok(userId) =>
      var key := UserPartition(userId);
      Run(Ok(Records(store(key, RewardsPrefix))), [Query(key, RewardsPrefix)])
  }

  /** `lambda_handler`: exactly the two spellings are served. */
  function LambdaHandler(event: ActionEvent, store: (string, string) -> seq<Dict>): (r: Run<Envelope>)
    ensures event.actionGroup.Some? && event.actionGroup.value != ActionGroupName
            && event.actionGroup.value != TaggedActionGroupName ==>
      r.result.Raised? && r.calls == []
    ensures r.result.Ok? <==>
      && event.actionGroup.Some? && event.actionGroup.value in Accepted()
      && event.functionName.Some? && event.messageVersion.Some?
      && forall i :: 0 <= i < |event.parameters.GetOr([])| ==> !Faulty(event.parameters.GetOr([])[i], SenderParameter)
    ensures r.result.Ok? ==>
      var key := UserPartition(LastValue(event.parameters.GetOr([]), SenderParameter, None));
      && r.calls == [Query(key, RewardsPrefix)]
      && r.result.value == Envelope(event.actionGroup.value, event.functionName.value,
                                    Records(store(key, RewardsPrefix)), event.messageVersion.value)
  {
    Handle(event, Accepted(), params => GetRewards(params, store))
  }

  /** Both spellings are handled identically apart from the echoed name. */
  lemma SpellingsAgree(event: ActionEvent, store: (string, string) -> seq<Dict>)
    requires event.actionGroup == Some(ActionGroupName)
    ensures var tagged := LambdaHandler(event.(actionGroup := Some(TaggedActionGroupName)), store);
            var plain := LambdaHandler(event, store);
            && tagged.calls == plain.calls
            && tagged.result.Ok? == plain.result.Ok?
            && (plain.result.Ok? ==> tagged.result.value == plain.result.value.(actionGroup := TaggedActionGroupName))
  {
  }
}
