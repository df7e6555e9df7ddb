/** The user-products action group: the products stored under the user the agent names. */
module UserProducts {
  import opened Outcomes
  import opened Dict
  import opened ActionGroups

  const ActionGroupName := "FetchUserProducts"
  const UserParameter := "user_id"
  const ProductPrefix := "PRODUCT#"

  /** `action_group_fetch_user_products`. `store` answers a query by partition key and
      sort-key prefix. */
  function FetchUserProducts(params: seq<Param>, store: (string, string) -> seq<Dict>): (r: Run<Payload>)
    // A malformed parameter list fails before the store is queried.
    ensures r.result.Raised? <==> exists i :: 0 <= i < |params| && Faulty(params[i], UserParameter)
    ensures r.result.Raised? ==> r.calls == []
    // Otherwise one query, for the last `user_id` given (the user "None" without one),
    // whose items are the result.
    ensures r.result.Ok? ==>
      var key := UserPartition(LastValue(params, UserParameter, None));
      r == Run(Ok(Records(store(key, ProductPrefix))), [Query(key, ProductPrefix)])
  {
    match ScanParameter(params, UserParameter, None)
    case Raised(err) => Run(Raised(err), [])
    case Ok(userId) =>
      var key := UserPartition(userId);
      Run(Ok(Records(store(key, ProductPrefix))), [Query(key, ProductPrefix)])
  }

  /** `lambda_handler`: only `FetchUserProducts` is served. */
  function LambdaHandler(event: ActionEvent, store: (string, string) -> seq<Dict>): (r: Run<Envelope>)
    ensures event.actionGroup.Some? && event.actionGroup.value != ActionGroupName ==>
      r.result.Raised? && r.calls == []
    ensures event.actionGroup == Some(ActionGroupName) && event.functionName.Some? ==>
      r.calls == FetchUserProducts(event.parameters.GetOr([]), store).calls
    ensures r.result.Ok? <==>
      && event.actionGroup == Some(ActionGroupName) && event.functionName.Some? && event.messageVersion.Some?
      && forall i :: 0 <= i < |event.parameters.GetOr([])| ==> !Faulty(event.parameters.GetOr([])[i], UserParameter)
    ensures r.result.Ok? ==>
      var key := UserPartition(LastValue(event.parameters.GetOr([]), UserParameter, None));
      r.result.value == Envelope(ActionGroupName, event.functionName.value, Records(store(key, ProductPrefix)),
                                 event.messageVersion.value)
  {
    Handle(event, {ActionGroupName}, params => FetchUserProducts(params, store))
  }

  /** The agent's schema for this action declares the parameter `from_number`, which the
      scan does not read: given only that, the query is for the user "None". */
  lemma DeclaredParameterIgnored(number: string, store: (string, string) -> seq<Dict>)
    ensures FetchUserProducts([Param(Some("from_number"), Some(number))], store).calls
         == [Query("USER#None", ProductPrefix)]
  {
    var params := [Param(Some("from_number"), Some(number))];
    OtherNamesIgnored(params, UserParameter, None);
    assert LastValue(params, UserParameter, None) == None by {
      assert params[..0] == [];
    }
    assert UserPartition(None) == "USER#None";
  }
}
