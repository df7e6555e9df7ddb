/** The market-insights action group: the latest advice stored for a risk level. */
module MarketInsights {
  import opened Outcomes
  import opened Dict
  import opened ActionGroups

  const ActionGroupName := "FetchMarketInsights"
  const RiskParameter := "risk_level"
  const DefaultRiskLevel := "MODERATE"
  const AdvicePrefix := "ADVICE#LATEST#"

  function MarketPartition(riskLevel: Option<string>): string
  {
    "MARKET#" + Str(riskLevel)
  }

  /** `action_group_fetch_market_insights`: the risk level is the last `risk_level` given,
      `MODERATE` without one, and is used as it is. */
  function FetchMarketInsights(params: seq<Param>, store: (string, string) -> seq<Dict>): (r: Run<Payload>)
    ensures r.result.Raised? <==> exists i :: 0 <= i < |params| && Faulty(params[i], RiskParameter)
    ensures r.result.Raised? ==> r.calls == []
    ensures r.result.Ok? ==>
      var key := MarketPartition(LastValue(params, RiskParameter, Some(DefaultRiskLevel)));
      r == Run(Ok(Records(store(key, AdvicePrefix))), [Query(key, AdvicePrefix)])
  {
    match ScanParameter(params, RiskParameter, Some(DefaultRiskLevel))
    case Raised(err) => Run(Raised(err), [])
    case Ok(riskLevel) =>
      var key := MarketPartition(riskLevel);
      Run(Ok(Records(store(key, AdvicePrefix))), [Query(key, AdvicePrefix)])
  }

  /** `lambda_handler`: only `FetchMarketInsights` is served. */
  function LambdaHandler(event: ActionEvent, store: (string, string) -> seq<Dict>): (r: Run<Envelope>)
    ensures event.actionGroup.Some? && event.actionGroup.value != ActionGroupName ==>
      r.result.Raised? && r.calls == []
    ensures r.result.Ok? <==>
      && event.actionGroup == Some(ActionGroupName) && event.functionName.Some? && event.messageVersion.Some?
      && forall i :: 0 <= i < |event.parameters.GetOr([])| ==> !Faulty(event.parameters.GetOr([])[i], RiskParameter)
    ensures r.result.Ok? ==>
      var key := MarketPartition(LastValue(event.parameters.GetOr([]), RiskParameter, Some(DefaultRiskLevel)));
      && r.calls == [Query(key, AdvicePrefix)]
      && r.result.value == Envelope(ActionGroupName, event.functionName.value,
                                    Records(store(key, AdvicePrefix)), event.messageVersion.value)
  {
    Handle(event, {ActionGroupName}, params => FetchMarketInsights(params, store))
  }

  /** Any risk level text is queried verbatim; there is no fixed set of levels. */
  lemma {:induction false} RiskLevelVerbatim(others: seq<Param>, level: string, store: (string, string) -> seq<Dict>)
    requires forall i :: 0 <= i < |others| ==> others[i].name.Some? && others[i].name != Some(RiskParameter)
    ensures FetchMarketInsights(others + [Param(Some(RiskParameter), Some(level))], store).calls
         == [Query("MARKET#" + level, AdvicePrefix)]
  {
    var params := others + [Param(Some(RiskParameter), Some(level))];
    assert params[..|params| - 1] == others;
    assert forall i :: 0 <= i < |params| ==> !Faulty(params[i], RiskParameter) by {
      forall i | 0 <= i < |params|
        ensures !Faulty(params[i], RiskParameter)
      {
        if i < |others| {
          assert params[i] == others[i];
        }
      }
    }
  }

  /** Without a `risk_level` parameter the moderate advice is fetched. */
  lemma {:induction false} DefaultRisk(params: seq<Param>, store: (string, string) -> seq<Dict>)
    requires forall i :: 0 <= i < |params| ==> params[i].name.Some? && params[i].name != Some(RiskParameter)
    ensures FetchMarketInsights(params, store).calls == [Query("MARKET#MODERATE", AdvicePrefix)]
  {
    OtherNamesIgnored(params, RiskParameter, Some(DefaultRiskLevel));
    assert MarketPartition(Some(DefaultRiskLevel)) == "MARKET#MODERATE";
  }
}
