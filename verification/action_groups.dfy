/** What the four action-group functions share: the parameter scan and the response
    envelope around an action's result. */
module ActionGroups {
  import opened Outcomes
  import opened Dict

  /** One parameter the agent passes; either key may be missing from its dictionary. */
  datatype Param = Param(name: Option<string>, value: Option<string>)

  /** The invocation event: `actionGroup`, `function`, `parameters`, `messageVersion`. */
  datatype ActionEvent = ActionEvent(actionGroup: Option<string>, functionName: Option<string>,
                                     parameters: Option<seq<Param>>, messageVersion: Option<string>)

  /** What an action returns: the items a store query found, or a text. */
  datatype Payload = Records(items: seq<Dict>) | Text(text: string)

  /** The response: the action group and function echoed back, the action's result as the
      text body, and the message version. */
  datatype Envelope = Envelope(actionGroup: string, functionName: string, body: Payload, messageVersion: string)

  /** The single-table partition key of a user: `f"USER#{user_id}"`. */
  function UserPartition(userId: Option<string>): string
  {
    "USER#" + Str(userId)
  }

  /** A parameter on which the scan for `name` raises: it has no name, or it is the one
      sought and has no value. */
  predicate Faulty(p: Param, name: string)
  {
    p.name.None? || (p.name == Some(name) && p.value.None?)
  }

  function FaultOf(p: Param): Failure
  {
    if p.name.None? then MissingKey("name") else MissingKey("value")
  }

  /** Reference definition read from the end: the value of the last parameter named
      `name`, or `initial` when there is none. */
  function LastValue(params: seq<Param>, name: string, initial: Option<string>): Option<string>
  {
    if |params| == 0 then initial
    else if params[|params| - 1].name == Some(name) then params[|params| - 1].value
    else LastValue(params[..|params| - 1], name, initial)
  }

  /** Reading one matching parameter first is the same as starting from its value. */
  lemma {:induction false} LastValueFront(params: seq<Param>, name: string, initial: Option<string>)
    requires |params| > 0
    ensures LastValue(params, name, initial)
         == LastValue(params[1..], name, if params[0].name == Some(name) then params[0].value else initial)
  {
    var next := if params[0].name == Some(name) then params[0].value else initial;
    if |params| == 1 {
      assert params[1..] == [];
      assert params[..0] == [];
    } else {
      var prefix := params[..|params| - 1];
      LastValueFront(prefix, name, initial);
      assert prefix[1..] == params[1..][..|params[1..]| - 1];
      assert params[1..][|params[1..]| - 1] == params[|params| - 1];
    }
  }

  /** The loop `for param in parameters: if param["name"] == name: x = param["value"]`,
      with `x` starting at `initial`. */
  function ScanParameter(params: seq<Param>, name: string, initial: Option<string>): (r: Result<Option<string>>)
    // It raises exactly when some parameter is faulty, and then on the first one.
    ensures r.Raised? <==> exists i :: 0 <= i < |params| && Faulty(params[i], name)
    ensures r.Raised? ==> exists i :: 0 <= i < |params| && Faulty(params[i], name) && r.error == FaultOf(params[i])
                                     && forall j :: 0 <= j < i ==> !Faulty(params[j], name)
    // Otherwise the last parameter of that name wins.
    ensures r.Ok? ==> r.value == LastValue(params, name, initial)
  {
    if |params| == 0 then Ok(initial)
    else
      var param := params[0];
      LastValueFront(params, name, initial);
      ShiftFaults(params, name);
      match param.name
      case None => Raised(MissingKey("name"))
      case Some(n) =>
        if n == name then
          match param.value
          case None => Raised(MissingKey("value"))
          case Some(v) => ScanParameter(params[1..], name, Some(v))
        else ScanParameter(params[1..], name, initial)
  }

  /** The faults of a list are those of its head and those of its tail, shifted by one. */
  lemma ShiftFaults(params: seq<Param>, name: string)
    requires |params| > 0
    ensures (exists i :: 0 <= i < |params| && Faulty(params[i], name))
        <==> Faulty(params[0], name) || exists i :: 0 <= i < |params[1..]| && Faulty(params[1..][i], name)
  {
    if exists i :: 0 <= i < |params| && Faulty(params[i], name) {
      var i :| 0 <= i < |params| && Faulty(params[i], name);
      if i > 0 {
        assert Faulty(params[1..][i - 1], name);
      }
    }
  }

  /** Parameters named otherwise are never looked at beyond their name. */
  lemma {:induction false} OtherNamesIgnored(params: seq<Param>, name: string, initial: Option<string>)
    requires forall i :: 0 <= i < |params| ==> params[i].name.Some? && params[i].name != Some(name)
    ensures ScanParameter(params, name, initial) == Ok(initial)
  {
    if |params| > 0 {
      OtherNamesIgnored(params[1..], name, initial);
    }
  }

  /** The common `lambda_handler`: `accepted` names the action groups the function serves
      and `action` is its action function applied to the parameters. */
  function Handle(event: ActionEvent, accepted: set<string>, action: seq<Param> -> Run<Payload>): (r: Run<Envelope>)
    // The keys are read in order, and nothing is called before the action group is accepted.
    ensures event.actionGroup.None? ==> r == Run(Raised(MissingKey("actionGroup")), [])
    ensures event.actionGroup.Some? && event.functionName.None? ==> r == Run(Raised(MissingKey("function")), [])
    ensures event.actionGroup.Some? && event.functionName.Some? && event.actionGroup.value !in accepted ==>
      r == Run(Raised(UnsupportedActionGroup(event.actionGroup.value)), [])
    // Once dispatched, the calls are the action's; missing parameters read as an empty list.
    ensures event.actionGroup.Some? && event.functionName.Some? && event.actionGroup.value in accepted ==>
      var run := action(event.parameters.GetOr([]));
      && r.calls == run.calls
      && (run.result.Raised? ==> r.result == Raised(run.result.error))
      && (run.result.Ok? && event.messageVersion.None? ==> r.result == Raised(MissingKey("messageVersion")))
    ensures r.result.Ok? <==>
      && event.actionGroup.Some? && event.functionName.Some? && event.actionGroup.value in accepted
      && action(event.parameters.GetOr([])).result.Ok? && event.messageVersion.Some?
    // The envelope echoes the request around the action's result.
    ensures r.result.Ok? ==>
      r.result.value == Envelope(event.actionGroup.value, event.functionName.value,
                                 action(event.parameters.GetOr([])).result.value, event.messageVersion.value)
  {
    match event.actionGroup
    case None => Run(Raised(MissingKey("actionGroup")), [])
    case Some(actionGroup) =>
      match event.functionName
      case None => Run(Raised(MissingKey("function")), [])
      case Some(functionName) =>
        var parameters := event.parameters.GetOr([]);
        if actionGroup !in accepted then Run(Raised(UnsupportedActionGroup(actionGroup)), [])
        else
          var run := action(parameters);
          match run.result
          case Raised(err) => Run(Raised(err), run.calls)
          case Ok(results) =>
            match event.messageVersion
            case None => Run(Raised(MissingKey("messageVersion")), run.calls)
            case Some(version) => Run(Ok(Envelope(actionGroup, functionName, results, version)), run.calls)
  }
}
