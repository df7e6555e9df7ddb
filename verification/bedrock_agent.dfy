/** The agent invoker: reads the agent identifiers from the parameter store, opens a new
    agent session and gathers the streamed completion into one text. */
module BedrockAgent {
  import opened Outcomes
  import opened Text

  /** One event of the completion stream: a chunk whose bytes decode to `text`, or an
      event that carries no chunk bytes (reading them raises). */
  datatype StreamEvent = Chunk(text: string) | NoChunk

  /** The runtime's answer to `invoke_agent`: it raises, or it answers with an optional
      completion stream. */
  datatype InvokeResponse = InvokeRaised | Answer(completion: Option<seq<StreamEvent>>)

  datatype AgentRequest = AgentRequest(agentAliasId: string, agentId: string, sessionId: string,
                                       inputText: string, enableTrace: bool)

  /** What one invocation sent (if it got that far) and what it returned. */
  datatype AgentRun = AgentRun(request: Option<AgentRequest>, result: Result<string>)

  function AliasParameterName(environment: Option<string>): string
  {
    "/" + Str(environment) + "/rufus-bank/bedrock-agent-alias-id-full-string"
  }

  function AgentIdParameterName(environment: Option<string>): string
  {
    "/" + Str(environment) + "/rufus-bank/bedrock-agent-id"
  }

  /** `a + b + ...` over a list of texts. */
  function Concat(texts: seq<string>): string
  {
    if |texts| == 0 then "" else texts[0] + Concat(texts[1..])
  }

  lemma {:induction false} ConcatSnoc(texts: seq<string>, t: string)
    ensures Concat(texts + [t]) == Concat(texts) + t
  {
    if |texts| > 0 {
      ConcatSnoc(texts[1..], t);
      assert (texts + [t])[1..] == texts[1..] + [t];
    } else {
      assert texts + [t] == [t];
    }
  }

  function TextOf(ev: StreamEvent): string
  {
    if ev.Chunk? then ev.text else ""
  }

  /** The loop `text_response += chunk.get("bytes").decode()` over the stream, in order:
      the concatenation of all chunk texts, or a failure at the first event without one. */
  function CollectChunks(events: seq<StreamEvent>): (r: Result<string>)
    ensures r.Ok? <==> forall i :: 0 <= i < |events| ==> events[i].Chunk?
    ensures r.Raised? ==> r.error == MissingChunk
    ensures r.Ok? ==> r.value == Concat(seq(|events|, i requires 0 <= i < |events| => TextOf(events[i])))
  {
    if |events| == 0 then Ok("")
    else
      var prefix := events[..|events| - 1];
      var last := events[|events| - 1];
      var texts := seq(|prefix|, i requires 0 <= i < |prefix| => TextOf(prefix[i]));
      assert seq(|events|, i requires 0 <= i < |events| => TextOf(events[i])) == texts + [TextOf(last)];
      ConcatSnoc(texts, TextOf(last));
      match CollectChunks(prefix)
      case Raised(err) => Raised(err)
      case Ok(soFar) => if last.Chunk? then Ok(soFar + last.text) else Raised(MissingChunk)
  }

  /** `call_bedrock_agent`. `ssm` answers a parameter lookup (None: the lookup raises),
      `freshSessionId` is the newly generated session id and `invoke` the runtime's answer
      to a request. Nothing is caught: every failure propagates. */
  function CallBedrockAgent(environment: Option<string>, ssm: string -> Option<string>,
                            freshSessionId: string, inputText: string, sessionHint: Option<string>,
                            invoke: AgentRequest -> InvokeResponse): (r: AgentRun)
    ensures ssm(AliasParameterName(environment)).None? || ssm(AgentIdParameterName(environment)).None?
            <==> r.request.None?
    ensures r.request.None? ==> r.result == Raised(ServiceError)
    // The alias is the part after the last '|' of the stored text, the whole text without one.
    ensures r.request.Some? ==>
      var stored := ssm(AliasParameterName(environment)).value;
      var alias := r.request.value.agentAliasId;
      && '|' !in alias
      && |alias| <= |stored| && stored[|stored| - |alias|..] == alias
      && ('|' !in stored ==> alias == stored)
      && ('|' in stored ==> stored[|stored| - |alias| - 1] == '|')
    ensures r.request.Some? ==>
      r.request.value.agentId == ssm(AgentIdParameterName(environment)).value
    // The session is always the fresh one: the hint is not used.
    ensures r.request.Some? ==> r.request.value.sessionId == freshSessionId
    ensures r.request.Some? ==> r.request.value.inputText == inputText
    ensures r.request.Some? && invoke(r.request.value).InvokeRaised? ==> r.result == Raised(ServiceError)
    ensures r.request.Some? && invoke(r.request.value) == Answer(None) ==> r.result == Ok("")
    ensures r.request.Some? && invoke(r.request.value).Answer? && invoke(r.request.value).completion.Some? ==>
      r.result == CollectChunks(invoke(r.request.value).completion.value)
  {
    match ssm(AliasParameterName(environment))
    case None => AgentRun(None, Raised(ServiceError))
    case Some(fullAlias) =>
      var aliasId := LastSegment(fullAlias, '|');
      match ssm(AgentIdParameterName(environment))
      case None => AgentRun(None, Raised(ServiceError))
      case Some(agentId) =>
        var sessionId := freshSessionId;
        var request := AgentRequest(aliasId, agentId, sessionId, inputText, false);
        match invoke(request)
        case InvokeRaised => AgentRun(Some(request), Raised(ServiceError))
        case Answer(None) => AgentRun(Some(request), Ok(""))
        case Answer(Some(stream)) => AgentRun(Some(request), CollectChunks(stream))
  }

  /** Two calls that differ only in the session hint behave identically. */
  lemma SessionHintIgnored(environment: Option<string>, ssm: string -> Option<string>,
                           freshSessionId: string, inputText: string, h1: Option<string>, h2: Option<string>,
                           invoke: AgentRequest -> InvokeResponse)
    ensures CallBedrockAgent(environment, ssm, freshSessionId, inputText, h1, invoke)
         == CallBedrockAgent(environment, ssm, freshSessionId, inputText, h2, invoke)
  {
  }
}
