/** The text-processing step: wraps the user's text in a fixed prompt and asks the agent,
    retrying on an empty answer up to four times in all. */
module ProcessText {
  import opened Outcomes
  import opened StepEvent
  import opened Text

  const DefaultText := "DEFAULT_RESPONSE"
  const MaxAttempts: nat := 4
  const Apology := "Rufus Bank tuvo un pequeño ruffy-problema. Por favor repite el mensaje..."

  const PromptHead := "<REQUEST>input: "
  const PromptMiddle := "\nfrom_number: "
  const PromptTail := "\nAnswer in same language as input. Use UTF-8 format.</REQUEST>"

  /** The text to answer, or the placeholder when any level of the path is missing. */
  function InputText(e: Event): (r: string)
    ensures ReadString(e, "text").Some? ==> r == NewImage(e).value["text"]["S"]
    ensures ReadString(e, "text").None? ==> r == DefaultText
  {
    ReadString(e, "text").GetOr(DefaultText)
  }

  /** The request the agent sees: the text and the sender's number inside fixed markers. */
  function Prompt(text: string, phoneNumber: Option<string>): (r: string)
    ensures |r| == |PromptHead| + |text| + |PromptMiddle| + |Str(phoneNumber)| + |PromptTail|
    ensures r[..|PromptHead|] == PromptHead
    ensures r[|PromptHead|..|PromptHead| + |text|] == text
    ensures r[|PromptHead| + |text|..|PromptHead| + |text| + |PromptMiddle|] == PromptMiddle
    ensures r[|r| - |PromptTail|..] == PromptTail
  {
    PromptHead + text + PromptMiddle + Str(phoneNumber) + PromptTail
  }

  /** For a fixed sender the prompt determines the text it was built from. */
  lemma PromptDeterminesText(t1: string, t2: string, phoneNumber: Option<string>)
    requires Prompt(t1, phoneNumber) == Prompt(t2, phoneNumber)
    ensures t1 == t2
  {
    var r := Prompt(t1, phoneNumber);
    assert |t1| == |t2|;
    assert t1 == r[|PromptHead|..|PromptHead| + |t1|] == t2;
  }

  /** What `process_text` promises, given `reply(k)`, the outcome of the agent invoker on the
      k-th call (counting from 0):
      - between one and four calls, each with the same prompt and the same sender;
      - every call but the last got an empty answer;
      - the last call decides: a failure propagates, a non-empty answer becomes the
        response, and an empty one can only be the fourth and yields the apology;
      - on success the response is the only field written. */
  ghost predicate Contract(e: Event, reply: nat -> Result<string>, r: Result<Event>, calls: seq<Call>)
  {
    var phoneNumber := ReadString(e, "from_number");
    var n := |calls|;
    && 1 <= n <= MaxAttempts
    && (forall i :: 0 <= i < n ==> calls[i] == AskAgent(Prompt(InputText(e), phoneNumber), phoneNumber))
    && (forall i :: 0 <= i < n - 1 ==> reply(i) == Ok(""))
    && (reply(n - 1).Raised? ==> r == Raised(reply(n - 1).error))
    && (reply(n - 1).Ok? && reply(n - 1).value != "" ==>
          r.Ok? && Extends(e, r.value, map[ResponseMessageField := reply(n - 1).value]))
    && (reply(n - 1) == Ok("") ==>
          n == MaxAttempts && r.Ok? && Extends(e, r.value, map[ResponseMessageField := Apology]))
  }

  /** `ProcessText.process_text`. */
  method ProcessText(e: Event, reply: nat -> Result<string>) returns (r: Result<Event>, calls: seq<Call>)
    ensures Contract(e, reply, r, calls)
  {
    var phoneNumber := ReadString(e, "from_number");
    var prompt := Prompt(InputText(e), phoneNumber);
    var retries: nat := 0;
    var response := "";
    calls := [];
    while retries < MaxAttempts
      invariant retries <= MaxAttempts
      invariant |calls| == retries
      invariant forall i :: 0 <= i < retries ==> calls[i] == AskAgent(prompt, phoneNumber)
      invariant forall i :: 0 <= i < retries ==> reply(i) == Ok("")
      invariant response == if retries == MaxAttempts then Apology else ""
    {
      calls := calls + [AskAgent(prompt, phoneNumber)];
      var answer := reply(retries);
      if answer.Raised? {
        return Raised(answer.error), calls;
      }
      response := answer.value;
      if response != "" {
        break;
      }
      retries := retries + 1;
      if retries >= MaxAttempts {
        response := Apology;
      }
    }
    var added := map[ResponseMessageField := response];
    WithFieldsExtends(e, added);
    r := Ok(WithFields(e, added));
  }

  /** The contract fixes the outcome: two runs on the same event against the same agent
      answers make the same calls and produce the same event. */
  lemma {:induction false} ContractDeterministic(e: Event, reply: nat -> Result<string>,
                                                 r1: Result<Event>, calls1: seq<Call>,
                                                 r2: Result<Event>, calls2: seq<Call>)
    requires Contract(e, reply, r1, calls1)
    requires Contract(e, reply, r2, calls2)
    ensures calls1 == calls2 && r1 == r2
  {
    var n1, n2 := |calls1|, |calls2|;
    assert n1 == n2;
    var last := reply(n1 - 1);
    if last.Ok? {
      var text := if last.value == "" then Apology else last.value;
      ExtendsUnique(e, r1.value, r2.value, map[ResponseMessageField := text]);
    }
  }

  /** An agent that always answers empty is called exactly four times and the step
      answers with the apology. */
  lemma AlwaysEmptyGivesApology(e: Event, reply: nat -> Result<string>, r: Result<Event>, calls: seq<Call>)
    requires forall k :: reply(k) == Ok("")
    requires Contract(e, reply, r, calls)
    ensures |calls| == MaxAttempts
    ensures r.Ok? && r.value.fields[ResponseMessageField] == Apology
  {
    assert reply(|calls| - 1) == Ok("");
  }

  /** An empty first answer and a non-empty second one: exactly two calls, and the
      second answer is the response. */
  lemma SecondAnswerWins(e: Event, reply: nat -> Result<string>, answer: string,
                         r: Result<Event>, calls: seq<Call>)
    requires reply(0) == Ok("") && reply(1) == Ok(answer) && answer != ""
    requires Contract(e, reply, r, calls)
    ensures |calls| == 2
    ensures r.Ok? && r.value.fields[ResponseMessageField] == answer
  {
  }
}
