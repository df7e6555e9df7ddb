# Rufus Bank WhatsApp chatbot: message-handling core in Dafny

This project models the message-handling steps of the Rufus Bank WhatsApp chatbot.
A customer's WhatsApp message lands in a DynamoDB table. A state machine then validates
it and asks a Bedrock agent for an answer. The agent calls back into four action-group
Lambda functions, which fetch products, rewards and market advice from the table or send
a PDF certificate. Separately, a DynamoDB stream on the auth-session records sends a
"you are authenticated" message once a customer logs in.

Every step is a pure function, or in one case a method. It takes the event and its
external services as parameters, and returns a `Run`: the outcome (a value, or the
Python exception the code raises) together with the ordered list of external calls it
made. That list lets contracts say "nothing is sent before the check fails".

Modules, one per source file plus shared ones:

- `Outcomes`: `Option`, `Result`, the exceptions raised, the external calls.
- `Text`: Python's `str.split`, `[1]`, `[-1]` and `str.replace`.
- `Dict`: insertion-ordered Python dicts.
- `StepEvent`: the state-machine event, and what "only these fields were added" means.
- `ValidateMessage`, `ProcessText`, `BedrockAgent`: the state-machine steps.
- `WhatsAppHelper`, `AuthTriggerHandler`: the auth-completion trigger.
- `ActionGroups`: what the four action-group functions share, namely the parameter scan and the response envelope.
- `UserProducts`, `BankRewards`, `MarketInsights`, `BankCertificates`: the four action-group functions.
- `GenerateCertificates`: the certificate generator, modelled as data.

External services are parameters:

| service | modelled as |
|---|---|
| DynamoDB session lookup | `(pk, sk) -> bool` |
| DynamoDB query | `(pk, prefix) -> seq<Dict>` |
| Meta messaging API | its reply's key set, `(to, body) -> SendResponse` |
| SSM parameter store | `name -> Option<string>`, where None means it raises |
| `invoke_agent` | `AgentRequest -> InvokeResponse` |
| the agent invoker as seen by the retry loop | `nat -> Result<string>`, the outcome of the k-th call |
| S3 upload helper | `(path, object name) -> string`, a link or an error text |
| the PDF and QR libraries drawing and saving the certificate | `pages -> Result<()>`, raising where, for instance, the core font cannot encode a text or a temporary file cannot be written |
| `uuid4`, `datetime.now`, QR_WEBSITE, AUTH_ENABLED, the allowed message types | plain values |

The model follows the code as written, including these behaviours:

- With AUTH_ENABLED off, the validator reads `phone_number` before assigning it. So on every allowed message it raises `UnboundLocalError` instead of acknowledging.
- The agent invoker catches nothing. A failing SSM lookup or `invoke_agent` propagates through the retry loop; it does not become an empty answer that gets retried.
- The trigger takes `PK.split("#")[1]`, the second segment and not the last. It removes every `+`, not only a leading one.
- `generate_certificate_pdf` has no `return`, so the certificate action uploads file path `None`. The uploader's answer, possibly its error text, is what gets sent as the document link.
- The products action reads a parameter named `user_id`. The agent schema declares that action's only parameter as `from_number` (cdk/stacks/cdk_generative_ai_stack.py:730). So a call carrying just `from_number` queries the user `"None"` (`UserProducts.DeclaredParameterIgnored`).

## Model

| member | source | states |
|---|---|---|
| ValidateMessage.ValidateInput | backend/state_machine/utils/validate_message.py:33-114 | Covers the error cases and the success case of the validator. An unsupported type raises with no calls made. With auth off the step raises the unbound-name error with no calls. With auth on it makes exactly one session lookup on `USER#<from_number>`/`AUTH`, then one acknowledgement to the sender. It succeeds iff the type is allowed, auth is on and the ack reply has no `error`; an ack error raises. On success the event gains `correlation_id` and `message_type` and nothing else changes. A missing session sets `message_type` to `unauthorized` and adds the redirect text. |
| StepEvent.ReadString | backend/state_machine/utils/validate_message.py:44-50 | The chained `get` through `input`, `dynamodb`, `NewImage`, the attribute and `S` yields a value exactly when every level is present, and then that string. |
| ValidateMessage.MessageType | backend/state_machine/utils/validate_message.py:44-50 | The message type is the record's `type` string, or `NOT_FOUND_MESSAGE_TYPE` when any level is missing. |
| ValidateMessage.AuthEnabledExactly | backend/state_machine/utils/validate_message.py:59 | The session check runs iff AUTH_ENABLED is exactly `"true"`; unset counts as `"false"`. |
| ProcessText.ProcessText | backend/state_machine/processing/process_text.py:25-85 | The agent is called 1 to 4 times, always with the same prompt and sender. Every call but the last answered empty. A raised failure propagates. The first non-empty answer becomes `response_message`. Four empty answers give the apology. `response_message` is the only field added. |
| ProcessText.InputText | backend/state_machine/processing/process_text.py:33-39 | The text is the record's `text` string, or `DEFAULT_RESPONSE` when any level is missing. |
| ProcessText.Prompt | backend/state_machine/processing/process_text.py:56-62 | The prompt is the fixed head, the text, the fixed middle, the sender (`None` when missing) and the fixed tail, each at its position. |
| ProcessText.ContractDeterministic | backend/state_machine/processing/process_text.py:66-85 | For given agent outcomes, the retry contract fixes both the call list and the resulting event. |
| ProcessText.AlwaysEmptyGivesApology | backend/state_machine/processing/process_text.py:73-78 | An agent that always answers empty is called exactly four times, and the response is the apology text. |
| ProcessText.SecondAnswerWins | backend/state_machine/processing/process_text.py:69-72 | An empty first answer followed by a non-empty second gives exactly two calls, and the second answer is the response. |
| ProcessText.PromptDeterminesText | backend/state_machine/processing/process_text.py:56-62 | For a fixed sender, the fixed-shape prompt determines the message text inside it. |
| BedrockAgent.CallBedrockAgent | backend/state_machine/processing/bedrock_agent.py:27-63 | No request is sent iff an SSM lookup fails, and then the failure propagates. The alias is the part after the last vertical bar, or the whole text without one. The agent id comes from SSM. The session id is the fresh one. The input text is passed unchanged. A failing invocation propagates. No completion stream gives `""`. Otherwise the result is the chunk concatenation. |
| BedrockAgent.CollectChunks | backend/state_machine/processing/bedrock_agent.py:52-58 | Succeeds iff every stream event carries a chunk, and then yields the in-order concatenation of the chunk texts. A chunk-less event fails. |
| BedrockAgent.SessionHintIgnored | backend/state_machine/processing/bedrock_agent.py:37-48 | Two calls differing only in the session-id argument behave identically. |
| Text.LastSegment | backend/state_machine/processing/bedrock_agent.py:34 | `s.split(c)[-1]` is a separator-free suffix of `s`. It is preceded by `c` when `c` occurs, and is all of `s` otherwise. |
| WhatsAppHelper.Recipient | backend/trigger/helpers/whatsapp_helper.py:48-49 | Defined iff `PK` contains `#`. Then it is the text between the first and second `#` with every `+` removed, and it contains neither `+` nor `#`. |
| WhatsAppHelper.LeadingPlusDropped | backend/trigger/helpers/whatsapp_helper.py:48-49 | `USER#<n>` and `USER#+<n>` give the same recipient `<n>`. |
| WhatsAppHelper.TriggerResponse | backend/trigger/helpers/whatsapp_helper.py:20-75 | A missing `PK` raises a key error, and a `#`-less `PK` raises an index error, both before any send. Otherwise exactly one send of the fixed authenticated text goes to the recipient, and the result is `Auth success processed OK!` even when the send reply has `error`. |
| WhatsAppHelper.CorrelationIdOptional | backend/trigger/helpers/whatsapp_helper.py:40 | An image without `correlation_id` is handled exactly like the same image with one. |
| AuthTriggerHandler.LambdaHandler | backend/trigger/trigger_handler_auth_successful.py:21-45 | The batch succeeds exactly when every record is a `REMOVE` record or has a partition key containing '#'. Then one notice goes out per non-`REMOVE` record, in record order. |
| AuthTriggerHandler.FirstRejectedIsFirst | backend/trigger/trigger_handler_auth_successful.py:31-38 | The position the batch stops at is the first record that is not accepted: all records before it are accepted. |
| AuthTriggerHandler.StopsAtFirstRejection | backend/trigger/trigger_handler_auth_successful.py:31-45 | With a rejected record, the batch re-raises the first rejected record's exception (`KeyError` for a missing key, `IndexError` for a key without '#'). The sends are exactly the notices of the records before it, none after. |
| AuthTriggerHandler.RemovalsAreInert | backend/trigger/trigger_handler_auth_successful.py:31-38 | Inserting a `REMOVE` record anywhere in a batch changes neither the outcome nor the sends. |
| ActionGroups.ScanParameter | backend/agents/crud_user_products/lambda_function.py:18-21 | The parameter loop raises iff some parameter has no `name`, or has the sought name and no `value`; it raises on the first such one. Otherwise its value is that of the last parameter with the name, or the default. |
| ActionGroups.OtherNamesIgnored | backend/agents/crud_user_products/lambda_function.py:19-21 | Parameters with other names leave the scanned value at its default. |
| ActionGroups.Handle | backend/agents/crud_user_products/lambda_function.py:31-60 | `actionGroup` and `function` are required, in that order. A missing `parameters` reads as `[]`. An unaccepted group raises with no calls. Otherwise the calls are the action's, a failure in it propagates, and `messageVersion` is required next. On success the envelope echoes group, function and version around the action's result. |
| UserProducts.FetchUserProducts | backend/agents/crud_user_products/lambda_function.py:16-28 | A malformed parameter list fails with no query. Otherwise there is one query on `USER#<last user_id>`, or `USER#None` without one, with prefix `PRODUCT#`, and its items are the result. |
| UserProducts.LambdaHandler | backend/agents/crud_user_products/lambda_function.py:31-60 | Only `FetchUserProducts` is served. It succeeds iff group, function and version are present and the parameters are well formed, and then returns the envelope around that query's items. |
| UserProducts.DeclaredParameterIgnored | backend/agents/crud_user_products/lambda_function.py:18-26 | A call carrying only `from_number` queries `USER#None`. |
| BankRewards.GetRewards | backend/agents/bank_rewards/lambda_function.py:19-34 | One query on `USER#<last from_number>` with prefix `REWARDS#`; the result is the query's items unchanged. A malformed parameter list fails with no query. |
| BankRewards.LambdaHandler | backend/agents/bank_rewards/lambda_function.py:37-66 | Exactly `GetBankRewards` and `<GetBankRewards>` are served, and any other name raises with no calls. On success the envelope carries the rewards query's items. |
| BankRewards.SpellingsAgree | backend/agents/bank_rewards/lambda_function.py:46-47 | Both spellings make the same calls and give the same outcome, apart from the echoed group name. |
| MarketInsights.FetchMarketInsights | backend/agents/market_insights/lambda_function.py:16-31 | The risk level is the last `risk_level` given, `MODERATE` by default. It is queried as `MARKET#<level>` with prefix `ADVICE#LATEST#`, and the items are returned unchanged. |
| MarketInsights.LambdaHandler | backend/agents/market_insights/lambda_function.py:34-63 | Only `FetchMarketInsights` is served. On success the envelope carries the advice query's items. |
| MarketInsights.RiskLevelVerbatim | backend/agents/market_insights/lambda_function.py:19-26 | Any risk-level text is used verbatim in the key; no set of levels is enforced. |
| MarketInsights.DefaultRisk | backend/agents/market_insights/lambda_function.py:18-26 | Without a `risk_level` parameter the key is `MARKET#MODERATE`. |
| BankCertificates.GenerateCertificatesAction | backend/agents/bank_certificates/lambda_function.py:23-66 | A malformed parameter list fails with no calls. Otherwise the first call is the product query on `USER#<last from_number>`/`PRODUCT#`. If rendering those products raises, that exception propagates and nothing is uploaded or sent. Otherwise an upload of file path None under `certificates/<id>/rufus_certificate.pdf` follows. Without a `from_number` it then raises the unbound-name error. With one, it sends the uploader's answer as a document to that number and returns the fixed success text. |
| BankCertificates.LambdaHandler | backend/agents/bank_certificates/lambda_function.py:69-101 | Exactly the two spellings are served. It succeeds iff the envelope keys are present, the parameters are well formed, a `from_number` is given and the sender's products render. The body is then always the fixed success text. |
| BankCertificates.ObjectNameInjective | backend/agents/bank_certificates/lambda_function.py:50 | Distinct ids give distinct object names. |
| BankCertificates.ResultIndependentOfServices | backend/agents/bank_certificates/lambda_function.py:37-66 | The outcome never depends on the upload answer or the send. It depends on the stored products only through whether, and how, rendering them fails. |
| GenerateCertificates.CleanProductData | backend/agents/bank_certificates/generate_certificates.py:49-58 | The output keys are the input keys minus `PK` and `SK`, plus `User` exactly when `PK` was present, without duplicates. |
| GenerateCertificates.CleanKeepsOtherValues | backend/agents/bank_certificates/generate_certificates.py:56-57 | Every key other than `PK`, `SK` and `User` keeps its value. |
| GenerateCertificates.CleanUserValue | backend/agents/bank_certificates/generate_certificates.py:52-53 | `User` holds the text after the last `#` of `PK`. A product that also has its own `User` key keeps whichever of the two comes later, as dict assignment does. |
| GenerateCertificates.GenerateCertificatePdf | backend/agents/bank_certificates/generate_certificates.py:19-110 | A rendering failure propagates unchanged. Otherwise there is one page per product, each with the cleaned rows and the time/location subtitle. The file is saved to `/tmp/certificate.pdf`, and nothing is returned. |
| Text.RemoveAll | backend/trigger/helpers/whatsapp_helper.py:49 | `replace("+", "")` removes every `+` and keeps every other character; text without `+` is unchanged. Order and counts are fixed by the two lemmas below. |
| Text.RemoveAllCounts | backend/trigger/helpers/whatsapp_helper.py:49 | Every character other than `+` keeps its number of occurrences. |
| Text.RemoveAllConcat | backend/trigger/helpers/whatsapp_helper.py:49 | Removal works piecewise over concatenation. Together with the contract above this fixes the order of the kept characters. |
| Text.SecondSegment | backend/trigger/helpers/whatsapp_helper.py:48 | `split("#")[1]` exists iff `#` occurs. It is then the separator-free text from just after the first `#` up to the next `#` or the end. |
| Dict.Put | backend/agents/bank_certificates/generate_certificates.py:53-57 | Dict assignment: the key maps to the new value and other keys are unchanged. An existing key is overwritten in place, with every other entry in its position. A new key is appended. Keys stay unique. |

## Left out

- The state machine itself and its routing between steps: its definition is not part of this model; each step is modelled on its own.
- The `correlation_id` of the validator (`self.correlation_id`) is taken as an input: its origin is in a base class that is not part of this model.
- Logging, powertools decorators and `logger.append_keys`: no effect on outcomes.
- PDF layout, fonts, the QR image, its temporary file and the per-page UUID in `generate_certificate_pdf`: formatting and file I/O. The pages are modelled as data (subtitle, cleaned rows, QR link), and whether drawing and saving them raises is the renderer oracle's answer. Which texts the font cannot encode is not modelled.
- `str(results)` in the action-group envelopes: the body is kept as the payload value rather than its Python `repr` text.
- UTF-8 decoding of stream chunks: a chunk is modelled by its decoded text.
- Attribute types other than `S` in stream images, and JSON `null` parameter values: values are modelled as strings or absent.
- The `WhatsAppMessageTypes` enum, `MetaAPI`, `DynamoDBHelper` and `s3_helper.upload_pdf_to_s3`: not part of this model; they are the oracle parameters above.
- Lambda and stream concurrency: nothing in the code coordinates it.
- BedrockAgent.CallBedrockAgent: every exception from SSM or `invoke_agent` is one `ServiceError`; the exception's type and message are not modelled.
- ProcessText.ProcessText: the agent's answers are an abstract `reply` sequence rather than a composition with `CallBedrockAgent`, because the fresh session ids and the service answers differ per call.
