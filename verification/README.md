# A verified model of the voice-agent platform's sequential core

This project models, in Dafny, the deterministic parts of a voice-agent platform. That platform is a pipecat fork plus a FastAPI backend. The modelled parts are:

- **Telephony frame serializers.**
  - The Asterisk serializer's session state: pipeline rate, Asterisk rate, auto hang-up flag, hang-up-attempted flag and two resampler states.
  - Its `setup`, `serialize` and `deserialize` functions, which thread that state.
  - Hang-up planning and status classification for both Asterisk and Cloudonix.
  - The argument mapping from Cloudonix to its Twilio parent.
- **The mock transport used in tests.**
  - The write oracle: a counter machine with an always-succeed mode and a fail-after-N mode.
  - A driver loop taken from the doc comment that describes the media sender's reaction to failures.
  - The silence-frame size.
  - The start/stop flag machine and `process_frame`.
- **URL handling.**
  - `get_scheme`.
  - The ordered rejection chain of `_validate_url`.
  - The http→ws rewrite that derives the backend endpoints.
- **Workflow-definition handling in the workflow routes.**
  - Trigger-path extraction and UUID regeneration.
  - The schema-error → `WorkflowError` mapping.
  - Pagination arithmetic.
  - The filter-attribute whitelist.
  - The provider → base-URL table.
- **Workflow store bookkeeping,** over an abstract in-memory store.
  - Definition get-or-create keyed by (hash, workflow id).
  - The "exactly one current definition" update.
  - Workflow creation, update and status update.
  - The count and run-count folds.
- **TURN credentials** in the style of the TURN REST API (draft-uberti-behave-turn-rest-00, section 2.2).
  - The username is `expiry:user`.
  - The password is an opaque signature of (secret, username).
  - The URI list is ordered by environment and TLS configuration.
- **The Sarvam chat-completion parameter builder.**
- **The authentication schemas.** This means the password length validator and the field defaults.

## How things are modelled

Python values become immutable Dafny datatypes:

- `Json.Value` stands for a value after `json.loads`. Its truthiness follows Python.
- `Wrappers.Result` carries the exceptions the code raises or lets escape, such as a `.get` on a list or a division by zero, as explicit error values.

Library calls become function-valued parameters:

- the μ-law codec and resampler;
- JSON parsing;
- SHA-256 over canonical JSON;
- HMAC-SHA1 with base64;
- `uuid4`, drawn from a numbered stream `newId: nat -> Uuid`;
- the clock, as `now`.

Python's floor division, negative indices and truncating `int()` are written out explicitly. So are `str.find`, `str.rstrip`, `str.replace(…, 1)`, `str.capitalize` (ASCII) and `str(int)`.

Where a comment and the code disagree, the model follows the code. The TURN route's comment says the TLS URIs come first; the code appends them after the plain pair, and `TurnCredentials.PlainUriLeads` states the code's order.

The `_validate_url` port rule checks only a colon suffix that has no `/` after it. As a result, `http://host:99999/path` is accepted. `UrlConfig.PortBeforePathIsNotChecked` states this as the code behaves.

## Model

| member | source | states |
|---|---|---|
| Asterisk.New | pipecat/src/pipecat/serializers/asterisk.py:45-78 | default params (8000 Hz, auto hang-up on) when none are given, the Asterisk rate taken from the params, pipeline rate 0 and no hang-up attempted before setup, both resamplers fresh |
| Asterisk.Setup | pipecat/src/pipecat/serializers/asterisk.py:80-86 | the pipeline rate becomes the configured rate when it is truthy, else the start frame's input rate (also when the configured rate is 0); nothing else changes |
| Asterisk.NonEmpty | pipecat/src/pipecat/serializers/asterisk.py:117-122 | a conversion result is passed on only when it is present and non-empty |
| Asterisk.Serialize | pipecat/src/pipecat/serializers/asterisk.py:88-124 | a hang-up is requested exactly when auto hang-up is on, the frame is End/Cancel and none was attempted; the attempted flag is set and never cleared; only audio frames produce bytes, which are the codec's output unchanged at the Asterisk rate, and only the output resampler advances |
| Asterisk.Deserialize | pipecat/src/pipecat/serializers/asterisk.py:126-164 | binary input decodes with the input resampler into mono audio at the pipeline rate, or nothing when the decode is empty; text input yields nothing, and only JSON that parses but is not an object escapes as an error |
| Asterisk.HangUpRequest | pipecat/src/pipecat/serializers/asterisk.py:166-181 | a request exists iff channel id and ARI endpoint are both non-empty; it is a DELETE of `{endpoint}/ari/channels/{channel}` with basic auth (app name, app password) |
| Asterisk.Classify | pipecat/src/pipecat/serializers/asterisk.py:183-192 | 200 and 204 are success, 404 is "already terminated", every other status is an error carrying that status |
| Asterisk.HangUp | pipecat/src/pipecat/serializers/asterisk.py:166-195 | no request means nothing sent; a raised exception is swallowed as a failure; otherwise the outcome is the status classification |
| Asterisk.HangUpAtMostOnce | pipecat/src/pipecat/serializers/asterisk.py:78-110 | over any sequence of setups, inbound messages and outbound frames, at most one hang-up is issued; exactly one iff auto hang-up is on, none was attempted and some End/Cancel frame goes out; the flag ends set iff that happened |
| Asterisk.NoAutoHangUpNeverHangsUp | pipecat/src/pipecat/serializers/asterisk.py:99-106 | with auto hang-up off no event sequence issues a hang-up |
| Asterisk.DecodedAudioUsesPipelineRate | pipecat/src/pipecat/serializers/asterisk.py:80-86 | after setup, decoded inbound audio carries the rate setup chose and one channel |
| Asterisk.DirectionsIndependent | pipecat/src/pipecat/serializers/asterisk.py:111-154 | sending never touches the input resampler; receiving never touches the output resampler or the hang-up flag |
| Cloudonix.ParentArgs | pipecat/src/pipecat/serializers/cloudonix.py:39-51 | call id goes to `call_sid`, domain id to `account_sid`, bearer token to `auth_token`; the rest passes through |
| Cloudonix.HangUpRequest | pipecat/src/pipecat/serializers/cloudonix.py:55-86 | a request exists iff the call id is non-empty and domain id and bearer token are given; it is a DELETE of the session URL with a `Bearer` authorization header and a JSON content type |
| Cloudonix.Classify | pipecat/src/pipecat/serializers/cloudonix.py:96-107 | 200, 204 and 404 are success; any other status is an error carrying it |
| Cloudonix.HangUp | pipecat/src/pipecat/serializers/cloudonix.py:55-110 | no request means nothing sent; an exception is swallowed as a failure; otherwise the status classification |
| CallControl.Settle | pipecat/src/pipecat/serializers/cloudonix.py:88-110 | the shape both hang-up routines share: no request, nothing sent; a raised exception becomes a failure; otherwise the vendor's classification of the status |
| Cloudonix.HangUpTargetsParentCall | pipecat/src/pipecat/serializers/cloudonix.py:39-86 | the hang-up URL and bearer header use exactly the call, account and token handed to the parent serializer |
| Cloudonix.NotFoundIsLikeNoContent | pipecat/src/pipecat/serializers/cloudonix.py:96-104 | 404 is classified the same as 204 |
| HangUpPolicies.VendorsAgreeOnErrors | pipecat/src/pipecat/serializers/cloudonix.py:96-107 | both vendors treat exactly the same statuses as errors; they differ only in reporting 404 |
| MockTransport.NewOutput | pipecat/src/pipecat/tests/mock_transport.py:143-165 | counters start at zero and the mode is as configured |
| MockTransport.WriteAudioFrame | pipecat/src/pipecat/tests/mock_transport.py:175-200 | every write counts one attempt; in succeed mode it succeeds; in failing mode it succeeds iff fewer than `fail_after` frames were written; only a success counts a frame |
| MockTransport.WritePreservesValid | pipecat/src/pipecat/tests/mock_transport.py:188-200 | frames written never exceed attempts, and in failing mode never exceed `max(fail_after, 0)` |
| MockTransport.FailingModeSchedule | pipecat/src/pipecat/tests/mock_transport.py:195-200 | in failing mode the i-th of n writes succeeds iff `frames_written + i < fail_after`, and the final count is the clamped prefix |
| MockTransport.FailureIsPermanent | pipecat/src/pipecat/tests/mock_transport.py:195-200 | in failing mode, once a write fails every later write fails |
| MockTransport.SucceedModeSchedule | pipecat/src/pipecat/tests/mock_transport.py:190-192 | in succeed mode every write of a run succeeds and each one counts |
| MockTransport.DriveAudio | pipecat/src/pipecat/tests/mock_transport.py:178-181 | the sender described in the doc comment: it writes chunks and stops after 10 consecutive failures; speaking starts and stops iff some frame was written; in failing mode from zero it writes `min(chunks, fail_after)` frames and attempts 10 more before stopping |
| MockTransport.TruncDiv1000 | pipecat/src/pipecat/tests/mock_transport.py:74-78 | Python's `int()` of a division by 1000, truncating toward zero |
| MockTransport.SilenceFrame | pipecat/src/pipecat/tests/mock_transport.py:74-78 | a frame of `int(rate*ms/1000) * channels * 2` zero bytes, or an error when that size is negative |
| MockTransport.FrameSizeCoversInterval | pipecat/src/pipecat/tests/mock_transport.py:74-78 | the samples per channel are the whole samples of one interval, and such a frame always exists for non-negative settings |
| MockTransport.DefaultFrameIs640Bytes | pipecat/src/pipecat/tests/mock_transport.py:45-47 | the defaults (16 kHz, 20 ms, mono) give 640 zero bytes |
| MockTransport.NewInput | pipecat/src/pipecat/tests/mock_transport.py:41-68 | a fresh input is stopped, with no task |
| MockTransport.StartGeneration | pipecat/src/pipecat/tests/mock_transport.py:92-96 | start runs generation only when enabled and not already running; otherwise it changes nothing |
| MockTransport.StopGeneration | pipecat/src/pipecat/tests/mock_transport.py:98-103 | stop always leaves generation stopped with no live task; a finished task's reference may remain |
| MockTransport.StartStopIdempotent | pipecat/src/pipecat/tests/mock_transport.py:92-103 | starting twice equals starting once, stopping twice equals stopping once, and both keep the flags consistent |
| MockTransport.ProcessFrame | pipecat/src/pipecat/tests/mock_transport.py:105-121 | every frame is forwarded unchanged; Start starts, End/Cancel stop, others leave the state alone |
| MockTransport.ProcessAllFollowsLastControl | pipecat/src/pipecat/tests/mock_transport.py:105-121 | over a frame stream everything is forwarded in order and the running flag is decided by the last Start/End/Cancel frame |
| MockTransport.ProcessAllSnoc | pipecat/src/pipecat/tests/mock_transport.py:105-121 | processing one more frame extends the pass by exactly one step |
| UrlConfig.GetScheme | api/utils/common.py:14-22 | the prefix before the first `://`, or nothing iff the separator is absent |
| UrlConfig.CheckPort | api/utils/common.py:81-93 | a present port passes iff it is non-empty, all digits and at most 65535 |
| UrlConfig.ValidateUrl | api/utils/common.py:25-93 | a blank URL is rejected as empty; an accepted URL has no malformed separator, an http/https scheme if any, a non-empty host part without whitespace, and a valid trailing port |
| UrlConfig.BackendEndpoints | api/utils/common.py:147-153 | derivation fails exactly when validation does, with the same reason; the http URL is the endpoint without trailing slashes, `http://` is prefixed when there is no scheme, and the ws URL names the same address with `ws`/`wss` |
| UrlConfig.ComposedUrlVerdict | api/utils/common.py:25-93 | for any URL built from an http/https scheme or none, a plain host, an optional port and an optional trailing slash, the verdict is exactly the port check |
| UrlConfig.AcceptsWellFormed | api/utils/common.py:25-93 | every such URL with a numeric port of at most 65535 is accepted |
| UrlConfig.RejectsBadPorts | api/utils/common.py:81-93 | an empty port, a port with a non-digit, and a port above 65535 are each rejected with their own error |
| UrlConfig.SingleSlashRejectedFirst | api/utils/common.py:44-45 | `http:/x` and `https:/x` are rejected as a malformed scheme |
| UrlConfig.BadSeparatorRejected | api/utils/common.py:48-51 | `http//x` and `http:x` (and the https forms) are rejected as a malformed separator |
| UrlConfig.UnsupportedSchemeRejected | api/utils/common.py:54-58 | any non-empty scheme other than http and https is rejected, naming the scheme |
| UrlConfig.HostWithPathPasses | api/utils/common.py:81-93 | a host part whose colon is followed by a path has no port to check |
| UrlConfig.PortBeforePathIsNotChecked | api/utils/common.py:81-93 | a URL with any port text followed by a path is accepted, however out of range that port is |
| UrlConfig.SchemeRewrite | api/utils/common.py:147-153 | replacing the first `http` with `ws` turns `http://` into `ws://` and `https://` into `wss://`, keeping the rest |
| WorkflowRoutes.NodeList | api/routes/workflow.py:161-182 | the `nodes` list, empty when absent or an empty value, an error when a non-empty non-list is iterated as nodes |
| WorkflowRoutes.ExtractFrom | api/routes/workflow.py:170-182 | the loop raises iff some node is not a dict or is a trigger whose `data` is not a dict; otherwise never more paths than nodes, and every path truthy |
| WorkflowRoutes.ExtractedPathsComeFromTriggers | api/routes/workflow.py:176-180 | every extracted path is the truthy `trigger_path` of some node whose type is `trigger` |
| WorkflowRoutes.TriggerPathsAreExtracted | api/routes/workflow.py:176-180 | every trigger node's truthy `trigger_path` is among the extracted paths |
| WorkflowRoutes.TriggerContributesPath | api/routes/workflow.py:176-180 | a trigger node with a truthy path contributes exactly that path, between the paths of the nodes before it and those after it |
| WorkflowRoutes.FalsyPathContributesNothing | api/routes/workflow.py:176-180 | a trigger node whose path is falsy contributes nothing |
| WorkflowRoutes.ExtractTriggerPaths | api/routes/workflow.py:161-182 | an empty definition or one without `nodes` yields no paths; a list of nodes yields what the loop over that list yields; any other `nodes` value raises or yields nothing; every path is truthy |
| WorkflowRoutes.ExtractAppend | api/routes/workflow.py:176-180 | extraction is in node order: over concatenated node lists it is the concatenation of the results |
| WorkflowRoutes.NonTriggerContributesNothing | api/routes/workflow.py:176-180 | removing a non-trigger node does not change the extracted paths |
| WorkflowRoutes.RenewNode | api/routes/workflow.py:205-211 | a trigger node gets a `data` dict whose trigger path is the new id; every other key and data entry is kept |
| WorkflowRoutes.RegenerateFrom | api/routes/workflow.py:205-211 | node count and order are kept, non-trigger nodes are untouched, and trigger nodes stay trigger nodes |
| WorkflowRoutes.RegenerateRenewsTriggers | api/routes/workflow.py:205-211 | the k-th trigger node becomes that node with `data` created if absent and its `trigger_path` set to the k-th fresh id; all its other keys and data entries are kept |
| WorkflowRoutes.RegenerateTriggerUuids | api/routes/workflow.py:185-213 | an empty definition or one without nodes comes back unchanged; otherwise only `nodes` changes |
| WorkflowRoutes.RegenerateThenExtractFrom | api/routes/workflow.py:170-211 | regeneration succeeds iff extraction does, and extracting after regeneration yields exactly the fresh ids in trigger order |
| WorkflowRoutes.RegenerateThenExtract | api/routes/workflow.py:161-213 | for a whole definition: extracting the regenerated definition gives one fresh id per trigger node |
| WorkflowRoutes.Subscript | api/routes/workflow.py:364-365 | Python indexing: negative list indices count from the end, dict lookups fail on missing keys |
| WorkflowRoutes.TransformIssue | api/routes/workflow.py:358-377 | the id is the `id` of the item at `definition[loc[0]][loc[1]]`; the kind is node iff the location starts with `nodes`; the field is the rest of the location joined by dots, or none; the message is capitalized. An empty location is an IndexError; a one-element location raises KeyError when its key is missing and IndexError otherwise |
| WorkflowRoutes.TransformSchemaErrors | api/routes/workflow.py:358-377 | one error per issue in order, succeeding iff every issue maps |
| WorkflowRoutes.FieldAbsentIff | api/routes/workflow.py:373 | the field is absent iff nothing follows the item index, or only an empty key does |
| WorkflowRoutes.NodeErrorNamesNode | api/routes/workflow.py:364-372 | an issue at `nodes[i]` names node i's id, and a negative index names the node counted from the end |
| WorkflowRoutes.FloorDiv | api/routes/workflow.py:921 | Python floor division |
| WorkflowRoutes.Paginate | api/routes/workflow.py:886-921 | the offset is `(page-1)*limit`; total pages is the ceiling of count over limit; a zero limit is a division error |
| WorkflowRoutes.PagesPartitionRows | api/routes/workflow.py:886-921 | every row lies on exactly one page, and that page is within the total |
| WorkflowRoutes.CheckFilterItem | api/routes/workflow.py:896-909 | a filter passes iff its attribute is absent, falsy or whitelisted |
| WorkflowRoutes.CheckFilterItems | api/routes/workflow.py:896-909 | all filters pass iff each does; a rejection names a failing filter with all earlier ones permitted |
| WorkflowRoutes.CheckFilters | api/routes/workflow.py:889-909 | a list of filters passes iff every filter is permitted; a scalar criteria value is not iterable |
| WorkflowRoutes.WhitelistDecides | api/routes/workflow.py:896-909 | the first non-whitelisted attribute is the one reported |
| WorkflowRoutes.ProviderBaseUrl | api/routes/workflow.py:104-116 | exactly the four providers openai, groq, openrouter and deepseek have an https base URL |
| WorkflowRoutes.ProviderUrlsDistinct | api/routes/workflow.py:104-116 | distinct providers have distinct base URLs |
| WorkflowStore.KeyOrderIrrelevant | api/db/workflow_client.py:14-20 | a dict is a map here, so key insertion order cannot be represented and cannot reach the hash; this does not prove anything about `sort_keys` |
| WorkflowStore.FindDefinition | api/db/workflow_client.py:26-36 | the first definition with the given hash and workflow, or none iff there is none |
| WorkflowStore.GetOrCreate | api/db/workflow_client.py:22-48 | an existing (hash, workflow) match is returned unchanged; otherwise exactly one new definition is appended; no pair is ever duplicated |
| WorkflowStore.GetOrCreateIdempotent | api/db/workflow_client.py:22-48 | a second get-or-create for the same definition returns the same id and store |
| WorkflowStore.MarkCurrent | api/db/workflow_client.py:73-82 | within the workflow, exactly the chosen definition is current; other workflows' definitions are untouched |
| WorkflowStore.Adopt | api/db/workflow_client.py:73-82 | the definition holding `def`'s hash becomes the workflow's sole current one; existing definitions keep their place and contents except this workflow's current flags; other workflows' definitions are unchanged; at most one definition is added; an added definition holds `def` and its hash and is current |
| WorkflowStore.AdoptForNewWorkflow | api/db/workflow_client.py:73-82 | for a workflow with no definitions, adopting appends one definition, holding `def` and its hash and already current, and leaves every other definition as it was |
| WorkflowStore.CreateWorkflow | api/db/workflow_client.py:50-89 | the new workflow gets the next id, status active and no variables or configurations; its sole current definition holds `def`'s hash; no other workflow's definition changes; in a valid store exactly one current definition holding `def` is appended |
| WorkflowStore.FindWorkflow | api/db/workflow_client.py:237-250 | the visible workflow with the id, scoped by organization when given and else by user, or none iff none is visible |
| WorkflowStore.UpdateWorkflow | api/db/workflow_client.py:206-287 | a missing workflow is an error; otherwise only that workflow is replaced; definitions change only for a non-empty definition, and then the definition holding its hash is the workflow's sole current one; existing definitions change only in their current flag, other workflows' definitions not at all, and at most one definition is added, holding the new definition, already current |
| WorkflowStore.UpdateWorkflowStatus | api/db/workflow_client.py:321-365 | a missing workflow is an error; otherwise only the status of that workflow changes |
| WorkflowStore.LastCount | api/db/workflow_client.py:170-173 | the count of a key's last row, absent iff no row has the key |
| WorkflowStore.WorkflowCounts | api/db/workflow_client.py:147-175 | total, active and archived always present; every status takes its last row's count, default 0; total is the sum of all rows when no row's status is "total" |
| WorkflowStore.WorkflowRunCounts | api/db/workflow_client.py:377-405 | no ids give an empty map; otherwise every requested id is present with its row's count or 0 |
| WorkflowStore.RunCountsKeysAreRequested | api/db/workflow_client.py:386-403 | when every row is for a requested id, the result's keys are exactly the requested ids |
| TurnCredentials.Uris | api/routes/turn_credentials.py:98-123 | two URIs, TCP first when local and UDP first otherwise, followed by two `turns:` URIs iff a TLS port is set |
| TurnCredentials.Generate | api/routes/turn_credentials.py:57-130 | fails iff there is no secret; the username is `str(now+ttl):user`, the password is the signature of the username under the secret, and ttl and URIs are as given |
| TurnCredentials.UsernameRoundTrip | api/routes/turn_credentials.py:74-80 | splitting the username at its first colon gives back the expiry time and the user id |
| TurnCredentials.EnvironmentOnlyReorders | api/routes/turn_credentials.py:101-114 | the environment changes only the order of the URIs, not which URIs there are |
| TurnCredentials.PlainUriLeads | api/routes/turn_credentials.py:95-123 | the first URI is a plain `turn:` URI and the TLS ones come third and fourth |
| TurnCredentials.GetTurnCredentials | api/routes/turn_credentials.py:133-165 | without a secret the reply is empty credentials with ttl 0; otherwise the generated credentials for the user with the default ttl |
| Sarvam.ReasoningEffort | api/plugins/sarvam/__init__.py:48-50 | a dict yields its `reasoning_effort` entry when present |
| Sarvam.BuildParams | api/plugins/sarvam/__init__.py:25-61 | building fails only on an `extra` that is neither missing nor a dict; context entries always win, and nothing but the seven builder keys and the context's keys appears |
| Sarvam.ModelAndStreamSet | api/plugins/sarvam/__init__.py:34-37 | model and `stream: true` are present unless the context overrides them |
| Sarvam.SamplingSetIffNotNone | api/plugins/sarvam/__init__.py:40-45 | temperature and top_p are sent iff not None, with the configured values |
| Sarvam.ReasoningEffortFromExtra | api/plugins/sarvam/__init__.py:48-50 | the reasoning effort is copied iff `extra` holds it, and a missing `extra` contributes nothing |
| Sarvam.LimitsSetIffTruthy | api/plugins/sarvam/__init__.py:53-56 | the token limits are sent iff truthy, so 0 and None are omitted, and each is sent with the setting's value unchanged |
| Sarvam.ContextMergedLast | api/plugins/sarvam/__init__.py:59-61 | building with a context equals building without one and then overlaying the context |
| AuthSchema.PasswordMinLength | api/schemas/auth.py:9-14 | a password is rejected iff shorter than 8 characters; an accepted one is returned unchanged |
| AuthSchema.Signup | api/schemas/auth.py:4-14 | a signup request exists iff the password has at least 8 characters, and it holds the given fields |
| AuthSchema.ValidationIdempotent | api/schemas/auth.py:12-14 | validating an accepted password again accepts it unchanged |
| AuthSchema.OptionalFieldsDefaultToNone | api/schemas/auth.py:7-26 | the signup name and the user's name and organization default to none when left out |

## Left out

- The μ-law codec, the resamplers and their float arithmetic are not modelled. They are parameters with opaque state that the serializer only threads.
- The Twilio serializer, Cloudonix's parent, is not part of this model. That covers Cloudonix's audio path and its own hang-up-once guard.
- The real media sender and base output transport are not part of this model. `MockTransport.DriveAudio` is derived from the doc comment of `write_audio_frame` alone.
- Network I/O is not modelled. The HTTP session, websocket plumbing, the LLM call in local workflow generation, and the localhost/tunnel branch of endpoint derivation are outside the model; HTTP replies are parameters.
- Asyncio tasks, the generation cadence (`asyncio.sleep`) and cancellation are not modelled.
- SQL sessions, queries, commits and migrations are not modelled. The store is an in-memory record with sequential ids.
- Column defaults are not visible in the model's source files. A new workflow's status is taken as "active", its template variables and configurations as none, and a fresh definition as not current until marked.
- SHA-256, canonical JSON serialization, HMAC-SHA1, base64 and `uuid4` are not modelled. Each is a parameter.
- Email syntax validation (`EmailStr`) is not modelled.
- The JSON decoding of the filter query parameter and its HTTP 400 reply are not modelled; filters arrive already decoded.
- The `cost_info` rounding in the workflow-run route is floating point and is not modelled.
- `regenerate_trigger_uuids` deep-copies its input. That needs no statement here, since the model's values are immutable.
- The service factory, Gemini TTS plugin, tunnel metrics, turn trace observer, user-mute strategy, enums, auth routes and utilities, and the database fix script are outside the modelled core.
- UrlConfig.CheckPort: `str.isdigit` also accepts non-ASCII digits; the model accepts ASCII digits only.
- UrlConfig.ValidateUrl: the URL is a character sequence; Python's whitespace class is modelled as the Unicode space characters, and no normalisation is done.
- WorkflowRoutes.TransformIssue: `str.capitalize` is modelled on ASCII letters only.
- WorkflowStore.WorkflowCounts: the total is stated to be the sum of all rows only when no row's status is literally "total"; such a row would overwrite it.
- MockTransport.SilenceFrame: the size is computed from integer inputs with exact division; the source computes it in floating point first.
