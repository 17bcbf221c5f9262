# avs-device-sdk directive intake, MessagingController and EndpointResources in Dafny

This project models three parts of the Alexa Voice Service device SDK:

- **`EndpointResources`** (module `Endpoint`). This is the fluent builder that collects an
  endpoint's friendly names, manufacturer name and description as labels. A label is either
  a text with a locale or an asset id. The builder checks every label as it is added and
  notes any error in a sticky validity flag. It serialises itself only when it is valid and
  complete. Each `add*` method is a pure function from the builder before the call to the
  builder after it.
- **`MessagingCapabilityAgent`** (modules `MessagingTypes` and `MessagingAgent`). The first
  module holds the header's enums, the default `MessagingEndpointState` and the
  enum-to-string conversions. The second holds the directive handler configuration, the
  dispatch of `SendMessage`, `UpdateMessagesStatus` and `UploadConversations`, and their
  ordered field checks over the parsed JSON payload. It also holds the observer set, the
  per-endpoint state map, and the events the agent sends back.
- **`DirectiveSequencer`** (module `DirectiveSequencer`). This is the thread-safe front door
  of the directive pipeline. It accepts directives into a receiving queue, and a receiving
  loop forwards them one at a time to the directive processor. Every section the source runs
  under its mutex becomes one atomic transition on an immutable record. The processor and
  the router appear only as two answers ("did you handle it?") and a log of the calls made
  on them. A model-only `accepted` history lets the intake order be stated.

Three support modules complete the project:

- `Optional` holds the `Option` and `Result` types.
- `Json` is a parsed JSON value, with the `findNode` and `retrieveValue` lookups the agent
  uses.
- `AvsCommon` holds the directive record, the exception kinds and the blocking policy.

Parsing JSON text is never modelled. Where the agent parses a payload, the parser is a
parameter `parse: string -> Option<Json>`.

The receiving loop forwards each directive to the directive processor. A build that defines
`DIALOG_REQUEST_ID_IN_ALL_RESPONSE_DIRECTIVES` instead sends a directive with an empty dialog
request id straight to the router. A comment next to that switch explains that response
directives were expected to carry the dialog request id of their Recognize event, and in
practice do not. The model keeps both builds, as a flag `bypassForEmptyDialogRequestId`
that defaults to the standard build (`DirectiveSequencer.DefaultBuildUsesProcessor`).

The `EndpointResources` header documents each text as holding "up to 128 valid characters",
but the code compares `std::string::length()` with 128, which counts bytes. The model
follows the code: it counts the bytes of the UTF-8 encoding (`Endpoint.ByteLength`). So
100 copies of "é" (200 bytes) are refused, although they are only 100 characters
(`Endpoint.TextLimitCountsBytes`).

## Model

| member | source | states |
|---|---|---|
| Endpoint.SameLabelIgnoresType | AVSCommon/AVS/src/EndpointResources.cpp:48-50 | Label equality compares only value and locale: two labels differing only in type are equal, and an absent locale equals "". |
| Endpoint.SameLabelIsEquivalence | AVSCommon/AVS/src/EndpointResources.cpp:48-50 | Label equality is reflexive, symmetric and transitive, so a search with it is well defined. |
| Endpoint.Find | AVSCommon/AVS/src/EndpointResources.cpp:59-63 | The `std::find` search returns the first index whose label is equal, or the end position when none is. |
| Endpoint.FindIsListed | AVSCommon/AVS/src/EndpointResources.cpp:88-92 | The search finds a label exactly when some friendly name is equal to it. |
| Endpoint.ByteLength | AVSCommon/AVS/src/EndpointResources.cpp:78 | The length the limits compare is the UTF-8 byte count: zero only for the empty string, and between one and four bytes per character. |
| Endpoint.AsciiByteLength | AVSCommon/AVS/src/EndpointResources.cpp:126 | For ASCII text the byte count equals the number of characters. |
| Endpoint.TextLimitCountsBytes | AVSCommon/AVS/src/EndpointResources.cpp:78-82 | 100 two-byte characters are refused although the header documents a 128-character limit, while 128 ASCII characters are accepted. |
| Endpoint.Create | AVSCommon/AVS/include/AVSCommon/AVS/EndpointResources.h:171-181 | A new builder has its flag set, no friendly names and empty manufacturer and description values, so it is not valid. |
| Endpoint.AddFriendlyNameWithAssetId | AVSCommon/AVS/src/EndpointResources.cpp:52-72 | An empty or duplicate asset id clears the flag and appends nothing. Any other id is appended at the end as an asset label, and nothing else changes. |
| Endpoint.AddFriendlyNameWithText | AVSCommon/AVS/src/EndpointResources.cpp:74-103 | Empty text, text over 128 bytes, or an empty locale, clears the flag and appends nothing. A duplicate (text, locale) leaves the builder entirely unchanged. Anything else is appended at the end as a text label. |
| Endpoint.AddWithAssetId | AVSCommon/AVS/src/EndpointResources.cpp:105-120 | The flag survives iff it was set, the id is non-empty and the slot was empty. A set slot is never overwritten. An empty slot takes the asset label. |
| Endpoint.AddWithText | AVSCommon/AVS/src/EndpointResources.cpp:122-142 | The flag survives iff it was set, the text is 1 to 128 bytes long, the locale is non-empty and the slot was empty. An empty slot takes the label even when the text or locale is bad. |
| Endpoint.AddManufacturerNameWithAssetId | AVSCommon/AVS/src/EndpointResources.cpp:105-120 | The manufacturer name can be set once. A second call, or an empty id, clears the flag and keeps the stored label. |
| Endpoint.AddManufacturerNameWithText | AVSCommon/AVS/src/EndpointResources.cpp:122-142 | Bad text or locale clears the flag and still stores the label if none was set. A second call clears the flag and keeps the stored label. |
| Endpoint.AddDescriptionWithAssetId | AVSCommon/AVS/src/EndpointResources.cpp:145-159 | The same set-once rule for the description, with asset ids. |
| Endpoint.AddDescriptionWithText | AVSCommon/AVS/src/EndpointResources.cpp:161-181 | The same set-once rule for the description, with text; a bad label is stored but clears the flag. |
| Endpoint.LabelToJson | AVSCommon/AVS/src/EndpointResources.cpp:204-219 | A label's JSON form reads back as the same label whenever the label carries a locale exactly when it is text. |
| Endpoint.ParseLabelsRoundTrip | AVSCommon/AVS/src/EndpointResources.cpp:194-198 | The friendly-names array reads back as the same labels in insertion order. |
| Endpoint.Build | AVSCommon/AVS/src/EndpointResources.cpp:183-202 | Build yields nothing (the empty string) exactly when the builder is not valid: flag cleared, no friendly name, or an empty description or manufacturer name. Otherwise it yields an object with exactly the three members and one array element per friendly name. |
| Endpoint.BuildRoundTrip | AVSCommon/AVS/src/EndpointResources.cpp:188-202 | A built document reads back as exactly the builder's friendly names, manufacturer name and description. |
| Endpoint.CreateInv | AVSCommon/AVS/src/EndpointResources.cpp:45-46 | The constructor establishes the builder invariant. |
| Endpoint.AppendKeepsDistinct | AVSCommon/AVS/src/EndpointResources.cpp:59-69 | Appending a label only after the search found no equal one keeps the friendly names pairwise distinct. |
| Endpoint.ApplyKeepsInv | AVSCommon/AVS/src/EndpointResources.cpp:52-181 | Every `add*` call keeps the invariant: friendly names well formed and distinct; the single labels unset or well formed while the flag is set. |
| Endpoint.ApplyAllKeepsInv | AVSCommon/AVS/src/EndpointResources.cpp:52-181 | Every chain of `add*` calls keeps the invariant. |
| Endpoint.FlagIsMonotone | AVSCommon/AVS/src/EndpointResources.cpp:45-181 | No call sets the flag back once it is cleared, so a builder that noted an error never becomes valid. |
| Endpoint.BuiltDocumentIsChecked | AVSCommon/AVS/include/AVSCommon/AVS/EndpointResources.h:117-124 | Any valid builder reached from the constructor holds only labels that passed their checks (non-empty, text of at most 128 bytes, non-empty locale) and builds into a document that reads back as its contents. |
| Endpoint.DuplicatesAreIdentical | AVSCommon/AVS/include/AVSCommon/AVS/EndpointResources.h:147-148 | Because text labels always carry a non-empty locale and asset labels none, a well-formed label is a duplicate exactly when an identical label is stored. |
| MessagingTypes.DefaultEndpointState | CapabilityAgents/Messaging/include/Messaging/MessagingCapabilityAgent.h:110-113 | The default endpoint state is disconnected, with send and read permission off. |
| MessagingTypes.MessagingEndpointToString | CapabilityAgents/Messaging/include/Messaging/MessagingCapabilityAgent.h:432-439 | DEFAULT converts to "DEFAULT". |
| MessagingTypes.StatusErrorCodeToString | CapabilityAgents/Messaging/include/Messaging/MessagingCapabilityAgent.h:447-458 | Each declared code converts to one of its three names and never to "UNKNOWN". |
| MessagingTypes.UploadModeToString | CapabilityAgents/Messaging/include/Messaging/MessagingCapabilityAgent.h:466-473 | DELETE_ALL_AND_STORE converts to "DELETE_ALL_AND_STORE". |
| MessagingTypes.ConnectionStateToString | CapabilityAgents/Messaging/include/Messaging/MessagingCapabilityAgent.h:481-490 | A connection state converts to "CONNECTED" or "DISCONNECTED", never "UNKNOWN". |
| MessagingTypes.PermissionStateToString | CapabilityAgents/Messaging/include/Messaging/MessagingCapabilityAgent.h:498-507 | A permission state converts to "ON" or "OFF", never "UNKNOWN". |
| MessagingTypes.ToStringRoundTrips | CapabilityAgents/Messaging/include/Messaging/MessagingCapabilityAgent.h:432-507 | Every conversion is undone by parsing its string back, and no parser accepts "UNKNOWN". |
| MessagingTypes.ToStringInjective | CapabilityAgents/Messaging/include/Messaging/MessagingCapabilityAgent.h:447-507 | Distinct status codes, connection states and permission states convert to distinct strings. |
| MessagingAgent.GetConfiguration | CapabilityAgents/Messaging/src/MessagingCapabilityAgent.cpp:221-230 | The configuration covers exactly SendMessage, UpdateMessagesStatus and UploadConversations, each with no mediums and non-blocking. |
| MessagingAgent.ConfigurationMatchesDispatch | CapabilityAgents/Messaging/src/MessagingCapabilityAgent.cpp:297-313 | A directive of the namespace is configured exactly when the dispatch knows its name. |
| MessagingAgent.FirstFailing | CapabilityAgents/Messaging/src/MessagingCapabilityAgent.cpp:410-449 | The reported check is the first one in the list the payload fails; there is none exactly when all pass. |
| MessagingAgent.FirstFailingInOrder | CapabilityAgents/Messaging/src/MessagingCapabilityAgent.cpp:410-449 | The checks run token, then endpoint info, then name, then (UpdateMessagesStatus only) conversationId, then statusMap. |
| MessagingAgent.ValidateTokenAndEndpoint | CapabilityAgents/Messaging/src/MessagingCapabilityAgent.cpp:365-388 | The shared checks fail iff the token, the endpoint info or the name check fails. The message is that of the first failing one. Success carries the payload's token and DEFAULT. |
| MessagingAgent.ValidateDirective | CapabilityAgents/Messaging/src/MessagingCapabilityAgent.cpp:357-507 | A directive fails exactly when some check fails, with the message of the first failing one. It succeeds with the payload's token and the DEFAULT endpoint. |
| MessagingAgent.ValidationConditions | CapabilityAgents/Messaging/src/MessagingCapabilityAgent.cpp:365-388 | SendMessage and UploadConversations pass iff the token is a non-empty string and `messagingEndpointInfo.name` is "DEFAULT". UpdateMessagesStatus also needs a non-empty conversationId and an object statusMap. |
| MessagingAgent.HandleDirective | CapabilityAgents/Messaging/src/MessagingCapabilityAgent.cpp:280-317 | A missing info is dropped. An unparsable payload, an unknown name or a failed check fails with UNEXPECTED_INFORMATION_RECEIVED and its message. A directive is accepted iff it parses, is known and passes every check; it then carries its non-empty token, DEFAULT and the raw payload. |
| MessagingAgent.Initialize | CapabilityAgents/Messaging/src/MessagingCapabilityAgent.cpp:182-194 | Initialisation seeds the DEFAULT entry with the default state and leaves an existing entry alone. |
| MessagingAgent.Create | CapabilityAgents/Messaging/src/MessagingCapabilityAgent.cpp:144-170 | No agent without an exception sender, context manager and message sender. Otherwise the agent has no observers and only the DEFAULT endpoint in its default state. |
| MessagingAgent.AddObserver | CapabilityAgents/Messaging/src/MessagingCapabilityAgent.cpp:323-331 | A null observer changes nothing; any other is inserted and no other observer changes. |
| MessagingAgent.RemoveObserver | CapabilityAgents/Messaging/src/MessagingCapabilityAgent.cpp:333-341 | A null observer changes nothing; any other is erased and no other observer changes. |
| MessagingAgent.ObserverSetLaws | CapabilityAgents/Messaging/src/MessagingCapabilityAgent.cpp:323-341 | Adding twice is adding once. Adding an unregistered observer and then removing it gives back the original agent. |
| MessagingAgent.UpdateMessagingEndpointState | CapabilityAgents/Messaging/src/MessagingCapabilityAgent.cpp:645-653 | The given endpoint's entry is overwritten and every other entry is kept. |
| MessagingAgent.EndpointStatesStayDefault | CapabilityAgents/Messaging/src/MessagingCapabilityAgent.cpp:648-651 | After any updates the map still holds only DEFAULT, with the last state written. |
| MessagingAgent.NotifyObservers | CapabilityAgents/Messaging/src/MessagingCapabilityAgent.cpp:390-398 | Every observer in the copied set gets the callback exactly once, with (token, endpoint, raw payload). |
| MessagingAgent.ExecuteHandleDirective | CapabilityAgents/Messaging/src/MessagingCapabilityAgent.cpp:287-315 | A failure is reported once and notifies nobody. An accepted directive notifies every observer once, and then, if it has a result, sets completion; completion happens only then and only last. |
| MessagingAgent.NotifyAndComplete | CapabilityAgents/Messaging/src/MessagingCapabilityAgent.cpp:349-355 | Completion is set after all notifications, and only when the directive has a result. |
| MessagingAgent.SendMessageSucceeded | CapabilityAgents/Messaging/src/MessagingCapabilityAgent.cpp:521-539 | The event carries the token and the endpoint, both readable back, and no status. |
| MessagingAgent.SendMessageFailed | CapabilityAgents/Messaging/src/MessagingCapabilityAgent.cpp:541-567 | The event carries the token, the endpoint and the status code and message, all readable back. |
| MessagingAgent.UpdateMessagesStatusSucceeded | CapabilityAgents/Messaging/src/MessagingCapabilityAgent.cpp:569-589 | The event carries the token and the endpoint, both readable back, and no status. |
| MessagingAgent.UpdateMessagesStatusFailed | CapabilityAgents/Messaging/src/MessagingCapabilityAgent.cpp:591-617 | The event carries the token, the endpoint and the status code and message, all readable back. |
| MessagingAgent.ConversationsReport | CapabilityAgents/Messaging/src/MessagingCapabilityAgent.cpp:619-643 | The report carries the token, the endpoint, the upload mode and the conversations, all readable back. |
| MessagingAgent.ConversationsReportDefaults | CapabilityAgents/Messaging/include/Messaging/MessagingCapabilityAgent.h:252-256 | Without explicit arguments the report says DELETE_ALL_AND_STORE for the DEFAULT endpoint. |
| DirectiveSequencer.Create | ADSL/src/DirectiveSequencer.cpp:65-73 | There is no sequencer exactly when the exception sender is null. A new one is enabled, not shutting down, and has an empty queue. |
| DirectiveSequencer.CreateDirectiveSequencerInterface | ADSL/src/DirectiveSequencer.cpp:46-63 | There is no sequencer exactly when the exception sender or the shutdown notifier is null. |
| DirectiveSequencer.OnDirective | ADSL/src/DirectiveSequencer.cpp:91-109 | A directive is accepted iff it is non-null and the sequencer is enabled and not shutting down. A refused one changes nothing; an accepted one goes to the back of the queue. |
| DirectiveSequencer.Disable | ADSL/src/DirectiveSequencer.cpp:144-151 | Disabling clears the processor's dialog request id and then disables it. Queued directives stay queued. |
| DirectiveSequencer.Enable | ADSL/src/DirectiveSequencer.cpp:153-159 | Enabling sets the flag and re-enables the processor; nothing else changes. |
| DirectiveSequencer.SetDialogRequestId | ADSL/src/DirectiveSequencer.cpp:83-85 | The id is handed to the processor; nothing else changes. |
| DirectiveSequencer.Shutdown | ADSL/src/DirectiveSequencer.cpp:129-142 | Shutdown sets the flag, shuts down the processor and then the router, and drops the exception sender. Nothing else changes: the queue stays undrained. |
| DirectiveSequencer.ReceiveDirectiveLocked | ADSL/src/DirectiveSequencer.cpp:181-216 | An empty queue is a no-op. Otherwise exactly the front directive is removed and forwarded (to the processor in the default build), and it is reported once as "Unsupported operation" with its unparsed text iff its receiver did not handle it. |
| DirectiveSequencer.ReceivingLoopStep | ADSL/src/DirectiveSequencer.cpp:161-179 | Once shutting down, or with an empty queue, a wake of the loop changes nothing. Otherwise it removes the front directive and forwards it, and reports it iff it was not handled; nothing else changes. |
| DirectiveSequencer.NewSequencerInv | ADSL/src/DirectiveSequencer.cpp:111-127 | The constructor establishes the intake invariant. |
| DirectiveSequencer.StepKeepsInv | ADSL/src/DirectiveSequencer.cpp:91-216 | Every call and every loop wake keeps the intake invariant. |
| DirectiveSequencer.RunKeepsInv | ADSL/src/DirectiveSequencer.cpp:91-216 | Every interleaving of calls and loop wakes keeps the intake invariant. |
| DirectiveSequencer.ReceiveKeepsInv | ADSL/src/DirectiveSequencer.cpp:181-214 | Receiving one directive moves it from the front of the queue to the end of the forwarded list and adds its report iff unhandled. |
| DirectiveSequencer.IntakeIsFifo | ADSL/src/DirectiveSequencer.cpp:181-187 | From construction, the forwarded directives followed by the queue are exactly the accepted ones in acceptance order. The exception reports are exactly one per forwarded directive its receiver did not handle. |
| DirectiveSequencer.ShutdownIsSticky | ADSL/src/DirectiveSequencer.cpp:166-171 | After shutdown, no call or wake accepts, forwards or reports anything, and the queued directives stay queued. |
| DirectiveSequencer.DrainIsInOrder | ADSL/src/DirectiveSequencer.cpp:182-186 | With nothing else in between, n wakes forward exactly the first n queued directives, front first, and leave the rest queued. |
| DirectiveSequencer.DefaultBuildUsesProcessor | ADSL/src/DirectiveSequencer.cpp:200-208 | In the default build every directive goes to the processor. Only the alternate build sends those with an empty dialog request id to the router. |

## Left out

- Threads, mutexes, condition variables, `join` and the agent's executor are left out. Each locked section, and each task the agent submits, is one atomic transition.
- DirectiveSequencer.ReceiveDirectiveLocked: the source releases the mutex while forwarding, so other calls may interleave with one forwarding step. The model makes the whole step atomic.
- Power-resource acquire and release, logging, and the `StopCapture`/`Speak` dequeue metric are left out; none of them changes behaviour.
- The directive processor and the directive router (per-session ordering, blocking policies, the handler registry) are not part of this model. Whether each handles a directive is a parameter, and the calls made on them are logged. That parameter is fixed for the whole run, independent of the enable/disable state, so the model cannot express a processor that refuses directives handed to it after `disable`; the report half of `DirectiveSequencer.IntakeIsFifo` rests on this.
- `addDirectiveHandler`, `removeDirectiveHandler` and `getDialogRequestId` of the sequencer only delegate to the router or processor, which are not part of this model.
- DirectiveSequencer.CreateDirectiveSequencerInterface: the registration with the shutdown notifier is not modelled. Shutdown is an explicit transition instead.
- rapidjson parsing is a parameter. `findNode` and `retrieveValue` are modelled as member lookups on a parsed value. The jsonUtils sources are not part of this model.
- Json.RetrieveString: the jsonUtils source is not part of this model. The model assumes `retrieveValue` into a string succeeds only on a JSON string member; if the SDK also converted other values, an object-valued `token` or `name` would be treated differently.
- JsonGenerator's text output is not modelled. Labels, documents and events are structured JSON values, stated through reading them back.
- MessagingAgent.ConversationsReport: the conversations argument is a raw JSON string in the source; the model takes it as an already-parsed value.
- `sendExceptionEncounteredAndReportFailed` comes from the `CapabilityAgent` base class, which is not part of this model. It is one "reported failure" effect with its message and kind.
- `handleDirectiveImmediately` is the same as `handleDirective` with no result. That is the `hasResult` flag of `DirectiveInfo`.
- `removeDirective`, `cancelDirective` and `preHandleDirective` are left out. They are bookkeeping in the base class, or no-ops.
- The agent's context and capability JSON are left out: `generateCapabilityConfiguration`, `buildMessagingEndpointConfigurationJson`, `executeUpdateMessagingEndpointContext`, `provideState` and `getCapabilityConfigurations`. So are its `doShutdown` and its calls on the context manager and message sender. They are I/O towards collaborators that are not part of this model.
- The null check on each observer inside the notification loop is not modelled. `addObserver` never stores a null observer.
- `Label::toJson` returns "{}" for a type that is neither TEXT nor ASSET. The model's label type has only those two values, so that branch cannot arise.
- The C++ leaves the label type of an unset manufacturer name or description indeterminate. The model uses ASSET; no observable result depends on it.
- `Optional::valueOr` and `Optional::value` are not part of this model. An absent locale reads as "" in both places they are used.
- Text is assumed to be UTF-8 encoded, as the byte limits are counted on that encoding. A malformed byte sequence cannot be written as a Dafny string.
- RegistrationManager and DeviceSetup are left out: orchestration of external collaborators and pure declarations.
