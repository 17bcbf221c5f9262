/** The MessagingController capability agent: its fixed directive configuration, the
    validation and dispatch of its three directives, the observer set it notifies, the
    per-endpoint state map, and the events it sends back.

    Parsing a payload is done by rapidjson in the source and is a parameter here
    (`parse`); the executor that serialises the work is left out, so each submitted task
    is one function or method call. */
module MessagingAgent {
  import opened Optional
  import opened Json
  import opened AvsCommon
  import opened MessagingTypes

  /** The MessagingController interface namespace. */
  const Namespace: string := "Alexa.Comms.MessagingController"

  const SendMessage: NamespaceAndName := NamespaceAndName(Namespace, "SendMessage")
  const UpdateMessagesStatus: NamespaceAndName := NamespaceAndName(Namespace, "UpdateMessagesStatus")
  const UploadConversations: NamespaceAndName := NamespaceAndName(Namespace, "UploadConversations")

  /** The policy every messaging directive is registered with: no mediums, not blocking. */
  const NoneNonBlocking: BlockingPolicy := BlockingPolicy(MediumsNone, false)

  /** `getConfiguration`: exactly the three directives, each with the non-blocking policy. */
  function GetConfiguration(): (config: map<NamespaceAndName, BlockingPolicy>)
    ensures config.Keys == {SendMessage, UpdateMessagesStatus, UploadConversations}
    ensures forall k | k in config :: config[k].mediums == {} && !config[k].isBlocking
  {
    map[SendMessage := NoneNonBlocking, UpdateMessagesStatus := NoneNonBlocking,
        UploadConversations := NoneNonBlocking]
  }

  // ---------------------------------------------------------------------------------------
  // Directive validation

  /** The observer callback a directive leads to. */
  datatype Callback = SendMessageCallback | UpdateMessagesStatusCallback | UploadConversationsCallback

  /** The dispatch in `handleDirective`, which compares the directive name only. */
  function CallbackFor(name: string): Option<Callback> {
    if name == SendMessage.name then Some(SendMessageCallback)
    else if name == UpdateMessagesStatus.name then Some(UpdateMessagesStatusCallback)
    else if name == UploadConversations.name then Some(UploadConversationsCallback)
    else None
  }

  /** The configuration and the dispatch agree: a directive of this namespace is configured
      exactly when `handleDirective` knows its name. */
  lemma ConfigurationMatchesDispatch(name: string)
    ensures NamespaceAndName(Namespace, name) in GetConfiguration() <==> CallbackFor(name).Some?
  {
  }

  const UnparsablePayload: string := "Unable to parse payload"
  const UnexpectedDirective: string := "Unexpected Directive"
  const TokenNotFound: string := "'token' is not found or empty."
  const EndpointInfoNotFound: string := "'messagingEndpointInfo' is not found."
  const EndpointNameInvalid: string := "'name' value is invalid."
  const ConversationIdNotFound: string := "'conversationId' is not found or empty."
  const StatusMapNotFound: string := "'statusMap' is not found."

  /** What a validated directive hands to the observers. */
  datatype Request = Request(token: string, endpoint: MessagingEndpoint)

  /** The field checks, named so that their order can be stated on its own. */
  datatype Check = TokenCheck | EndpointInfoCheck | EndpointNameCheck | ConversationIdCheck | StatusMapCheck

  /** `messagingEndpointInfo.name`, when `messagingEndpointInfo` is an object holding a
      string `name`. */
  function EndpointName(p: Json): Option<string> {
    match FindNode(p, "messagingEndpointInfo")
    case Some(info) => if info.JObj? then RetrieveString(info, "name") else None
    case None => None
  }

  /** A member that is a non-empty string. */
  predicate HasNonEmptyString(p: Json, key: string) {
    RetrieveString(p, key).Some? && RetrieveString(p, key).value != ""
  }

  /** Each check's condition, stated on the payload alone. */
  predicate Passes(c: Check, p: Json) {
    match c
    case TokenCheck => HasNonEmptyString(p, "token")
    case EndpointInfoCheck => EndpointName(p).Some?
    case EndpointNameCheck => EndpointName(p) == Some("DEFAULT")
    case ConversationIdCheck => HasNonEmptyString(p, "conversationId")
    case StatusMapCheck => FindNode(p, "statusMap").Some? && FindNode(p, "statusMap").value.JObj?
  }

  function FailureMessage(c: Check): string {
    match c
    case TokenCheck => TokenNotFound
    case EndpointInfoCheck => EndpointInfoNotFound
    case EndpointNameCheck => EndpointNameInvalid
    case ConversationIdCheck => ConversationIdNotFound
    case StatusMapCheck => StatusMapNotFound
  }

  /** The checks each directive runs, in the order it runs them. */
  function ChecksFor(callback: Callback): seq<Check> {
    match callback
    case UpdateMessagesStatusCallback =>
      [TokenCheck, EndpointInfoCheck, EndpointNameCheck, ConversationIdCheck, StatusMapCheck]
    case _ => [TokenCheck, EndpointInfoCheck, EndpointNameCheck]
  }

  /** The first check of `checks` the payload fails, if any. */
  function FirstFailing(checks: seq<Check>, p: Json): (r: Option<Check>)
    ensures r.None? <==> forall i | 0 <= i < |checks| :: Passes(checks[i], p)
    ensures r.Some? ==> exists i | 0 <= i < |checks| ::
              checks[i] == r.value && !Passes(r.value, p) && forall k | 0 <= k < i :: Passes(checks[k], p)
  {
    if |checks| == 0 then None
    else if !Passes(checks[0], p) then Some(checks[0])
    else FirstFailing(checks[1..], p)
  }

  /** The checks shared by all three directives: `token`, then `messagingEndpointInfo`,
      then its `name`. */
  function ValidateTokenAndEndpoint(p: Json): (r: Result<Request, string>)
    ensures r.Failure? <==> !Passes(TokenCheck, p) || !Passes(EndpointInfoCheck, p) || !Passes(EndpointNameCheck, p)
    ensures r.Failure? ==> r.error == if !Passes(TokenCheck, p) then TokenNotFound
                                      else if !Passes(EndpointInfoCheck, p) then EndpointInfoNotFound
                                      else EndpointNameInvalid
    ensures r.Success? ==> r.value == Request(RetrieveString(p, "token").value, Default)
  {
    var token := RetrieveString(p, "token");
    if token.None? || token.value == "" then Failure(TokenNotFound)
    else
      var info := FindNode(p, "messagingEndpointInfo");
      if info.None? || !info.value.JObj? || RetrieveString(info.value, "name").None? then
        Failure(EndpointInfoNotFound)
      else if RetrieveString(info.value, "name").value == "DEFAULT" then Success(Request(token.value, Default))
      else Failure(EndpointNameInvalid)
  }

  /** The first failing check of a directive's list, unrolled in the list's order. */
  lemma FirstFailingInOrder(callback: Callback, p: Json)
    ensures FirstFailing(ChecksFor(callback), p) ==
      if !Passes(TokenCheck, p) then Some(TokenCheck)
      else if !Passes(EndpointInfoCheck, p) then Some(EndpointInfoCheck)
      else if !Passes(EndpointNameCheck, p) then Some(EndpointNameCheck)
      else if callback != UpdateMessagesStatusCallback then None
      else if !Passes(ConversationIdCheck, p) then Some(ConversationIdCheck)
      else if !Passes(StatusMapCheck, p) then Some(StatusMapCheck)
      else None
  {
    var tail := if callback == UpdateMessagesStatusCallback then [ConversationIdCheck, StatusMapCheck] else [];
    assert ChecksFor(callback) == [TokenCheck] + ([EndpointInfoCheck] + ([EndpointNameCheck] + tail));
    FirstFailingCons(TokenCheck, [EndpointInfoCheck] + ([EndpointNameCheck] + tail), p);
    FirstFailingCons(EndpointInfoCheck, [EndpointNameCheck] + tail, p);
    FirstFailingCons(EndpointNameCheck, tail, p);
    if callback == UpdateMessagesStatusCallback {
      assert tail == [ConversationIdCheck] + ([StatusMapCheck] + []);
      FirstFailingCons(ConversationIdCheck, [StatusMapCheck] + [], p);
      FirstFailingCons(StatusMapCheck, [], p);
    }
  }

  lemma FirstFailingCons(c: Check, rest: seq<Check>, p: Json)
    ensures FirstFailing([c] + rest, p) == if !Passes(c, p) then Some(c) else FirstFailing(rest, p)
  {
    assert ([c] + rest)[1..] == rest;
  }

  /** The validation half of `executeSendMessageDirective`,
      `executeUpdateMessagesStatusDirective` and `executeUploadConversationsDirective`.
      It reports the message of the first failing check, in the directive's fixed order,
      and succeeds with the payload's token exactly when every check passes. */
  function ValidateDirective(callback: Callback, p: Json): (r: Result<Request, string>)
    ensures r.Failure? <==> FirstFailing(ChecksFor(callback), p).Some?
    ensures r.Failure? ==> r.error == FailureMessage(FirstFailing(ChecksFor(callback), p).value)
    ensures r.Success? ==> r.value == Request(RetrieveString(p, "token").value, Default)
  {
    FirstFailingInOrder(callback, p);
    match callback
    case UpdateMessagesStatusCallback =>
      (match ValidateTokenAndEndpoint(p)
       case Failure(m) => Failure(m)
       case Success(req) =>
         if !HasNonEmptyString(p, "conversationId") then Failure(ConversationIdNotFound)
         else if FindNode(p, "statusMap").None? || !FindNode(p, "statusMap").value.JObj? then Failure(StatusMapNotFound)
         else Success(req))
    case _ => ValidateTokenAndEndpoint(p)
  }

  /** SendMessage and UploadConversations pass exactly when the token is a non-empty string
      and `messagingEndpointInfo.name` is the string "DEFAULT"; UpdateMessagesStatus also
      needs a non-empty `conversationId` and an object `statusMap`. */
  lemma ValidationConditions(p: Json)
    ensures ValidateDirective(SendMessageCallback, p).Success? <==>
              HasNonEmptyString(p, "token") && EndpointName(p) == Some("DEFAULT")
    ensures ValidateDirective(UploadConversationsCallback, p).Success? <==>
              HasNonEmptyString(p, "token") && EndpointName(p) == Some("DEFAULT")
    ensures ValidateDirective(UpdateMessagesStatusCallback, p).Success? <==>
              && HasNonEmptyString(p, "token") && EndpointName(p) == Some("DEFAULT")
              && HasNonEmptyString(p, "conversationId")
              && FindNode(p, "statusMap").Some? && FindNode(p, "statusMap").value.JObj?
  {
    assert ChecksFor(SendMessageCallback)[2] == EndpointNameCheck;
    assert ChecksFor(UploadConversationsCallback)[2] == EndpointNameCheck;
    assert ChecksFor(UpdateMessagesStatusCallback)[2] == EndpointNameCheck;
    assert ChecksFor(UpdateMessagesStatusCallback)[3] == ConversationIdCheck;
    assert ChecksFor(UpdateMessagesStatusCallback)[4] == StatusMapCheck;
  }

  // ---------------------------------------------------------------------------------------
  // Directive handling

  /** A `DirectiveInfo`: the directive and whether it carries a result to report to
      (`handleDirectiveImmediately` passes none). */
  datatype DirectiveInfo = DirectiveInfo(directive: Directive, hasResult: bool)

  /** What `handleDirective` decides for one directive. */
  datatype Outcome =
    | Dropped
    | Failed(message: string, errorType: ExceptionErrorType)
    | Accepted(callback: Callback, token: string, endpoint: MessagingEndpoint, payload: string)

  /** `handleDirective`: a missing info is dropped; an unparsable payload or an unknown name
      fails with UNEXPECTED_INFORMATION_RECEIVED; a known directive fails with the message
      of its first failing check, or else is accepted with the payload's token, the DEFAULT
      endpoint and the raw payload text for the observers. */
  function HandleDirective(info: Option<DirectiveInfo>, parse: string -> Option<Json>): (o: Outcome)
    ensures o.Dropped? <==> info.None?
    ensures o.Failed? ==> o.errorType == UnexpectedInformationReceived
    ensures info.Some? && parse(info.value.directive.payload).None? ==> o == Failed(UnparsablePayload, UnexpectedInformationReceived)
    ensures info.Some? && parse(info.value.directive.payload).Some? && CallbackFor(info.value.directive.name).None? ==>
              o == Failed(UnexpectedDirective, UnexpectedInformationReceived)
    ensures info.Some? && parse(info.value.directive.payload).Some? && CallbackFor(info.value.directive.name).Some?
            && FirstFailing(ChecksFor(CallbackFor(info.value.directive.name).value),
                            parse(info.value.directive.payload).value).Some? ==>
              o == Failed(FailureMessage(FirstFailing(ChecksFor(CallbackFor(info.value.directive.name).value),
                                                      parse(info.value.directive.payload).value).value),
                          UnexpectedInformationReceived)
    ensures o.Accepted? <==>
              && info.Some?
              && parse(info.value.directive.payload).Some?
              && CallbackFor(info.value.directive.name).Some?
              && FirstFailing(ChecksFor(CallbackFor(info.value.directive.name).value),
                              parse(info.value.directive.payload).value).None?
    ensures o.Accepted? ==>
              && o.callback == CallbackFor(info.value.directive.name).value
              && o.token != ""
              && FindNode(parse(info.value.directive.payload).value, "token") == Some(JStr(o.token))
              && o.endpoint == Default
              && o.payload == info.value.directive.payload
  {
    match info
    case None => Dropped
    case Some(i) =>
      match parse(i.directive.payload)
      case None => Failed(UnparsablePayload, UnexpectedInformationReceived)
      case Some(p) =>
        match CallbackFor(i.directive.name)
        case None => Failed(UnexpectedDirective, UnexpectedInformationReceived)
        case Some(cb) =>
          match ValidateDirective(cb, p)
          case Failure(m) => Failed(m, UnexpectedInformationReceived)
          case Success(req) => Accepted(cb, req.token, req.endpoint, i.directive.payload)
  }

  // ---------------------------------------------------------------------------------------
  // Agent state, observers and effects

  /** An observer, identified by the object it refers to. */
  type ObserverId = nat

  /** The agent's state: registered observers and the state of each messaging endpoint,
      keyed by the endpoint's string form. */
  datatype Agent = Agent(observers: set<ObserverId>, endpointStates: map<string, MessagingEndpointState>)

  /** `initialize`: seeds the DEFAULT endpoint with the default state (`emplace` leaves an
      existing entry alone). */
  function Initialize(a: Agent): (a': Agent)
    ensures a'.observers == a.observers
    ensures "DEFAULT" !in a.endpointStates ==>
              a'.endpointStates == a.endpointStates["DEFAULT" := DefaultEndpointState()]
    ensures "DEFAULT" in a.endpointStates ==> a'.endpointStates == a.endpointStates
  {
    var key := MessagingEndpointToString(Default);
    if key in a.endpointStates then a
    else a.(endpointStates := a.endpointStates[key := DefaultEndpointState()])
  }

  /** `create`: no agent when any collaborator is missing; otherwise a fresh agent with no
      observers and only the DEFAULT endpoint, in its default state. */
  function Create(hasExceptionSender: bool, hasContextManager: bool, hasMessageSender: bool): (a: Option<Agent>)
    ensures a.Some? <==> hasExceptionSender && hasContextManager && hasMessageSender
    ensures a.Some? ==> a.value.observers == {}
    ensures a.Some? ==> a.value.endpointStates == map["DEFAULT" := MessagingEndpointState(Disconnected, Off, Off)]
  {
    if !hasContextManager then None
    else if !hasExceptionSender then None
    else if !hasMessageSender then None
    else Some(Initialize(Agent({}, map[])))
  }

  /** `addObserver`: a null observer is ignored; otherwise set insertion. */
  function AddObserver(a: Agent, observer: Option<ObserverId>): (a': Agent)
    ensures a'.endpointStates == a.endpointStates
    ensures observer.None? ==> a'.observers == a.observers
    ensures observer.Some? ==> observer.value in a'.observers && a'.observers - {observer.value} == a.observers - {observer.value}
  {
    match observer
    case None => a
    case Some(o) => a.(observers := a.observers + {o})
  }

  /** `removeObserver`: a null observer is ignored; otherwise set erasure. */
  function RemoveObserver(a: Agent, observer: Option<ObserverId>): (a': Agent)
    ensures a'.endpointStates == a.endpointStates
    ensures observer.None? ==> a'.observers == a.observers
    ensures observer.Some? ==> observer.value !in a'.observers && a'.observers + {observer.value} == a.observers + {observer.value}
  {
    match observer
    case None => a
    case Some(o) => a.(observers := a.observers - {o})
  }

  /** Adding is idempotent, and removing an observer that was not registered after adding
      it gives back the original set. */
  lemma ObserverSetLaws(a: Agent, o: ObserverId)
    ensures AddObserver(AddObserver(a, Some(o)), Some(o)) == AddObserver(a, Some(o))
    ensures o !in a.observers ==> RemoveObserver(AddObserver(a, Some(o)), Some(o)) == a
    ensures o in a.observers ==> AddObserver(a, Some(o)) == a
  {
  }

  /** `updateMessagingEndpointState`: overwrites the entry of the given endpoint (DEFAULT
      unless stated) and leaves every other entry alone. */
  function UpdateMessagingEndpointState(a: Agent, st: MessagingEndpointState,
                                        endpoint: MessagingEndpoint := Default): (a': Agent)
    ensures a'.observers == a.observers
    ensures a'.endpointStates.Keys == a.endpointStates.Keys + {MessagingEndpointToString(endpoint)}
    ensures a'.endpointStates[MessagingEndpointToString(endpoint)] == st
    ensures forall k | k in a.endpointStates && k != MessagingEndpointToString(endpoint) ::
              a'.endpointStates[k] == a.endpointStates[k]
  {
    a.(endpointStates := a.endpointStates[MessagingEndpointToString(endpoint) := st])
  }

  /** An agent made by `create` only ever holds the DEFAULT endpoint, whatever updates follow. */
  lemma {:induction false} EndpointStatesStayDefault(a: Agent, updates: seq<MessagingEndpointState>)
    requires a.endpointStates.Keys == {"DEFAULT"}
    ensures ApplyUpdates(a, updates).endpointStates.Keys == {"DEFAULT"}
    ensures |updates| > 0 ==> ApplyUpdates(a, updates).endpointStates["DEFAULT"] == updates[|updates| - 1]
    decreases |updates|
  {
    if |updates| > 0 {
      EndpointStatesStayDefault(UpdateMessagingEndpointState(a, updates[0]), updates[1..]);
      if |updates| == 1 {
        assert ApplyUpdates(UpdateMessagingEndpointState(a, updates[0]), updates[1..])
            == UpdateMessagingEndpointState(a, updates[0]);
      } else {
        assert updates[1..][|updates[1..]| - 1] == updates[|updates| - 1];
      }
    }
  }

  function ApplyUpdates(a: Agent, updates: seq<MessagingEndpointState>): Agent
    decreases |updates|
  {
    if |updates| == 0 then a else ApplyUpdates(UpdateMessagingEndpointState(a, updates[0]), updates[1..])
  }

  /** One observer callback: `sendMessage`, `updateMessagesStatus` or `uploadConversations`
      with (token, endpoint, raw payload). */
  datatype Notification = Notification(
    observer: ObserverId, callback: Callback, token: string, endpoint: MessagingEndpoint, payload: string)

  /** The observable effects of handling one directive, in order. */
  datatype Effect =
    | ReportedFailure(message: string, errorType: ExceptionErrorType)
    | Notified(notification: Notification)
    | HandlingCompleted

  /** The loop over the copied observer set: each observer gets the callback exactly once. */
  method NotifyObservers(observers: set<ObserverId>, callback: Callback, token: string,
                         endpoint: MessagingEndpoint, payload: string)
    returns (sent: seq<Notification>)
    ensures |sent| == |observers|
    ensures forall i | 0 <= i < |sent| ::
              sent[i].observer in observers && sent[i] == Notification(sent[i].observer, callback, token, endpoint, payload)
    ensures forall o | o in observers :: exists i | 0 <= i < |sent| :: sent[i].observer == o
    ensures forall i, j | 0 <= i < j < |sent| :: sent[i].observer != sent[j].observer
  {
    var remaining := observers;
    sent := [];
    while remaining != {}
      invariant remaining <= observers
      invariant |sent| + |remaining| == |observers|
      invariant forall i | 0 <= i < |sent| ::
                  sent[i].observer in observers - remaining
                  && sent[i] == Notification(sent[i].observer, callback, token, endpoint, payload)
      invariant forall o | o in observers - remaining :: exists i | 0 <= i < |sent| :: sent[i].observer == o
      invariant forall i, j | 0 <= i < j < |sent| :: sent[i].observer != sent[j].observer
      decreases remaining
    {
      var o :| o in remaining;
      var before, remainingBefore := sent, remaining;
      sent := sent + [Notification(o, callback, token, endpoint, payload)];
      remaining := remaining - {o};
      forall o' | o' in observers - remaining
        ensures exists i | 0 <= i < |sent| :: sent[i].observer == o'
      {
        if o' == o {
          assert sent[|before|].observer == o';
        } else {
          assert o' in observers - remainingBefore;
          var i :| 0 <= i < |before| && before[i].observer == o';
          assert sent[i] == before[i];
        }
      }
    }
    assert observers - remaining == observers;
  }

  /** The job `handleDirective` submits to its executor, with its effects: a failure is reported once and
      notifies nobody; an accepted directive notifies every observer exactly once and only
      then, if the directive has a result, marks it completed. */
  method ExecuteHandleDirective(a: Agent, info: Option<DirectiveInfo>, parse: string -> Option<Json>)
    returns (effects: seq<Effect>)
    ensures HandleDirective(info, parse).Dropped? ==> effects == []
    ensures HandleDirective(info, parse).Failed? ==>
              effects == [ReportedFailure(HandleDirective(info, parse).message, UnexpectedInformationReceived)]
    ensures HandleDirective(info, parse).Accepted? ==>
              var o := HandleDirective(info, parse);
              var n := |a.observers|;
              && |effects| == n + (if info.value.hasResult then 1 else 0)
              && (forall i | 0 <= i < n :: effects[i].Notified? && effects[i].notification.observer in a.observers)
              && (forall ob | ob in a.observers ::
                    exists i | 0 <= i < n :: effects[i] == Notified(Notification(ob, o.callback, o.token, o.endpoint, o.payload)))
              && (forall i, j | 0 <= i < j < n :: effects[i] != effects[j])
              && (info.value.hasResult ==> effects[n] == HandlingCompleted)
    ensures HandlingCompleted in effects ==> HandleDirective(info, parse).Accepted? && effects[|effects| - 1] == HandlingCompleted
  {
    var o := HandleDirective(info, parse);
    match o
    case Dropped =>
      effects := [];
    case Failed(m, t) =>
      effects := [ReportedFailure(m, t)];
    case Accepted(cb, token, endpoint, payload) =>
      effects := NotifyAndComplete(a.observers, cb, token, endpoint, payload, info.value.hasResult);
  }

  /** The success path: notify every observer, then set completion when there is a result. */
  method NotifyAndComplete(observers: set<ObserverId>, cb: Callback, token: string,
                           endpoint: MessagingEndpoint, payload: string, hasResult: bool)
    returns (effects: seq<Effect>)
    ensures |effects| == |observers| + (if hasResult then 1 else 0)
    ensures forall i | 0 <= i < |observers| :: effects[i].Notified? && effects[i].notification.observer in observers
    ensures forall ob | ob in observers ::
              exists i | 0 <= i < |observers| :: effects[i] == Notified(Notification(ob, cb, token, endpoint, payload))
    ensures forall i, j | 0 <= i < j < |observers| :: effects[i] != effects[j]
    ensures hasResult ==> effects[|observers|] == HandlingCompleted
    ensures HandlingCompleted in effects ==> hasResult && effects[|effects| - 1] == HandlingCompleted
  {
    var sent := NotifyObservers(observers, cb, token, endpoint, payload);
    var notified := AsEffects(sent);
    effects := if hasResult then notified + [HandlingCompleted] else notified;
    assert forall i | 0 <= i < |sent| :: effects[i] == notified[i];
    NotificationsReachEveryObserver(observers, sent, effects, cb, token, endpoint, payload);
    forall i, j | 0 <= i < j < |sent| ensures effects[i] != effects[j] {
      assert sent[i].observer != sent[j].observer;
    }
  }

  /** Each notification as an effect. */
  function AsEffects(sent: seq<Notification>): (effects: seq<Effect>)
    ensures |effects| == |sent|
    ensures forall i | 0 <= i < |sent| :: effects[i] == Notified(sent[i])
    ensures HandlingCompleted !in effects
  {
    seq(|sent|, i requires 0 <= i < |sent| => Notified(sent[i]))
  }

  lemma NotificationsReachEveryObserver(observers: set<ObserverId>, sent: seq<Notification>, effects: seq<Effect>,
                                        cb: Callback, token: string, endpoint: MessagingEndpoint, payload: string)
    requires |effects| >= |sent|
    requires forall i | 0 <= i < |sent| :: effects[i] == Notified(sent[i])
    requires forall i | 0 <= i < |sent| ::
               sent[i].observer in observers && sent[i] == Notification(sent[i].observer, cb, token, endpoint, payload)
    requires forall o | o in observers :: exists i | 0 <= i < |sent| :: sent[i].observer == o
    ensures forall ob | ob in observers ::
              exists i | 0 <= i < |sent| :: effects[i] == Notified(Notification(ob, cb, token, endpoint, payload))
  {
    forall ob | ob in observers
      ensures exists i | 0 <= i < |sent| :: effects[i] == Notified(Notification(ob, cb, token, endpoint, payload))
    {
      var i :| 0 <= i < |sent| && sent[i].observer == ob;
      assert effects[i] == Notified(Notification(ob, cb, token, endpoint, payload));
    }
  }

  // ---------------------------------------------------------------------------------------
  // Events sent back to the service

  /** An event: its name in the MessagingController namespace and its payload. */
  datatype Event = Event(namespace: string, name: string, payload: Json)

  function EndpointInfo(endpoint: MessagingEndpoint): Json {
    JObj(map["name" := JStr(MessagingEndpointToString(endpoint))])
  }

  function StatusJson(code: StatusErrorCode, message: string): Json {
    JObj(map["code" := JStr(StatusErrorCodeToString(code)), "message" := JStr(message)])
  }

  /** Reads the token of an event payload. */
  function EventToken(e: Event): Option<string> {
    RetrieveString(e.payload, "token")
  }

  /** Reads the endpoint of an event payload. */
  function EventEndpoint(e: Event): Option<MessagingEndpoint> {
    match EndpointName(e.payload)
    case Some(s) => MessagingEndpointFromString(s)
    case None => None
  }

  /** Reads the status of a failure event. */
  function EventStatus(e: Event): Option<(StatusErrorCode, string)> {
    match FindNode(e.payload, "status")
    case Some(st) =>
      (match (RetrieveString(st, "code"), RetrieveString(st, "message"))
       case (Some(c), Some(m)) =>
         (match StatusErrorCodeFromString(c)
          case Some(code) => Some((code, m))
          case None => None)
       case _ => None)
    case None => None
  }

  /** `sendMessageSucceeded`. */
  function SendMessageSucceeded(token: string, endpoint: MessagingEndpoint := Default): (e: Event)
    ensures e.namespace == Namespace && e.name == "SendMessageSucceeded"
    ensures EventToken(e) == Some(token) && EventEndpoint(e) == Some(endpoint) && EventStatus(e).None?
  {
    ToStringRoundTrips(endpoint, GenericFailure, DeleteAllAndStore, Disconnected, Off);
    Event(Namespace, "SendMessageSucceeded",
          JObj(map["messagingEndpointInfo" := EndpointInfo(endpoint), "token" := JStr(token)]))
  }

  /** `sendMessageFailed`. */
  function SendMessageFailed(token: string, code: StatusErrorCode, message: string,
                             endpoint: MessagingEndpoint := Default): (e: Event)
    ensures e.namespace == Namespace && e.name == "SendMessageFailed"
    ensures EventToken(e) == Some(token) && EventEndpoint(e) == Some(endpoint)
    ensures EventStatus(e) == Some((code, message))
  {
    ToStringRoundTrips(endpoint, code, DeleteAllAndStore, Disconnected, Off);
    Event(Namespace, "SendMessageFailed",
          JObj(map["messagingEndpointInfo" := EndpointInfo(endpoint), "token" := JStr(token),
                   "status" := StatusJson(code, message)]))
  }

  /** `updateMessagesStatusSucceeded`. */
  function UpdateMessagesStatusSucceeded(token: string, endpoint: MessagingEndpoint := Default): (e: Event)
    ensures e.namespace == Namespace && e.name == "UpdateMessagesStatusSucceeded"
    ensures EventToken(e) == Some(token) && EventEndpoint(e) == Some(endpoint) && EventStatus(e).None?
  {
    ToStringRoundTrips(endpoint, GenericFailure, DeleteAllAndStore, Disconnected, Off);
    Event(Namespace, "UpdateMessagesStatusSucceeded",
          JObj(map["messagingEndpointInfo" := EndpointInfo(endpoint), "token" := JStr(token)]))
  }

  /** `updateMessagesStatusFailed`. */
  function UpdateMessagesStatusFailed(token: string, code: StatusErrorCode, message: string,
                                      endpoint: MessagingEndpoint := Default): (e: Event)
    ensures e.namespace == Namespace && e.name == "UpdateMessagesStatusFailed"
    ensures EventToken(e) == Some(token) && EventEndpoint(e) == Some(endpoint)
    ensures EventStatus(e) == Some((code, message))
  {
    ToStringRoundTrips(endpoint, code, DeleteAllAndStore, Disconnected, Off);
    Event(Namespace, "UpdateMessagesStatusFailed",
          JObj(map["messagingEndpointInfo" := EndpointInfo(endpoint), "token" := JStr(token),
                   "status" := StatusJson(code, message)]))
  }

  /** Reads the upload mode of a conversations report. */
  function EventUploadMode(e: Event): Option<UploadMode> {
    match RetrieveString(e.payload, "uploadMode")
    case Some(s) => UploadModeFromString(s)
    case None => None
  }

  /** `conversationsReport`: the conversations array is embedded as given. */
  function ConversationsReport(token: string, conversations: Json, mode: UploadMode := DeleteAllAndStore,
                               endpoint: MessagingEndpoint := Default): (e: Event)
    ensures e.namespace == Namespace && e.name == "ConversationsReport"
    ensures EventToken(e) == Some(token) && EventEndpoint(e) == Some(endpoint)
    ensures EventUploadMode(e) == Some(mode)
    ensures FindNode(e.payload, "conversations") == Some(conversations)
  {
    ToStringRoundTrips(endpoint, GenericFailure, mode, Disconnected, Off);
    Event(Namespace, "ConversationsReport",
          JObj(map["messagingEndpointInfo" := EndpointInfo(endpoint), "token" := JStr(token),
                   "conversations" := conversations, "uploadMode" := JStr(UploadModeToString(mode))]))
  }

  /** Called with its defaults, a conversations report says DELETE_ALL_AND_STORE for the
      DEFAULT endpoint. */
  lemma ConversationsReportDefaults(token: string, conversations: Json)
    ensures EventUploadMode(ConversationsReport(token, conversations)) == Some(DeleteAllAndStore)
    ensures EventEndpoint(ConversationsReport(token, conversations)) == Some(Default)
    ensures FindNode(ConversationsReport(token, conversations).payload, "uploadMode") == Some(JStr("DELETE_ALL_AND_STORE"))
  {
  }
}
