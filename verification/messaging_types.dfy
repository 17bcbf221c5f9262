/** The value types of the MessagingController capability agent: its enums, the per-endpoint
    state record with its defaults, and the enum-to-string conversions used in events and
    context. Each conversion is paired with a parser and proved to round-trip, which also
    shows it is injective. */
module MessagingTypes {
  import opened Optional

  /** `MessagingObserverInterface::MessagingEndpoint`: a single endpoint, DEFAULT. */
  datatype MessagingEndpoint = Default

  /** `StatusErrorCode`. */
  datatype StatusErrorCode = GenericFailure | NoConnectivity | NoPermission

  /** `UploadMode`. */
  datatype UploadMode = DeleteAllAndStore

  /** `ConnectionState`. */
  datatype ConnectionState = Disconnected | Connected

  /** `PermissionState`. */
  datatype PermissionState = Off | On

  /** `MessagingEndpointState`. */
  datatype MessagingEndpointState = MessagingEndpointState(
    connection: ConnectionState,
    sendPermission: PermissionState,
    readPermission: PermissionState)

  /** The fallback the C++ conversions return for a value outside the enum. */
  const Unknown: string := "UNKNOWN"

  /** The default-constructed `MessagingEndpointState`. */
  function DefaultEndpointState(): (st: MessagingEndpointState)
    ensures st.connection == Disconnected
    ensures st.sendPermission == Off && st.readPermission == Off
  {
    MessagingEndpointState(Disconnected, Off, Off)
  }

  /** `messagingEndpointToString`. */
  function MessagingEndpointToString(e: MessagingEndpoint): (s: string)
    ensures s == "DEFAULT"
  {
    match e
    case Default => "DEFAULT"
  }

  function MessagingEndpointFromString(s: string): Option<MessagingEndpoint> {
    if s == "DEFAULT" then Some(Default) else None
  }

  /** `statusErrorCodeToString`: never the UNKNOWN fallback for a declared value. */
  function StatusErrorCodeToString(code: StatusErrorCode): (s: string)
    ensures s != Unknown
    ensures s in {"GENERIC_FAILURE", "NO_CONNECTIVITY", "NO_PERMISSION"}
  {
    match code
    case GenericFailure => "GENERIC_FAILURE"
    case NoConnectivity => "NO_CONNECTIVITY"
    case NoPermission => "NO_PERMISSION"
  }

  function StatusErrorCodeFromString(s: string): Option<StatusErrorCode> {
    if s == "GENERIC_FAILURE" then Some(GenericFailure)
    else if s == "NO_CONNECTIVITY" then Some(NoConnectivity)
    else if s == "NO_PERMISSION" then Some(NoPermission)
    else None
  }

  /** `uploadModeToString`. */
  function UploadModeToString(mode: UploadMode): (s: string)
    ensures s == "DELETE_ALL_AND_STORE"
  {
    match mode
    case DeleteAllAndStore => "DELETE_ALL_AND_STORE"
  }

  function UploadModeFromString(s: string): Option<UploadMode> {
    if s == "DELETE_ALL_AND_STORE" then Some(DeleteAllAndStore) else None
  }

  /** `connectionStateToString`. */
  function ConnectionStateToString(c: ConnectionState): (s: string)
    ensures s != Unknown
    ensures s in {"CONNECTED", "DISCONNECTED"}
  {
    match c
    case Connected => "CONNECTED"
    case Disconnected => "DISCONNECTED"
  }

  function ConnectionStateFromString(s: string): Option<ConnectionState> {
    if s == "CONNECTED" then Some(Connected)
    else if s == "DISCONNECTED" then Some(Disconnected)
    else None
  }

  /** `permissionStateToString`. */
  function PermissionStateToString(p: PermissionState): (s: string)
    ensures s != Unknown
    ensures s in {"ON", "OFF"}
  {
    match p
    case On => "ON"
    case Off => "OFF"
  }

  function PermissionStateFromString(s: string): Option<PermissionState> {
    if s == "ON" then Some(On)
    else if s == "OFF" then Some(Off)
    else None
  }

  /** Every conversion is undone by its parser, and the parser rejects the UNKNOWN fallback;
      so each conversion is injective and no two declared values share a string. */
  lemma ToStringRoundTrips(e: MessagingEndpoint, code: StatusErrorCode, mode: UploadMode,
                           c: ConnectionState, p: PermissionState)
    ensures MessagingEndpointFromString(MessagingEndpointToString(e)) == Some(e)
    ensures StatusErrorCodeFromString(StatusErrorCodeToString(code)) == Some(code)
    ensures UploadModeFromString(UploadModeToString(mode)) == Some(mode)
    ensures ConnectionStateFromString(ConnectionStateToString(c)) == Some(c)
    ensures PermissionStateFromString(PermissionStateToString(p)) == Some(p)
    ensures MessagingEndpointFromString(Unknown).None? && StatusErrorCodeFromString(Unknown).None?
    ensures UploadModeFromString(Unknown).None? && ConnectionStateFromString(Unknown).None?
    ensures PermissionStateFromString(Unknown).None?
  {
  }

  /** The string forms of distinct values differ. */
  lemma ToStringInjective(code1: StatusErrorCode, code2: StatusErrorCode,
                          c1: ConnectionState, c2: ConnectionState,
                          p1: PermissionState, p2: PermissionState)
    ensures StatusErrorCodeToString(code1) == StatusErrorCodeToString(code2) ==> code1 == code2
    ensures ConnectionStateToString(c1) == ConnectionStateToString(c2) ==> c1 == c2
    ensures PermissionStateToString(p1) == PermissionStateToString(p2) ==> p1 == p2
  {
    ToStringRoundTrips(Default, code1, DeleteAllAndStore, c1, p1);
    ToStringRoundTrips(Default, code2, DeleteAllAndStore, c2, p2);
  }
}
