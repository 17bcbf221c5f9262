/** Types shared by the capability agents and the directive sequencer: the directive as it
    arrives from the protocol layer, the exception kinds reported back to the service, and
    the blocking policy a handler declares per directive type. */
module AvsCommon {

  /** An `AVSDirective`: header fields, the raw payload text and the whole unparsed message. */
  datatype Directive = Directive(
    namespace: string,
    name: string,
    messageId: string,
    dialogRequestId: string,
    payload: string,
    unparsed: string)

  /** The exception kinds this core reports (`ExceptionErrorType`). */
  datatype ExceptionErrorType = UnexpectedInformationReceived | UnsupportedOperation

  /** A directive type: interface namespace plus directive name. */
  datatype NamespaceAndName = NamespaceAndName(namespace: string, name: string)

  /** The output channels a directive can occupy. */
  datatype Medium = Audio | Visual

  /** The mediums a directive type occupies and whether it blocks later directives on them. */
  datatype BlockingPolicy = BlockingPolicy(mediums: set<Medium>, isBlocking: bool)

  /** `BlockingPolicy::MEDIUMS_NONE`. */
  const MediumsNone: set<Medium> := {}
}
