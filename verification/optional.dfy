/** The value-or-nothing wrapper the SDK uses for optional fields (its `utils::Optional`),
    and the success-or-error result used where the source returns early with an error. */
module Optional {

  datatype Option<+T> = None | Some(value: T) {

    /** The wrapped value, or `default` when there is none (`Optional::valueOr`). */
    function ValueOr(default: T): (r: T)
      ensures Some? ==> r == value
      ensures None? ==> r == default
    {
      match this
      case Some(v) => v
      case None => default
    }
  }

  datatype Result<+R, +E> = Success(value: R) | Failure(error: E)
}
