/** The error values the review service returns: the package-level sentinels,
    errors passed through from the database driver, and the driver errors that
    the create transaction wraps with the step that failed. */
module Errors {

  /** The package-level sentinel errors. Each is a distinct value and callers
      compare them by identity, never by message. */
  datatype Sentinel =
    | VoidServiceData
    | ServiceAlreadyExists
    | ServiceNotFound
    | CoachNotFound
    | ReviewNotFound
    | UserNotFound
    | AbonementNotFound
    | InternalCoachServerError
    | InternalUserServerError
    | InternalAbonementServerError

  /** The message text each sentinel was created with. */
  function Message(s: Sentinel): string
  {
    match s
    case VoidServiceData => "void service data"
    case ServiceAlreadyExists => "service already exists"
    case ServiceNotFound => "service not found"
    case CoachNotFound => "coach not found"
    case ReviewNotFound => "coach not found"
    case UserNotFound => "user not found"
    case AbonementNotFound => "abonement not found"
    case InternalCoachServerError => "internal coach server error"
    case InternalUserServerError => "internal user server error"
    case InternalAbonementServerError => "internal abonement server error"
  }

  /** Only ReviewNotFound and CoachNotFound share a message; they remain
      different values, so an identity test tells them apart. */
  lemma SharedMessage(a: Sentinel, b: Sentinel)
    ensures Message(a) == Message(b) <==> a == b || {a, b} == {CoachNotFound, ReviewNotFound}
  {
  }

  /** An error reported by the database driver (a failed statement, a lost
      connection, a constraint violation). */
  datatype DbFault = UniqueViolation | DriverFault(code: nat)

  /** The step of the create transaction an error is wrapped with (the
      message text it prefixes is not modelled). */
  datatype TxStep = BeginTx | InsertReview | LinkReview | CommitTx

  datatype Error =
    | Domain(kind: Sentinel)             // one of the sentinels
    | Db(fault: DbFault)                 // a driver error returned unchanged
    | Tx(step: TxStep, cause: DbFault)   // a driver error wrapped with its step

  datatype Option<T> = None | Some(value: T)

  datatype Result<T> = Ok(value: T) | Err(error: Error)
}
