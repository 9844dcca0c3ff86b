// Classifying the failure of a KMS call and carrying it to the host (kmserror.go, and
// toStatusError in enclave.go). An error here has a single cause; wrapping keeps the cause.
module KmsErrors {
  import opened Bytes

  datatype Code =
    | Canceled | DeadlineExceeded | InvalidArgument | PermissionDenied | FailedPrecondition
    | Unavailable | Unauthenticated | Internal | OtherCode

  datatype Cause =
    | ContextCanceled
    | ContextDeadline
    | InvalidArn
    | InvalidRegion
    | InvalidCiphertext
    | LimitExceeded
    | Api(code: string)
    | Network
    | Status(status: Code)
    | Unrecognized

  function StatusFromError(c: Cause): Option<Code> {
    match c
    case InvalidCiphertext => Some(InvalidArgument)
    case LimitExceeded => Some(Unavailable)
    case Network => Some(Unavailable)
    case Api(code) =>
      if code == "AccessDeniedException" then Some(PermissionDenied)
      else if code == "ExpiredTokenException" || code == "InvalidClientTokenId" || code == "UnrecognizedClientException"
      then Some(Unauthenticated)
      else if code == "ThrottlingException" || code == "RequestLimitExceeded" then Some(Unavailable)
      else None
    case _ => None
  }

  predicate IsCredentialError(c: Cause) { StatusFromError(c) == Some(Unauthenticated) }

  function ToStatus(c: Cause): Code {
    match c
    case ContextCanceled => Canceled
    case ContextDeadline => DeadlineExceeded
    case InvalidArn => InvalidArgument
    case InvalidRegion => InvalidArgument
    case _ =>
      if StatusFromError(c).Some? then StatusFromError(c).value
      else if c.Status? then c.status
      else Internal
  }

  // The failed data-key call on its way to the host. Recovery maps the error to a status at once
  // (kmsStatusError) and Initialize maps that status again; generation only wraps it.
  datatype Path = Recovery | Generation

  function HostCode(path: Path, c: Cause): Code {
    match path
    case Recovery => ToStatus(Status(ToStatus(c)))
    case Generation => ToStatus(c)
  }

  predicate IsCredentialCode(code: string) {
    code == "ExpiredTokenException" || code == "InvalidClientTokenId" || code == "UnrecognizedClientException"
  }

  // The paths agree, and an error that KMS itself caused reaches the host as Unauthenticated
  // exactly when it is a credential error: one of three API errors.
  lemma CredentialCode(path: Path, c: Cause)
    ensures HostCode(path, c) == ToStatus(c)
    ensures !c.Status? ==> (HostCode(path, c) == Unauthenticated <==> IsCredentialError(c))
    ensures IsCredentialError(c) <==> c.Api? && IsCredentialCode(c.code)
  {
  }
}
