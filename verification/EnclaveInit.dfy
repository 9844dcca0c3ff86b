// The host's retry loop around Initialize (enclaveinit.go).
module EnclaveInit {
  import opened Bytes
  import opened KmsErrors

  const MAX_ATTEMPTS := 3

  // What one attempt meets: whether credentials are retrieved, the code that Initialize returns
  // (none is success), and whether the startup context ends during the backoff that follows.
  datatype Attempt = Attempt(credentials: bool, code: Option<Code>, cancelled: bool)

  // What one attempt did: invalidated the credential cache first; reached Initialize.
  datatype Done = Done(invalidated: bool, called: bool)

  datatype Startup = Started | BadInput | NoCredentials | Rejected(code: Code) | Aborted | Exhausted(code: Code)

  predicate Retryable(code: Code) { code == Unauthenticated || code == Unavailable || code == DeadlineExceeded }

  // An attempt that is followed by another one.
  predicate GoesOn(a: Attempt) {
    a.credentials && a.code.Some? && Retryable(a.code.value) && !a.cancelled
  }

  predicate MustInvalidate(invalidatable: bool, meets: nat -> Attempt, n: nat) {
    invalidatable && n > 0 && meets(n - 1).code == Some(Unauthenticated)
  }

  // The outcome that the last attempt made decides.
  function Verdict(a: Attempt, number: nat): Startup {
    if !a.credentials then NoCredentials
    else if a.code.None? then Started
    else if !Retryable(a.code.value) then Rejected(a.code.value)
    else if number < MAX_ATTEMPTS then Aborted
    else Exhausted(a.code.value)
  }

  // The host tries again exactly after three codes, and three times at most. A failure of KMS
  // leads there exactly if it is about credentials, a limit, a throttled or failed connection or a
  // deadline.
  lemma RetriedExactly(path: Path, c: Cause, a: Attempt)
    requires a.code == Some(HostCode(path, c))
    ensures GoesOn(a) <==>
              && a.credentials && !a.cancelled
              && match c
                 case Api(code) =>
                   IsCredentialCode(code) || code == "ThrottlingException" || code == "RequestLimitExceeded"
                 case LimitExceeded => true
                 case Network => true
                 case ContextDeadline => true
                 case Status(code) => code == Unauthenticated || code == Unavailable || code == DeadlineExceeded
                 case _ => false
  {
  }

  method InitializeEnclave(
    keyArns: nat, existingKey: bool, generateNew: bool, invalidatable: bool, meets: nat -> Attempt)
    returns (r: Startup, done: seq<Done>)
    ensures keyArns == 0 || existingKey == generateNew ==> r == BadInput && done == []
    ensures keyArns > 0 && existingKey != generateNew ==>
              // At most three attempts, each but the last one retryable, the last one final.
              && 1 <= |done| <= MAX_ATTEMPTS == 3
              && (forall n :: 0 <= n < |done| - 1 ==> GoesOn(meets(n)))
              && (|done| < MAX_ATTEMPTS ==> !GoesOn(meets(|done| - 1)))
              && r == Verdict(meets(|done| - 1), |done|)
              && (var last := meets(|done| - 1);
                  match r
                  case Started => last.credentials && last.code == None
                  case NoCredentials => !last.credentials
                  case Rejected(code) => last.credentials && last.code == Some(code)
                  case Aborted => last.credentials && last.code.Some? && last.cancelled
                  case Exhausted(code) => last.credentials && last.code == Some(code) && |done| == 3
                  case BadInput => false)
              // The cache is invalidated exactly before the attempts that follow Unauthenticated.
              && (forall n :: 0 <= n < |done| ==>
                    && done[n].called == meets(n).credentials
                    && done[n].invalidated == MustInvalidate(invalidatable, meets, n)
                    && (done[n].invalidated <==> invalidatable && n > 0 && meets(n - 1).code == Some(Unauthenticated)))
  {
    done := [];
    if keyArns == 0 {
      return BadInput, [];
    }
    if existingKey == generateNew {
      return BadInput, [];
    }
    var lastCode := OtherCode;
    var invalidate := false;
    for attempt := 1 to MAX_ATTEMPTS + 1
      invariant |done| == attempt - 1
      invariant forall n :: 0 <= n < |done| - 1 ==> GoesOn(meets(n))
      invariant attempt > 1 ==>
                  var a := meets(attempt - 2);
                  && a.credentials && a.code == Some(lastCode) && Retryable(lastCode)
                  && (attempt <= MAX_ATTEMPTS ==> GoesOn(a))
                  && (invalidate <==> lastCode == Unauthenticated)
      invariant attempt == 1 ==> !invalidate
      invariant forall n :: 0 <= n < |done| ==>
                  && done[n].called == meets(n).credentials
                  && done[n].invalidated == MustInvalidate(invalidatable, meets, n)
    {
      var a := meets(attempt - 1);
      var invalidated := invalidate && invalidatable;
      assert invalidated == MustInvalidate(invalidatable, meets, attempt - 1);
      done := done + [Done(invalidated, a.credentials)];
      if !a.credentials {
        return NoCredentials, done;
      }
      if a.code == None {
        return Started, done;
      }
      match a.code.value {
        case Unauthenticated =>
          lastCode := a.code.value;
          invalidate := true;
        case Unavailable =>
          lastCode := a.code.value;
          invalidate := false;
        case DeadlineExceeded =>
          lastCode := a.code.value;
          invalidate := false;
        case _ =>
          return Rejected(a.code.value), done;
      }
      if attempt < MAX_ATTEMPTS && a.cancelled {
        return Aborted, done;
      }
    }
    return Exhausted(lastCode), done;
  }
}
