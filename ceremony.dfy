/** The two ceremonies of the authenticator and its start-up certificate resolution, as
    transitions on the store's logical content. The engine class `Engine.SoftU2F` is
    proved to perform exactly these transitions; the lemmas below state what the
    ceremonies promise, alone and in sequence. */
module Ceremony {
  import opened Types
  import opened Approval
  import opened StoreModel

  /** The store after a call, and what the call returned. */
  datatype Step<T, E> = Step(store: StoreState, result: Result<T, E>)

  /** What the cryptographic backend produced when asked for a new application key: a
      fresh key pair with a handle drawn from the operating system's random source, or
      the failure to open that source. */
  datatype KeyGeneration = Generated(key: Key, handle: KeyHandle) | RandomSourceFailed

  /** Binds a freshly generated key pair and handle to the application; a failed random
      source becomes an I/O error. */
  function GenerateApplicationKey(application: ApplicationParameter, generation: KeyGeneration): (r: Result<ApplicationKey, IoError>)
    ensures r.Ok? <==> generation.Generated?
    ensures r.Ok? ==> r.value.application == application && r.value.handle == generation.handle
                      && r.value.key == generation.key
  {
    match generation
    case Generated(key, handle) => Ok(ApplicationKey(application, handle, key))
    case RandomSourceFailed => Err(IoError)
  }

  /** Start-up: reuse the certificate the store holds, or persist the `generated` one.
      Either way the slot ends up holding the certificate the engine will use. */
  function GetOrCreateAttestationCertificate(s: StoreState, generated: AttestationCertificate): (out: (StoreState, AttestationCertificate))
    ensures s.attestationCertificate.Some? ==> out == (s, s.attestationCertificate.value)
    ensures s.attestationCertificate.None? ==> out.1 == generated
    ensures out.0.attestationCertificate == Some(out.1)
    ensures out.0.applicationKeys == s.applicationKeys && out.0.counters == s.counters
  {
    match GetAttestationCertificate(s)
    case Some(certificate) => (s, certificate)
    case None => (SetAttestationCertificate(s, generated), generated)
  }

  /** Registration: consent, then key generation, then storage, then the attestation
      signature over the (empty) signed data. */
  function Register(s: StoreState, approval: FakeApprovalService, sign: Signer, certificate: AttestationCertificate,
                    application: ApplicationParameter, challenge: ChallengeParameter,
                    generation: KeyGeneration): (out: Step<Registration, RegisterError>)
    ensures !approval.shouldApproveRegistration ==> out == Step(s, Err(RegisterError.ApprovalRequired))
    ensures approval.shouldApproveRegistration && generation.RandomSourceFailed? ==>
              out == Step(s, Err(RegisterError.Io(IoError)))
    ensures approval.shouldApproveRegistration && generation.Generated? ==>
              && out.store == AddApplicationKey(s, ApplicationKey(application, generation.handle, generation.key))
              && out.result.Ok?
              && out.result.value.keyHandle == generation.handle
              && out.result.value.signature == sign(certificate.key, [])
              && out.result.value.userPublicKey == [] && out.result.value.attestationCertificate == []
  {
    if !approval.ApproveRegistration(application) then
      Step(s, Err(RegisterError.ApprovalRequired))
    else
      match GenerateApplicationKey(application, generation)
      case Err(e) => Step(s, Err(RegisterError.Io(e)))
      case Ok(applicationKey) =>
        var s' := AddApplicationKey(s, applicationKey);
        var signature := sign(certificate.key, []);
        Step(s', Ok(Registration([], applicationKey.handle, [], signature)))
  }

  /** Authentication: consent, then key lookup, then the counter read-and-increment,
      then the signature with the application's key over the (empty) signed data. */
  function Authenticate(s: StoreState, approval: FakeApprovalService, sign: Signer,
                        application: ApplicationParameter, challenge: ChallengeParameter,
                        keyHandle: KeyHandle): (out: Step<Authentication, AuthenticateError>)
    ensures !approval.shouldApproveAuthentication ==> out == Step(s, Err(AuthenticateError.ApprovalRequired))
    ensures approval.shouldApproveAuthentication && application !in s.applicationKeys ==>
              out == Step(s, Err(BadKeyHandle))
    ensures approval.shouldApproveAuthentication && application in s.applicationKeys ==>
              && out.store == GetThenIncrementCounter(s, application).0
              && out.result.Ok?
              && out.result.value.counter == (if application in s.counters then s.counters[application] else 0)
              && out.result.value.signature == sign(s.applicationKeys[application].key, [])
  {
    if !approval.ApproveAuthentication(application) then
      Step(s, Err(AuthenticateError.ApprovalRequired))
    else
      match RetrieveApplicationKey(s, application, keyHandle)
      case None => Step(s, Err(BadKeyHandle))
      case Some(applicationKey) =>
        var (s', counter) := GetThenIncrementCounter(s, application);
        var signature := sign(applicationKey.key, []);
        Step(s', Ok(Authentication(counter, signature)))
  }

  /** The key-handle query: true exactly when the store resolves the pair, which for
      this store means the application has some key, whatever the handle. */
  function KeyHandleValid(s: StoreState, keyHandle: KeyHandle, application: ApplicationParameter): (valid: bool)
    ensures valid <==> application in s.applicationKeys
  {
    match RetrieveApplicationKey(s, application, keyHandle)
    case Some(_) => true
    case None => false
  }

  /** A second start-up against the store left by the first finds the same certificate
      and writes nothing. */
  lemma CertificateResolutionIdempotent(s: StoreState, generated: AttestationCertificate, generatedAgain: AttestationCertificate)
    ensures var (s1, c1) := GetOrCreateAttestationCertificate(s, generated);
            GetOrCreateAttestationCertificate(s1, generatedAgain) == (s1, c1)
  {
  }

  /** A store with no registrations resolves no handle for any application, also after
      the certificate has been resolved on it. */
  lemma FreshStoreHasNoValidHandle(generated: AttestationCertificate, keyHandle: KeyHandle, application: ApplicationParameter)
    ensures !KeyHandleValid(EMPTY_STORE, keyHandle, application)
    ensures !KeyHandleValid(GetOrCreateAttestationCertificate(EMPTY_STORE, generated).0, keyHandle, application)
  {
  }

  /** Refused consent to register is side-effect free: the store is unchanged, so no
      handle becomes valid. */
  lemma RegisterDeniedChangesNothing(s: StoreState, approval: FakeApprovalService, sign: Signer,
                                     certificate: AttestationCertificate, application: ApplicationParameter,
                                     challenge: ChallengeParameter, generation: KeyGeneration, keyHandle: KeyHandle)
    requires !approval.shouldApproveRegistration
    ensures var out := Register(s, approval, sign, certificate, application, challenge, generation);
            && out.result == Err(RegisterError.ApprovalRequired)
            && out.store == s
            && KeyHandleValid(out.store, keyHandle, application) == KeyHandleValid(s, keyHandle, application)
  {
  }

  /** Refused consent to authenticate is side-effect free, even for a registered
      application: no counter moves. */
  lemma AuthenticateDeniedChangesNothing(s: StoreState, approval: FakeApprovalService, sign: Signer,
                                         application: ApplicationParameter, challenge: ChallengeParameter,
                                         keyHandle: KeyHandle)
    requires !approval.shouldApproveAuthentication
    ensures var out := Authenticate(s, approval, sign, application, challenge, keyHandle);
            out.result == Err(AuthenticateError.ApprovalRequired) && out.store == s
  {
  }

  /** A lookup that finds nothing fails with BadKeyHandle before the counter is touched. */
  lemma BadKeyHandleLeavesCounters(s: StoreState, approval: FakeApprovalService, sign: Signer,
                                   application: ApplicationParameter, challenge: ChallengeParameter,
                                   keyHandle: KeyHandle)
    requires approval.shouldApproveAuthentication
    requires !KeyHandleValid(s, keyHandle, application)
    ensures var out := Authenticate(s, approval, sign, application, challenge, keyHandle);
            out.result == Err(BadKeyHandle) && out.store == s
  {
  }

  /** The handle a successful registration returns is valid for its application, and
      an authentication with it, under any challenge, succeeds and signs with exactly
      the key generated for that registration. */
  lemma RegisterThenAuthenticate(s: StoreState, approval: FakeApprovalService, sign: Signer,
                                 certificate: AttestationCertificate, application: ApplicationParameter,
                                 challenge: ChallengeParameter, generation: KeyGeneration,
                                 otherChallenge: ChallengeParameter)
    requires approval.shouldApproveAuthentication
    requires Register(s, approval, sign, certificate, application, challenge, generation).result.Ok?
    ensures var reg := Register(s, approval, sign, certificate, application, challenge, generation);
            var handle := reg.result.value.keyHandle;
            var auth := Authenticate(reg.store, approval, sign, application, otherChallenge, handle);
            && KeyHandleValid(reg.store, handle, application)
            && RetrieveApplicationKey(reg.store, application, handle) == Some(ApplicationKey(application, handle, generation.key))
            && auth.result.Ok?
            && auth.result.value.signature == sign(generation.key, [])
  {
  }

  /** The handle is not checked: once an application has a key, EVERY handle is
      accepted for it, including one that was never issued. */
  lemma AnyHandleAcceptedOnceRegistered(s: StoreState, approval: FakeApprovalService, sign: Signer,
                                        application: ApplicationParameter, challenge: ChallengeParameter,
                                        issued: KeyHandle, presented: KeyHandle)
    requires approval.shouldApproveAuthentication
    requires KeyHandleValid(s, issued, application)
    ensures KeyHandleValid(s, presented, application)
    ensures Authenticate(s, approval, sign, application, challenge, presented).result.Ok?
  {
  }

  /** Registering the same application again replaces the earlier key: the earlier
      handle still authenticates, but with the new key. */
  lemma ReregistrationReplacesKey(s: StoreState, approval: FakeApprovalService, sign: Signer,
                                  certificate: AttestationCertificate, application: ApplicationParameter,
                                  challenge: ChallengeParameter, first: KeyGeneration, second: KeyGeneration)
    requires approval.shouldApproveRegistration && approval.shouldApproveAuthentication
    requires first.Generated? && second.Generated?
    ensures var reg1 := Register(s, approval, sign, certificate, application, challenge, first);
            var reg2 := Register(reg1.store, approval, sign, certificate, application, challenge, second);
            var auth := Authenticate(reg2.store, approval, sign, application, challenge, first.handle);
            && reg2.store.applicationKeys[application] == ApplicationKey(application, second.handle, second.key)
            && auth.result.Ok?
            && auth.result.value.signature == sign(second.key, [])
  {
  }

  /** `n` successive authentications for one application with the same handle and
      challenge, collecting every result. */
  function AuthenticateRepeatedly(s: StoreState, approval: FakeApprovalService, sign: Signer,
                                  application: ApplicationParameter, challenge: ChallengeParameter,
                                  keyHandle: KeyHandle, n: nat): (out: (StoreState, seq<Result<Authentication, AuthenticateError>>))
    decreases n
  {
    if n == 0 then (s, [])
    else
      var step := Authenticate(s, approval, sign, application, challenge, keyHandle);
      var (s', rest) := AuthenticateRepeatedly(step.store, approval, sign, application, challenge, keyHandle, n - 1);
      (s', [step.result] + rest)
  }

  /** For a registered application, repeated authentications all succeed and hand out
      exactly the values of successive counter reads, in order. */
  lemma {:induction false} RepeatedAuthenticationReadsCounter(s: StoreState, approval: FakeApprovalService, sign: Signer,
                                                            application: ApplicationParameter, challenge: ChallengeParameter,
                                                            keyHandle: KeyHandle, n: nat)
    requires approval.shouldApproveAuthentication
    requires application in s.applicationKeys
    ensures var (s', results) := AuthenticateRepeatedly(s, approval, sign, application, challenge, keyHandle, n);
            var (t', values) := CounterReadings(s, application, n);
            && s' == t'
            && |results| == |values| == n
            && (forall i :: 0 <= i < n ==> results[i].Ok? && results[i].value.counter == values[i])
    decreases n
  {
    if n > 0 {
      var step := Authenticate(s, approval, sign, application, challenge, keyHandle);
      RepeatedAuthenticationReadsCounter(step.store, approval, sign, application, challenge, keyHandle, n - 1);
    }
  }

  /** The first authentications against a registered application whose counter was
      never read return 0, 0, 1, 2, ...: the counter value 0 is reported twice. */
  lemma CountersAfterRegistration(s: StoreState, approval: FakeApprovalService, sign: Signer,
                                  application: ApplicationParameter, challenge: ChallengeParameter,
                                  keyHandle: KeyHandle, n: nat)
    requires approval.shouldApproveAuthentication
    requires application in s.applicationKeys && application !in s.counters
    requires 0 < n <= COUNTER_MAX + 1
    ensures var (_, results) := AuthenticateRepeatedly(s, approval, sign, application, challenge, keyHandle, n);
            && |results| == n
            && (forall i :: 0 <= i < n ==> results[i].Ok?)
            && results[0].value.counter == 0
            && (forall i :: 1 <= i < n ==> results[i].value.counter == i - 1)
  {
    RepeatedAuthenticationReadsCounter(s, approval, sign, application, challenge, keyHandle, n);
    CounterReadingsFresh(s, application, n);
  }

  /** One call on the authenticator. */
  datatype Request =
    | RegisterRequest(application: ApplicationParameter, challenge: ChallengeParameter, generation: KeyGeneration)
    | AuthenticateRequest(application: ApplicationParameter, challenge: ChallengeParameter, keyHandle: KeyHandle)

  /** The store after serving one request. */
  function Serve(s: StoreState, approval: FakeApprovalService, sign: Signer, certificate: AttestationCertificate,
                 request: Request): StoreState
  {
    match request
    case RegisterRequest(application, challenge, generation) =>
      Register(s, approval, sign, certificate, application, challenge, generation).store
    case AuthenticateRequest(application, challenge, keyHandle) =>
      Authenticate(s, approval, sign, application, challenge, keyHandle).store
  }

  /** The store after serving the requests one after another. */
  function Run(s: StoreState, approval: FakeApprovalService, sign: Signer, certificate: AttestationCertificate,
               requests: seq<Request>): StoreState
    decreases |requests|
  {
    if requests == [] then s
    else Run(Serve(s, approval, sign, certificate, requests[0]), approval, sign, certificate, requests[1..])
  }

  /** One request leaves the certificate slot alone, loses no key and no counter, and
      moves each counter by at most one wrapping increment. */
  lemma ServeStep(s: StoreState, approval: FakeApprovalService, sign: Signer, certificate: AttestationCertificate,
                  request: Request)
    ensures var s' := Serve(s, approval, sign, certificate, request);
            && s'.attestationCertificate == s.attestationCertificate
            && s.applicationKeys.Keys <= s'.applicationKeys.Keys
            && (forall a :: a in s.counters ==>
                  a in s'.counters && (s'.counters[a] == s.counters[a] || s'.counters[a] == WrappingIncrement(s.counters[a])))
  {
  }

  /** Over any sequence of ceremonies: the certificate slot never changes, no
      registered application loses its key, and no counter is lost or goes backwards,
      each moving by at most one per request, as long as none reaches the wrap-around
      point. */
  lemma {:induction false} RunKeepsInvariants(s: StoreState, approval: FakeApprovalService, sign: Signer,
                                              certificate: AttestationCertificate, requests: seq<Request>)
    ensures var s' := Run(s, approval, sign, certificate, requests);
            && s'.attestationCertificate == s.attestationCertificate
            && s.applicationKeys.Keys <= s'.applicationKeys.Keys
            && s.counters.Keys <= s'.counters.Keys
            && (forall a :: a in s.counters && s.counters[a] + |requests| <= COUNTER_MAX ==>
                  s.counters[a] <= s'.counters[a] <= s.counters[a] + |requests|)
    decreases |requests|
  {
    if requests != [] {
      var s1 := Serve(s, approval, sign, certificate, requests[0]);
      ServeStep(s, approval, sign, certificate, requests[0]);
      RunKeepsInvariants(s1, approval, sign, certificate, requests[1..]);
    }
  }

  /** The request registers the application `a`. */
  predicate RegistersApplication(request: Request, a: ApplicationParameter)
  {
    request.RegisterRequest? && request.application == a
  }

  /** A registered key is changed only by a new registration of its own application:
      over any sequence of ceremonies that does not register `a` again, `a` keeps
      exactly the key it had, so a handle issued for `a` keeps resolving to the key
      generated with it. */
  lemma {:induction false} RunKeepsKeyUntilReregistered(s: StoreState, approval: FakeApprovalService, sign: Signer,
                                                        certificate: AttestationCertificate, requests: seq<Request>,
                                                        a: ApplicationParameter)
    requires a in s.applicationKeys
    requires forall i :: 0 <= i < |requests| ==> !RegistersApplication(requests[i], a)
    ensures var s' := Run(s, approval, sign, certificate, requests);
            a in s'.applicationKeys && s'.applicationKeys[a] == s.applicationKeys[a]
    decreases |requests|
  {
    if requests != [] {
      var s1 := Serve(s, approval, sign, certificate, requests[0]);
      assert !RegistersApplication(requests[0], a);
      assert forall i :: 0 <= i < |requests[1..]| ==> !RegistersApplication(requests[1..][i], a) by {
        forall i | 0 <= i < |requests[1..]| ensures !RegistersApplication(requests[1..][i], a) {
          assert requests[1..][i] == requests[i + 1];
        }
      }
      RunKeepsKeyUntilReregistered(s1, approval, sign, certificate, requests[1..], a);
    }
  }

  /** Without consent nothing ever reaches the store: any sequence of requests leaves
      it exactly as it was. */
  lemma {:induction false} RunWithoutConsentChangesNothing(s: StoreState, approval: FakeApprovalService, sign: Signer,
                                                           certificate: AttestationCertificate, requests: seq<Request>)
    requires !approval.shouldApproveRegistration && !approval.shouldApproveAuthentication
    ensures Run(s, approval, sign, certificate, requests) == s
    decreases |requests|
  {
    if requests != [] {
      RunWithoutConsentChangesNothing(s, approval, sign, certificate, requests[1..]);
    }
  }
}
