/** The repository's unit tests, as client methods that build a store and an engine and
    drive them only through their contracts. Key generation, the signing function and
    the generated attestation certificate are parameters, so each scenario holds for
    every backend behaviour. */
module Scenarios {
  import opened Types
  import opened Approval
  import opened InMemoryStore
  import opened Engine
  import C = Ceremony

  const ALL_ZERO_APPLICATION: ApplicationParameter := ApplicationParameter(ALL_ZERO_HASH)
  const ALL_ZERO_CHALLENGE: ChallengeParameter := ChallengeParameter(ALL_ZERO_HASH)
  const ALL_ZERO_HANDLE: KeyHandle := KeyHandle(ALL_ZERO_HASH)

  /** On a fresh store no handle is valid. */
  method IsValidKeyHandleWithInvalidHandleIsFalse(sign: Signer, generated: AttestationCertificate)
    returns (valid: bool)
    ensures !valid
  {
    var storage := new InMemoryStorage();
    var softU2F := new SoftU2F(FakeApprovalService.AlwaysApprove(), sign, storage, generated);
    valid := softU2F.IsValidKeyHandle(ALL_ZERO_HANDLE, ALL_ZERO_APPLICATION);
  }

  /** The handle returned by a registration is valid for its application. */
  method IsValidKeyHandleWithValidHandleIsTrue(sign: Signer, generated: AttestationCertificate,
                                               key: Key, handle: KeyHandle)
    returns (valid: bool)
    ensures valid
  {
    var storage := new InMemoryStorage();
    var softU2F := new SoftU2F(FakeApprovalService.AlwaysApprove(), sign, storage, generated);
    var registration := softU2F.Register(ALL_ZERO_APPLICATION, ALL_ZERO_CHALLENGE, C.Generated(key, handle));
    valid := softU2F.IsValidKeyHandle(registration.value.keyHandle, ALL_ZERO_APPLICATION);
  }

  /** Authenticating with nothing registered fails with BadKeyHandle. */
  method AuthenticateWithInvalidHandleErrors(sign: Signer, generated: AttestationCertificate)
    returns (result: Result<Authentication, AuthenticateError>)
    ensures result == Err(BadKeyHandle)
  {
    var storage := new InMemoryStorage();
    var softU2F := new SoftU2F(FakeApprovalService.AlwaysApprove(), sign, storage, generated);
    result := softU2F.Authenticate(ALL_ZERO_APPLICATION, ALL_ZERO_CHALLENGE, ALL_ZERO_HANDLE);
  }

  /** Authenticating with the handle a registration returned succeeds. */
  method AuthenticateWithValidHandleSucceeds(sign: Signer, generated: AttestationCertificate,
                                             key: Key, handle: KeyHandle)
    returns (result: Result<Authentication, AuthenticateError>)
    ensures result.Ok? && result.value.signature == sign(key, [])
  {
    var storage := new InMemoryStorage();
    var softU2F := new SoftU2F(FakeApprovalService.AlwaysApprove(), sign, storage, generated);
    var registration := softU2F.Register(ALL_ZERO_APPLICATION, ALL_ZERO_CHALLENGE, C.Generated(key, handle));
    result := softU2F.Authenticate(ALL_ZERO_APPLICATION, ALL_ZERO_CHALLENGE, registration.value.keyHandle);
  }

  /** Refused consent to authenticate wins over a valid registration. */
  method AuthenticateWithRejectedApprovalErrors(sign: Signer, generated: AttestationCertificate,
                                                key: Key, handle: KeyHandle)
    returns (result: Result<Authentication, AuthenticateError>)
    ensures result == Err(AuthenticateError.ApprovalRequired)
  {
    var storage := new InMemoryStorage();
    var approval := FakeApprovalService(shouldApproveAuthentication := false, shouldApproveRegistration := true);
    var softU2F := new SoftU2F(approval, sign, storage, generated);
    var registration := softU2F.Register(ALL_ZERO_APPLICATION, ALL_ZERO_CHALLENGE, C.Generated(key, handle));
    result := softU2F.Authenticate(ALL_ZERO_APPLICATION, ALL_ZERO_CHALLENGE, registration.value.keyHandle);
  }

  /** Refused consent to register fails with ApprovalRequired and registers nothing. */
  method RegisterWithRejectedApprovalErrors(sign: Signer, generated: AttestationCertificate, generation: C.KeyGeneration)
    returns (result: Result<Registration, RegisterError>, valid: bool)
    ensures result == Err(RegisterError.ApprovalRequired)
    ensures !valid
  {
    var storage := new InMemoryStorage();
    var approval := FakeApprovalService(shouldApproveAuthentication := true, shouldApproveRegistration := false);
    var softU2F := new SoftU2F(approval, sign, storage, generated);
    result := softU2F.Register(ALL_ZERO_APPLICATION, ALL_ZERO_CHALLENGE, generation);
    valid := softU2F.IsValidKeyHandle(ALL_ZERO_HANDLE, ALL_ZERO_APPLICATION);
  }

  /** Register once, then authenticate twice with the returned handle: both
      authentications report the counter 0, and a handle that was never issued is
      accepted as valid too. */
  method RegisterThenAuthenticateTwice(sign: Signer, generated: AttestationCertificate, key: Key, handle: KeyHandle)
    returns (first: Counter, second: Counter, unissuedValid: bool)
    requires handle != ALL_ZERO_HANDLE
    ensures first == 0 && second == 0
    ensures unissuedValid
  {
    var storage := new InMemoryStorage();
    var softU2F := new SoftU2F(FakeApprovalService.AlwaysApprove(), sign, storage, generated);
    var registration := softU2F.Register(ALL_ZERO_APPLICATION, ALL_ZERO_CHALLENGE, C.Generated(key, handle));
    var issued := registration.value.keyHandle;
    unissuedValid := softU2F.IsValidKeyHandle(ALL_ZERO_HANDLE, ALL_ZERO_APPLICATION);
    var auth1 := softU2F.Authenticate(ALL_ZERO_APPLICATION, ALL_ZERO_CHALLENGE, issued);
    var auth2 := softU2F.Authenticate(ALL_ZERO_APPLICATION, ALL_ZERO_CHALLENGE, issued);
    first, second := auth1.value.counter, auth2.value.counter;
  }

  /** Two engines constructed one after the other on the same store use the same
      attestation certificate: the first one's, whatever the second generated. */
  method ConstructTwiceReusesCertificate(sign: Signer, generated: AttestationCertificate,
                                         generatedAgain: AttestationCertificate)
    returns (first: AttestationCertificate, second: AttestationCertificate)
    ensures first == second == generated
  {
    var storage := new InMemoryStorage();
    var engine1 := new SoftU2F(FakeApprovalService.AlwaysApprove(), sign, storage, generated);
    var engine2 := new SoftU2F(FakeApprovalService.AlwaysApprove(), sign, storage, generatedAgain);
    first, second := engine1.attestationCertificate, engine2.attestationCertificate;
  }
}
