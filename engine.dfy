/** The authenticator engine. It owns the store for its lifetime, caches the
    attestation certificate resolved at construction, and drives the store through
    the two ceremonies. Each operation is proved to perform the matching transition
    of `Ceremony`. */
module Engine {
  import opened Types
  import opened Approval
  import M = StoreModel
  import C = Ceremony
  import opened InMemoryStore

  class SoftU2F {
    const attestationCertificate: AttestationCertificate
    const approval: FakeApprovalService
    const sign: Signer
    const storage: InMemoryStorage

    /** Resolves the attestation certificate (get-or-create) and keeps the
        collaborators. Construction cannot fail with this store and backend. */
    constructor (approval: FakeApprovalService, sign: Signer, storage: InMemoryStorage,
                 generated: AttestationCertificate)
      modifies storage
      ensures this.approval == approval && this.storage == storage
      ensures this.sign == sign
      ensures (storage.State(), attestationCertificate) ==
              C.GetOrCreateAttestationCertificate(old(storage.State()), generated)
    {
      var certificate := GetAttestationCertificate(storage, generated);
      this.attestationCertificate := certificate;
      this.approval := approval;
      this.sign := sign;
      this.storage := storage;
    }

    /** Returns the stored certificate if there is one; otherwise persists the
        generated one and returns it. */
    static method GetAttestationCertificate(storage: InMemoryStorage, generated: AttestationCertificate)
      returns (certificate: AttestationCertificate)
      modifies storage
      ensures (storage.State(), certificate) ==
              C.GetOrCreateAttestationCertificate(old(storage.State()), generated)
      ensures old(storage.attestationCertificate).Some? ==>
                certificate == old(storage.attestationCertificate).value && unchanged(storage)
      ensures storage.attestationCertificate == Some(certificate)
    {
      var stored := M.GetAttestationCertificate(storage.State());
      if stored.Some? {
        return stored.value;
      }
      certificate := generated;
      storage.SetAttestationCertificate(certificate);
    }

    /** Runs the authentication ceremony. */
    method Authenticate(application: ApplicationParameter, challenge: ChallengeParameter, keyHandle: KeyHandle)
      returns (result: Result<Authentication, AuthenticateError>)
      modifies storage
      ensures C.Step(storage.State(), result) ==
              C.Authenticate(old(storage.State()), approval, sign, application, challenge, keyHandle)
      ensures result.Err? ==> unchanged(storage)
    {
      if !approval.ApproveAuthentication(application) {
        return Err(AuthenticateError.ApprovalRequired);
      }
      var applicationKey: ApplicationKey;
      match M.RetrieveApplicationKey(storage.State(), application, keyHandle) {
        case Some(key) =>
          applicationKey := key;
        case None =>
          return Err(BadKeyHandle);
      }
      var counter := storage.GetThenIncrementCounter(application);
      var signature := sign(applicationKey.key, []);
      return Ok(Authentication(counter, signature));
    }

    /** The protocol version this authenticator speaks. */
    static function GetVersionString(): (version: string)
      ensures version == "U2F_V2"
    {
      "U2F_V2"
    }

    /** Whether the store resolves the handle for the application. Reads the store and
        changes nothing. */
    function IsValidKeyHandle(keyHandle: KeyHandle, application: ApplicationParameter): (valid: bool)
      reads this, storage
      ensures valid <==> M.RetrieveApplicationKey(storage.State(), application, keyHandle).Some?
      ensures valid <==> application in storage.applicationKeys
    {
      C.KeyHandleValid(storage.State(), keyHandle, application)
    }

    /** Runs the registration ceremony. */
    method Register(application: ApplicationParameter, challenge: ChallengeParameter, generation: C.KeyGeneration)
      returns (result: Result<Registration, RegisterError>)
      modifies storage
      ensures C.Step(storage.State(), result) ==
              C.Register(old(storage.State()), approval, sign, attestationCertificate, application, challenge, generation)
      ensures result.Err? ==> unchanged(storage)
    {
      if !approval.ApproveRegistration(application) {
        return Err(RegisterError.ApprovalRequired);
      }
      var applicationKey: ApplicationKey;
      match C.GenerateApplicationKey(application, generation) {
        case Ok(key) =>
          applicationKey := key;
        case Err(e) =>
          return Err(RegisterError.Io(e));
      }
      storage.AddApplicationKey(applicationKey);
      var signature := sign(attestationCertificate.key, []);
      return Ok(Registration([], applicationKey.handle, [], signature));
    }
  }
}
