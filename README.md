# SoftU2F authenticator engine and in-memory secret store, in Dafny

This project models the decision core of `rust-u2f`'s software U2F authenticator
(`u2f-tokio/src/lib.rs`): the engine `SoftU2F`, the reference `InMemoryStorage`
secret store and the `FakeApprovalService` consent gate. Together they form a small
sequential state machine over three pieces of state:

- a map from application parameter to its one registered key,
- a map from application parameter to its unsigned 32-bit replay counter,
- an optional attestation-certificate slot.

The engine runs two ceremonies. `register` checks consent, generates a key, stores it
and signs. `authenticate` checks consent, looks the key up, reads and increments the
counter, and signs. It also answers the read-only `is_valid_key_handle` query and
returns the constant version string `U2F_V2`. Constructing it resolves the attestation
certificate: it reuses the stored one or generates one and persists it.

Layout:

- `types.dfy` (`Types`): identifiers, credentials, results and error taxonomies.
  Keys are opaque tokens. The signing operation is an uninterpreted total function
  `Signer` of the key and the signed bytes.
- `approval.dfy` (`Approval`): the two-flag consent test double.
- `store_model.dfy` (`StoreModel`): the store's logical content `StoreState` and each
  store operation as a transition on it.
- `in_memory_store.dfy` (`InMemoryStore`): the class `InMemoryStorage`. Its fields are
  updated in place, and each mutating method is proved to perform the `StoreModel`
  transition.
- `ceremony.dfy` (`Ceremony`): the ceremonies and the certificate resolution as
  transitions, plus lemmas about them, alone and in sequence.
- `engine.dfy` (`Engine`): the class `SoftU2F`. It owns the store, and each operation is
  proved to perform the `Ceremony` transition.
- `scenarios.dfy` (`Scenarios`): the repository's unit tests as client methods.

The collaborator interfaces (`ApprovalService`, `CryptoOperations`, `SecretStore`) have
one implementation each in scope, so the engine is written against those directly.
Key generation is an input, `KeyGeneration`. It is either a fresh key with a handle
drawn from the operating system's random source, or the failure to open that source,
which surfaces as `Io`. The certificate generated at start-up is also an input.

## Quirks of the code kept in the model

The model keeps these behaviours of the code as they are:

- `SecretStore::retrieve_application_key` takes both an application and a handle
  (lines 85-89), which suggests that both are checked, as U2F key handles are meant to
  select one credential. The in-memory store looks up by application only (lines
  365-371). So once an application is registered, every handle is valid for it,
  including the all-zero handle that was never issued (`AnyHandleAcceptedOnceRegistered`,
  `RegisterThenAuthenticateTwice`).
- A replay counter is normally expected never to report the same value twice. The first
  read for an application stores and returns 0 (lines 360-362), so the sequence is
  0, 0, 1, 2, ... (`CountersAfterRegistration`, `RegisterThenAuthenticateTwice`).
- Registering an application again replaces its earlier key (line 342,
  `ReregistrationReplacesKey`). A key changes only this way
  (`RunKeepsKeyUntilReregistered`).
- Both ceremonies sign the empty byte sequence rather than a U2F payload (lines 193 and
  233). The registration's public-key and certificate fields are empty (lines 237 and
  239).

## Model

| member | source | states |
|---|---|---|
| `Approval.FakeApprovalService.AlwaysApprove` | u2f-tokio/src/lib.rs:307-312 | the always-approve double grants both kinds of consent |
| `Approval.FakeApprovalService.ApproveAuthentication` | u2f-tokio/src/lib.rs:316-318 | consent to authenticate is exactly the flag, for every application |
| `Approval.FakeApprovalService.ApproveRegistration` | u2f-tokio/src/lib.rs:319-321 | consent to register is exactly the flag, for every application |
| `StoreModel.WrappingIncrement` | u2f-tokio/src/lib.rs:356 | the u32 increment adds one below 4294967295 and wraps to 0 there |
| `StoreModel.AddApplicationKey` | u2f-tokio/src/lib.rs:341-344 | the key becomes the application's key, replacing any earlier one; other applications' keys, the counters and the certificate slot are unchanged |
| `StoreModel.GetAttestationCertificate` | u2f-tokio/src/lib.rs:346-348 | the read gives the stored certificate exactly when one is stored, and nothing otherwise |
| `StoreModel.SetAttestationCertificate` | u2f-tokio/src/lib.rs:373-380 | the slot then holds the certificate; keys and counters are unchanged |
| `StoreModel.GetThenIncrementCounter` | u2f-tokio/src/lib.rs:350-363 | an unseen application gets 0 stored and returned; a stored value c is returned and c+1 (wrapping) stored; other counters, keys and slot are untouched |
| `StoreModel.RetrieveApplicationKey` | u2f-tokio/src/lib.rs:365-371 | finds a key exactly when the application has one, and then it is that key |
| `StoreModel.RetrieveIgnoresHandle` | u2f-tokio/src/lib.rs:365-371 | the lookup gives the same answer for every handle |
| `StoreModel.RetrieveAfterAdd` | u2f-tokio/src/lib.rs:341-371 | after adding a key, every handle resolves to it under its application; other applications resolve as before |
| `StoreModel.CounterReadingsFrom` | u2f-tokio/src/lib.rs:354-357 | from a stored counter c, n reads return c, c+1, ..., c+n-1 and leave c+n, while no read wraps |
| `StoreModel.CounterReadingsFresh` | u2f-tokio/src/lib.rs:350-363 | for an unseen application, n reads return 0, 0, 1, ..., n-2 |
| `InMemoryStore.InMemoryStorage.constructor` | u2f-tokio/src/lib.rs:331-337 | a new store has no keys, no counters and an empty slot |
| `InMemoryStore.InMemoryStorage.AddApplicationKey` | u2f-tokio/src/lib.rs:341-344 | the in-place insert performs the `StoreModel.AddApplicationKey` transition |
| `InMemoryStore.InMemoryStorage.SetAttestationCertificate` | u2f-tokio/src/lib.rs:373-380 | the in-place write performs the `StoreModel.SetAttestationCertificate` transition |
| `InMemoryStore.InMemoryStorage.GetThenIncrementCounter` | u2f-tokio/src/lib.rs:350-363 | the in-place bump performs the `StoreModel.GetThenIncrementCounter` transition and returns the old value, or 0 for an unseen application |
| `Ceremony.GenerateApplicationKey` | u2f-tokio/src/lib.rs:262-273 | a generated key is bound to the requested application with the drawn handle; a failed random source is an I/O error |
| `Ceremony.GetOrCreateAttestationCertificate` | u2f-tokio/src/lib.rs:159-171 | a stored certificate is reused and nothing is written; otherwise the generated one is persisted; either way the slot ends up holding the engine's certificate, and keys and counters are untouched |
| `Ceremony.Register` | u2f-tokio/src/lib.rs:220-242 | denial and a failed random source leave the store as it was; success stores the generated key under the application and returns its handle, empty key and certificate fields, and the attestation key's signature over empty data |
| `Ceremony.Authenticate` | u2f-tokio/src/lib.rs:173-200 | denial and a failed lookup leave the store as it was; success advances only that application's counter and returns the value read, signed with the application's key; no I/O error arises |
| `Ceremony.KeyHandleValid` | u2f-tokio/src/lib.rs:206-218 | true exactly when the application has a key, whatever the handle |
| `Ceremony.CertificateResolutionIdempotent` | u2f-tokio/src/lib.rs:159-171 | resolving the certificate again on the resulting store returns the same certificate and writes nothing |
| `Ceremony.FreshStoreHasNoValidHandle` | u2f-tokio/src/lib.rs:409-422 | on a new store, before and after certificate resolution, no handle is valid for any application |
| `Ceremony.RegisterDeniedChangesNothing` | u2f-tokio/src/lib.rs:225-227 | refused registration returns ApprovalRequired with the store unchanged, so no handle validity changes |
| `Ceremony.AuthenticateDeniedChangesNothing` | u2f-tokio/src/lib.rs:179-181 | refused authentication returns ApprovalRequired with the store and every counter unchanged, registered or not |
| `Ceremony.BadKeyHandleLeavesCounters` | u2f-tokio/src/lib.rs:183-190 | a lookup that finds nothing returns BadKeyHandle with counters and store unchanged |
| `Ceremony.RegisterThenAuthenticate` | u2f-tokio/src/lib.rs:229-238 | the handle a successful registration returns is valid and resolves to exactly the generated key, and authentication with it under any challenge succeeds with the key generated for that registration |
| `Ceremony.AnyHandleAcceptedOnceRegistered` | u2f-tokio/src/lib.rs:365-371 | once an application has a key, every handle is valid for it and authenticates |
| `Ceremony.ReregistrationReplacesKey` | u2f-tokio/src/lib.rs:341-342 | a second registration replaces the first key; the first handle then authenticates with the second key |
| `Ceremony.RepeatedAuthenticationReadsCounter` | u2f-tokio/src/lib.rs:183-199 | n authentications against a registered application all succeed and report exactly n successive counter reads, in order |
| `Ceremony.CountersAfterRegistration` | u2f-tokio/src/lib.rs:190 | the first authentications of a registered application whose counter was never read report 0, 0, 1, 2, ... |
| `Ceremony.ServeStep` | u2f-tokio/src/lib.rs:173-242 | one ceremony leaves the certificate slot alone, loses no key or counter, and moves each counter by at most one increment |
| `Ceremony.RunKeepsInvariants` | u2f-tokio/src/lib.rs:173-242 | over any sequence of ceremonies the slot is constant, keys and counters are never lost, and counters never go backwards, rising at most one per ceremony below the wrap point |
| `Ceremony.RunKeepsKeyUntilReregistered` | u2f-tokio/src/lib.rs:341-344 | over any sequence of ceremonies that does not register an application again, that application keeps exactly the key it had, so its issued handle keeps resolving to the key generated with it |
| `Ceremony.RunWithoutConsentChangesNothing` | u2f-tokio/src/lib.rs:173-242 | with both consents refused, any sequence of ceremonies leaves the store exactly as it was |
| `Engine.SoftU2F.constructor` | u2f-tokio/src/lib.rs:145-157 | keeps the collaborators and resolves the certificate as `Ceremony.GetOrCreateAttestationCertificate` says |
| `Engine.SoftU2F.GetAttestationCertificate` | u2f-tokio/src/lib.rs:159-171 | returns a stored certificate without touching the store; otherwise persists the generated one; the slot then holds the result |
| `Engine.SoftU2F.Authenticate` | u2f-tokio/src/lib.rs:173-200 | performs the `Ceremony.Authenticate` transition on the owned store; an error leaves the store unchanged |
| `Engine.SoftU2F.GetVersionString` | u2f-tokio/src/lib.rs:202-204 | the version token is the constant "U2F_V2" |
| `Engine.SoftU2F.IsValidKeyHandle` | u2f-tokio/src/lib.rs:206-218 | reads the store without changing it; true exactly when the lookup finds a key, which is exactly when the application has one |
| `Engine.SoftU2F.Register` | u2f-tokio/src/lib.rs:220-242 | performs the `Ceremony.Register` transition on the owned store; an error leaves the store unchanged |
| `Scenarios.IsValidKeyHandleWithInvalidHandleIsFalse` | u2f-tokio/src/lib.rs:409-422 | on a fresh engine the all-zero handle is not valid |
| `Scenarios.IsValidKeyHandleWithValidHandleIsTrue` | u2f-tokio/src/lib.rs:425-439 | the registered handle is valid, for every generated key and handle |
| `Scenarios.AuthenticateWithInvalidHandleErrors` | u2f-tokio/src/lib.rs:443-457 | authentication with nothing registered fails with BadKeyHandle |
| `Scenarios.AuthenticateWithValidHandleSucceeds` | u2f-tokio/src/lib.rs:460-473 | authentication with the registered handle succeeds and signs with the generated key |
| `Scenarios.AuthenticateWithRejectedApprovalErrors` | u2f-tokio/src/lib.rs:476-493 | refused authentication consent fails with ApprovalRequired despite a valid registration |
| `Scenarios.RegisterWithRejectedApprovalErrors` | u2f-tokio/src/lib.rs:496-513 | refused registration consent fails with ApprovalRequired and leaves no valid handle |
| `Scenarios.RegisterThenAuthenticateTwice` | u2f-tokio/src/lib.rs:354-371 | after one registration two authentications both report counter 0, and an unissued handle is valid |
| `Scenarios.ConstructTwiceReusesCertificate` | u2f-tokio/src/lib.rs:159-171 | two engines built on one store use the first engine's certificate |

## Left out

- OpenSSL key generation and ECDSA signing (lines 248-252, 276-287) are foreign library calls. A key is an opaque token, and a signature is an uninterpreted function of key and data. ECDSA signing is randomized, so an equality such as `signature == sign(key, [])` means "signed with that key over that data", not "these exact bytes". The `unwrap` panics inside them are not modelled.
- The OS random draw of the key handle (lines 254-258) is an input. Only its outcome matters: a handle, or the failure to open the random source.
- The attestation certificate that `generate_attestation_certificate` produces (lines 275-278) is an input to construction.
- The byte-level U2F registration and authentication payloads are not modelled, because the code signs empty data. The challenge is accepted and never used, as in the code.
- The `Signing` error variants carry `SignError`, which has no values, so they cannot occur and have no counterpart.
- The I/O error results of the store and approval interfaces are not modelled, because the in-memory store and the fake approval service always succeed. The only `Io` outcome modelled is the failed random source during registration.
- The three collaborator traits and their dynamic dispatch are not modelled as interfaces. The engine uses their single in-scope implementations directly.
- `StoreModel.WrappingIncrement`: `*counter += 1` on a `u32` is modelled as release-build wrap-around. A debug build panics at 4294967295 instead.
- Concurrency and atomicity of the counter are not modelled, because the code is single-threaded through `&mut self`.
- `Clone`/`Debug` impls, the `quick_error!` plumbing, the `Signature`/`RawSignature` boxing, lifetimes and the commented-out test context are not modelled (lines 35-45, 110-135, 290-299, 383-388).
