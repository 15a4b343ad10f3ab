/** Shared data model of the software U2F authenticator: the identifiers that travel
    through a ceremony, the credentials the secret store keeps, the ceremony results
    and the two error taxonomies. */
module Types {

  newtype byte = b: int | 0 <= b < 0x100

  type Bytes = seq<byte>

  /** A SHA-256 digest: exactly 32 bytes. */
  type Hash = s: Bytes | |s| == 32 witness seq(32, i => 0)

  const ALL_ZERO_HASH: Hash := seq(32, i => 0)

  /** Identifies the relying party; the store's primary key. Equality is byte equality. */
  datatype ApplicationParameter = ApplicationParameter(hash: Hash)

  /** Per-ceremony freshness value; never persisted. */
  datatype ChallengeParameter = ChallengeParameter(hash: Hash)

  /** Opaque 32-byte identifier handed out at registration. */
  datatype KeyHandle = KeyHandle(bytes: Hash)

  /** An elliptic-curve key pair, kept as an opaque token: only its identity matters here. */
  datatype Key = Key(id: nat)

  /** One registered credential. */
  datatype ApplicationKey = ApplicationKey(application: ApplicationParameter, handle: KeyHandle, key: Key)

  /** The attestation identity shared by every registration. */
  datatype AttestationCertificate = AttestationCertificate(key: Key)

  /** The replay counter is an unsigned 32-bit integer. */
  const COUNTER_MODULUS: int := 0x1_0000_0000
  const COUNTER_MAX: int := COUNTER_MODULUS - 1
  type Counter = c: int | 0 <= c < COUNTER_MODULUS

  type Signature = Bytes

  /** The signing operation of the cryptographic backend, left uninterpreted: any total
      function of the key and the signed bytes. Its error type has no values, so signing
      never fails. */
  type Signer = (Key, Bytes) -> Signature

  datatype Registration = Registration(
    userPublicKey: Bytes,
    keyHandle: KeyHandle,
    attestationCertificate: Bytes,
    signature: Signature)

  datatype Authentication = Authentication(counter: Counter, signature: Signature)

  /** A failure of an I/O channel (storage, randomness source, approval channel). */
  datatype IoError = IoError

  /** The `Signing` variants of the source carry an uninhabited error type and so can
      never be built; they have no counterpart here. */
  datatype AuthenticateError = ApprovalRequired | BadKeyHandle | Io(err: IoError)

  datatype RegisterError = ApprovalRequired | Io(err: IoError)

  datatype Option<+T> = None | Some(value: T)

  datatype Result<+T, +E> = Ok(value: T) | Err(error: E)
}
