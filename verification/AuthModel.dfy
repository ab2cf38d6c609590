/** The authorization service's records, tables and time windows.

    Signatures are ideal: a verification succeeds exactly for the payloads in a set of signed
    payloads. JSON payloads are the records themselves, so the encoding is injective. */
module AuthModel {
  import opened Bytes
  import opened Text

  // ------------------------------------------------------------------- time --

  const I64_MAX := 0x7FFF_FFFF_FFFF_FFFF
  const I64_MIN := -0x8000_0000_0000_0000

  type time = t: int | I64_MIN <= t <= I64_MAX

  function SatAdd(a: time, b: time): (r: time)
  {
    if a + b > I64_MAX then I64_MAX else if a + b < I64_MIN then I64_MIN else a + b
  }

  function SatSub(a: time, b: time): (r: time)
  {
    if a - b > I64_MAX then I64_MAX else if a - b < I64_MIN then I64_MIN else a - b
  }

  const LEASE_MAX_SECS: time := 15 * 60
  const REQUEST_MAX_AGE_SECS: time := 5 * 60
  const MAX_CLOCK_SKEW_SECS: time := 5 * 60
  const NONCE_RETENTION_SECS: time := REQUEST_MAX_AGE_SECS + MAX_CLOCK_SKEW_SECS
  const CHALLENGE_TTL_SECS: time := 5 * 60
  const ARTIFACT_TTL_SECS: time := 5 * 60
  const EXECUTION_GRANT_TTL_SECS: time := 2 * 60
  const MAX_NONCE_BYTES := 256
  const ARTIFACT_CHUNK_SIZE := 256 * 1024
  const MAX_EXECUTION_RELEASE_BYTES := 512 * 1024

  predicate RequestTimeOk(iat: time, now: time)
  {
    SatSub(now, REQUEST_MAX_AGE_SECS) <= iat <= SatAdd(now, MAX_CLOCK_SKEW_SECS)
  }

  // ---------------------------------------------------------------- strings --

  predicate NonceOk(nonce: string)
  {
    !IsBlank(nonce) && Utf8Length(nonce) <= MAX_NONCE_BYTES
  }

  predicate IsHexDigit(c: char)
  {
    '0' <= c <= '9' || 'a' <= c <= 'f' || 'A' <= c <= 'F'
  }

  /** 64 bytes, all hexadecimal digits. */
  predicate IsSha256(s: string)
  {
    |s| == 64 && forall i :: 0 <= i < |s| ==> IsHexDigit(s[i])
  }

  // ---------------------------------------------------------------- records --

  datatype KeyAlgorithm = Ed25519DpapiV1 | EcdsaP256CngV1

  datatype Capability = ProtectedPreset | ProtectedArtifact | ProtectedAlgorithm

  datatype Client = Client(
    clientId: string, accountId: string, deviceId: string, key: string, algorithm: KeyAlgorithm,
    version: string, approved: bool, revoked: bool)

  datatype Challenge = Challenge(text: string, version: string, expiresAt: time)

  datatype Session = Session(
    sessionId: string, clientId: string, accountId: string, deviceId: string,
    capabilities: seq<Capability>, jti: string, exp: time, revoked: bool)

  datatype Artifact = Artifact(artifactId: string, version: string, abi: string, android: string, path: string)

  /** A file on the artifact disk: its bytes, its hash, and whether its canonical path lies in the
      artifact root. */
  datatype File = File(bytes: seq<byte>, sha256: string, insideRoot: bool)

  datatype LeaseClaims = LeaseClaims(
    accountId: string, clientId: string, deviceId: string, sessionId: string, capabilities: seq<Capability>,
    clientVersion: string, iat: time, exp: time, jti: string, nonce: string)

  datatype GrantClaims = GrantClaims(
    iss: string, aud: string, clientId: string, deviceId: string, sessionId: string, clientVersion: string,
    artifactId: string, sha256: string, action: string, vm: string, instance: string,
    iat: time, exp: time, jti: string, nonce: string)

  datatype ReceiptClaims = ReceiptClaims(
    iss: string, aud: string, clientId: string, deviceId: string, sessionId: string, clientVersion: string,
    artifactId: string, sha256: string, action: string, vm: string, instance: string,
    grantJti: string, iat: time, exp: time)

  /** What a client device signs. */
  datatype Proof =
    | RegistrationProof(clientId: string, challenge: string)
    | SessionProof(clientId: string, deviceId: string, version: string, nonce: string, iat: time,
      capabilities: seq<Capability>)
    | HeartbeatProof(sessionId: string, clientId: string, deviceId: string, nonce: string, iat: time)
    | GrantProof(artifactId: string, sha256: string, action: string, vm: string, instance: string, nonce: string,
      iat: time)
    | GrantPayloadProof(claims: GrantClaims)

  datatype DeviceSignature = DeviceSignature(algorithm: KeyAlgorithm, key: string, proof: Proof, signature: string)

  /** A grant as a caller presents it: `intact` when key id, payload and signature are bytes the
      service's own key produced or could have produced; the claims must then have been signed. */
  datatype PresentedGrant = PresentedGrant(claims: GrantClaims, intact: bool, deviceProof: Option<string>)

  datatype Manifest = Manifest(
    artifactId: string, version: string, abi: string, android: string, sessionId: string, deviceId: string,
    size: nat, sha256: string, expiresAt: time, transferId: string, chunkSize: nat, chunkCount: nat,
      noncePrefix: seq<byte>)

  datatype Transfer = Transfer(artifactId: string, sessionId: string, deviceId: string, path: string,
    manifest: Manifest)

  /** Everything the service keeps, plus the signature sets and the artifact disk. `devices` is the
      unique index on the device column of the clients table. */
  datatype State = State(
    clients: map<string, Client>,
    devices: map<string, string>,
    challenges: map<string, Challenge>,
    nonces: map<string, time>,
    sessions: map<string, Session>,
    entitlements: map<(string, Capability), bool>,
    artifacts: map<string, Artifact>,
    transfers: map<string, Transfer>,
    maxTransfers: nat,
    signedGrants: set<GrantClaims>,
    signedReceipts: set<ReceiptClaims>,
    deviceSigned: set<DeviceSignature>,
    files: map<string, File>)

  datatype AuthError =
    | BadRequest | Unauthorized | Replay | NotFound | Internal
    | ClientRevoked | ApprovalPending | BindingMismatch | ClientOutdated
    | SessionRevoked | LeaseExpired | CapabilityNotEntitled | CapabilityRevoked | MissingCapability
    | InvalidGrant | WorkflowMismatch | DeviceProofRequired | DeviceProofInvalid
    | ArtifactIntegrity | ArtifactPathInvalid | ArtifactTooLarge | TargetMismatch | TransferCapacity

  datatype Reply =
    | Registered(clientId: string, challenge: string)
    | RegistrationCompleted(clientId: string)
    | LeaseIssued(lease: LeaseClaims)
    | CapabilitiesListed(session: Session)
    | SessionClosed
    | GrantIssued(grant: GrantClaims)
    | ArtifactReleased(artifactId: string, file: File)
    | ReceiptIssued(receipt: ReceiptClaims)
    | ManifestIssued(manifest: Manifest)
    | ChunkServed(index: nat, plaintext: seq<byte>, nonce: seq<byte>)
    | AdminDone
    | Failed(error: AuthError)

  /** A reply, and the nonce that `consume_nonce` newly reserved on the way, if any. */
  datatype Outcome = Outcome(reply: Reply, reserved: Option<string>)

  function Refuse(e: AuthError): (o: Outcome)
  {
    Outcome(Failed(e), None)
  }
}
