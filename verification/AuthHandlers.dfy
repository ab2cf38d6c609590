/** Each request handler as one atomic step on the service's state. Identifiers the service draws
    (UUIDs, random nonces) are arguments. */
module AuthHandlers {
  import opened Bytes
  import opened Text
  import opened AuthModel
  import opened AuthTables

  datatype RegisterRequest = RegisterRequest(
    installId: string, deviceId: string, version: string, platform: string, key: string, keyWellFormed: bool,
    algorithm: KeyAlgorithm, product: string)

  datatype SessionRequest = SessionRequest(
    clientId: string, deviceId: string, version: string, nonce: string, iat: time,
    capabilities: seq<Capability>, signature: string)

  datatype HeartbeatRequest = HeartbeatRequest(
    clientId: string, deviceId: string, nonce: string, iat: time, signature: string)

  datatype GrantRequest = GrantRequest(
    artifactId: string, sha256: string, action: string, vm: string, instance: string,
    nonce: string, iat: time, signature: string)

  datatype PrepareRequest = PrepareRequest(
    deviceId: string, abi: string, android: string, ephemeralKey: string, ephemeralKeyWellFormed: bool)

  // ----------------------------------------------------------- registration --

  function Register(s: State, now: time, r: RegisterRequest, freshClient: string,
      challenge: string): (x: (State, Outcome))
    ensures x.0 == s.(clients := x.0.clients, devices := x.0.devices, challenges := x.0.challenges)
    ensures x.1.reply.Failed? || x.1.reply.Registered?
  {
    if IsBlank(r.installId) || IsBlank(r.deviceId) || IsBlank(r.version) || IsBlank(r.platform) || IsBlank(r.product)
    then (s, Refuse(BadRequest))
    else if !r.keyWellFormed then (s, Refuse(BadRequest))
    else RegisterDevice(s, now, r, freshClient, challenge)
  }

  /** A known device gets a new challenge if its key binding matches; an unknown one becomes a
      pending client. */
  function RegisterDevice(s: State, now: time, r: RegisterRequest, freshClient: string,
      challenge: string): (x: (State, Outcome))
    ensures x.0 == s.(clients := x.0.clients, devices := x.0.devices, challenges := x.0.challenges)
    ensures x.1.reply.Failed? || x.1.reply.Registered?
  {
    match ClientByDevice(s, r.deviceId)
    case Some(c) =>
      if c.revoked then (s, Refuse(ClientRevoked))
      else if c.key != r.key || c.algorithm != r.algorithm then (s, Refuse(BindingMismatch))
      else (Challenged(s, now, c.clientId, challenge, r.version), Outcome(Registered(c.clientId, challenge), None))
    case None =>
      var pending := Client(freshClient, "pending:" + freshClient, r.deviceId, r.key, r.algorithm, r.version, false,
        false);
      (Challenged(WithClient(s, pending), now, freshClient, challenge, r.version),
        Outcome(Registered(freshClient, challenge), None))
  }

  function WithClient(s: State, c: Client): (t: State)
  {
    s.(clients := s.clients[c.clientId := c], devices := s.devices[c.deviceId := c.clientId])
  }

  function Challenged(s: State, now: time, clientId: string, challenge: string, version: string): (t: State)
  {
    s.(challenges := s.challenges[clientId := Challenge(challenge, version, SatAdd(now, CHALLENGE_TTL_SECS))])
  }

  predicate ChallengeOpen(s: State, clientId: string, challenge: string, now: time)
  {
    && clientId in s.challenges
    && s.challenges[clientId].text == challenge && s.challenges[clientId].expiresAt > now
  }

  predicate SignedBy(s: State, c: Client, proof: Proof, signature: string)
  {
    DeviceSignature(c.algorithm, c.key, proof, signature) in s.deviceSigned
  }

  function Complete(s: State, now: time, clientId: string, challenge: string, signature: string): (x: (State, Outcome))
    ensures x.0 == s.(clients := x.0.clients, sessions := x.0.sessions, challenges := x.0.challenges)
    ensures x.1.reply.Failed? || x.1.reply.RegistrationCompleted?
  {
    match ClientOf(s, clientId)
    case None => (s, Refuse(Unauthorized))
    case Some(c) =>
      if !ChallengeOpen(s, clientId, challenge, now) then (s, Refuse(Unauthorized))
      else if !SignedBy(s, c, RegistrationProof(clientId, challenge), signature) then (s, Refuse(Unauthorized))
      else
        var asked := s.challenges[clientId].version;
        var version := if IsBlank(asked) then c.version else asked;
        var t := s.(challenges := s.challenges - {clientId});
        (RegistrationUpdated(t, clientId, version), Outcome(RegistrationCompleted(clientId), None))
  }

  // --------------------------------------------------------------- sessions --

  function Unusable(c: Client, deviceId: string): (e: Option<AuthError>)
  {
    if c.revoked then Some(ClientRevoked)
    else if !c.approved then Some(ApprovalPending)
    else if c.deviceId != deviceId then Some(BindingMismatch)
    else None
  }

  function Lease(c: Client, sessionId: string, caps: seq<Capability>, nonce: string, jti: string, iat: time,
      exp: time): (l: LeaseClaims)
  {
    LeaseClaims(c.accountId, c.clientId, c.deviceId, sessionId, caps, c.version, iat, exp, jti, nonce)
  }

  function CreateSession(s: State, now: time, r: SessionRequest, freshSession: string,
      freshJti: string): (x: (State, Outcome))
    ensures x.0 == s.(nonces := x.0.nonces, sessions := x.0.sessions)
    ensures x.1.reply.Failed? || x.1.reply.LeaseIssued?
  {
    if IsBlank(r.clientId) || IsBlank(r.deviceId) || IsBlank(r.version) || !NonceOk(r.nonce)
      || !RequestTimeOk(r.iat, now) || r.capabilities == []
    then (s, Refuse(BadRequest))
    else
      match ClientOf(s, r.clientId)
      case None => (s, Refuse(Unauthorized))
      case Some(c) =>
        if Unusable(c, r.deviceId).Some? then (s, Refuse(Unusable(c, r.deviceId).value))
        else if c.version != r.version then (s, Refuse(ClientOutdated))
        else if !SignedBy(s, c, SessionProof(r.clientId, r.deviceId, r.version, r.nonce, r.iat, r.capabilities),
          r.signature)
        then (s, Refuse(Unauthorized))
        else
          OpenSession(s, now, r, c, freshSession, freshJti)
  }

  /** The end of `create_session`: reserve the nonce, and replace the client's session by a new one. */
  function OpenSession(s: State, now: time, r: SessionRequest, c: Client, freshSession: string,
      freshJti: string): (x: (State, Outcome))
    ensures x.0 == s.(nonces := x.0.nonces, sessions := x.0.sessions)
    ensures (x.1.reply.Failed? || x.1.reply.LeaseIssued?) && x.1.reply != Failed(CapabilityRevoked)
  {
    var t := NonceTried(s, r.nonce, now);
    if !NonceFree(s, r.nonce, now) then (t, Refuse(Replay))
    else if !AllEntitled(t, c.accountId, r.capabilities) then
      (t, Outcome(Failed(CapabilityNotEntitled), Some(r.nonce)))
    else
      var exp := SatAdd(now, LEASE_MAX_SECS);
      var u := ActiveSessionsRevoked(t, c.clientId, now);
      var row := Session(freshSession, c.clientId, c.accountId, c.deviceId, r.capabilities, freshJti, exp, false);
      (u.(sessions := u.sessions[freshSession := row]),
       Outcome(LeaseIssued(Lease(c, freshSession, r.capabilities, r.nonce, freshJti, now, exp)), Some(r.nonce)))
  }

  /** The token of an `Authorization: Bearer` header. */
  function BearerToken(header: Option<string>): (r: Option<string>)
  {
    if header.Some? && |header.value| >= 7 && header.value[..7] == "Bearer " && !IsBlank(header.value[7..])
    then Some(header.value[7..]) else None
  }

  /** The live session a header names. A capability that is no longer entitled kills the session. */
  function SessionFromHeaders(s: State, header: Option<string>, now: time): (x: (State, Result<Session, AuthError>))
    ensures x.0 == s.(sessions := x.0.sessions)
  {
    match BearerToken(header)
    case None => (s, Err(Unauthorized))
    case Some(id) =>
      match SessionOf(s, id)
      case None => (s, Err(Unauthorized))
      case Some(session) =>
        if session.revoked then (s, Err(SessionRevoked))
        else if session.exp <= now then (s, Err(Unauthorized))
        else
          match ClientOf(s, session.clientId)
          case None => (s, Err(Unauthorized))
          case Some(c) =>
            if Unusable(c, session.deviceId).Some? then (s, Err(Unusable(c, session.deviceId).value))
            else if !AllEntitled(s, c.accountId, session.capabilities) then
              (SessionRevokedIn(s, session.sessionId), Err(CapabilityRevoked))
            else (s, Ok(session))
  }

  function ListCapabilities(s: State, now: time, header: Option<string>): (x: (State, Outcome))
    ensures x.0 == s.(sessions := x.0.sessions) && (x.1.reply.Failed? || x.1.reply.CapabilitiesListed?)
  {
    var (t, found) := SessionFromHeaders(s, header, now);
    match found
    case Err(e) => (t, Refuse(e))
    case Ok(session) => (t, Outcome(CapabilitiesListed(session), None))
  }

  function Heartbeat(s: State, now: time, sessionId: string, r: HeartbeatRequest,
      freshJti: string): (x: (State, Outcome))
    ensures x.0 == s.(nonces := x.0.nonces, sessions := x.0.sessions)
    ensures x.1.reply.Failed? || x.1.reply.LeaseIssued?
  {
    match SessionOf(s, sessionId)
    case None => (s, Refuse(Unauthorized))
    case Some(session) =>
      if session.revoked then (s, Refuse(SessionRevoked))
      else if session.exp <= now then (s, Refuse(LeaseExpired))
      else if session.clientId != r.clientId || session.deviceId != r.deviceId then (s, Refuse(BindingMismatch))
      else if !NonceOk(r.nonce) || !RequestTimeOk(r.iat, now) then (s, Refuse(BadRequest))
      else
        match ClientOf(s, session.clientId)
        case None => (s, Refuse(Unauthorized))
        case Some(c) =>
          if Unusable(c, r.deviceId).Some? then (s, Refuse(Unusable(c, r.deviceId).value))
          else if !SignedBy(s, c, HeartbeatProof(sessionId, r.clientId, r.deviceId, r.nonce, r.iat), r.signature)
          then (s, Refuse(Unauthorized))
          else Renew(s, now, sessionId, session, c, r.nonce, freshJti)
  }

  /** The end of `heartbeat`: reserve the nonce, and renew the session or kill it. */
  function Renew(s: State, now: time, sessionId: string, session: Session, c: Client, nonce: string,
      freshJti: string): (x: (State, Outcome))
    ensures x.0 == s.(nonces := x.0.nonces, sessions := x.0.sessions)
    ensures x.1.reply.Failed? || x.1.reply.LeaseIssued?
  {
    var t := NonceTried(s, nonce, now);
    if !NonceFree(s, nonce, now) then (t, Refuse(Replay))
    else if !AllEntitled(t, c.accountId, session.capabilities) then
      (SessionRevokedIn(t, sessionId), Outcome(Failed(CapabilityRevoked), Some(nonce)))
    else
      var exp := SatAdd(now, LEASE_MAX_SECS);
      (t.(sessions := t.sessions[sessionId := session.(jti := freshJti, exp := exp)]),
       Outcome(LeaseIssued(Lease(c, sessionId, session.capabilities, nonce, freshJti, now, exp)), Some(nonce)))
  }

  function CloseSession(s: State, now: time, header: Option<string>, sessionId: string): (x: (State, Outcome))
    ensures x.0 == s.(sessions := x.0.sessions) && (x.1.reply.Failed? || x.1.reply.SessionClosed?)
  {
    var (t, found) := SessionFromHeaders(s, header, now);
    match found
    case Err(e) => (t, Refuse(e))
    case Ok(session) =>
      if session.sessionId != sessionId then (t, Refuse(BindingMismatch))
      else (SessionRevokedIn(t, sessionId), Outcome(SessionClosed, None))
  }

  // ------------------------------------------------------- execution grants --

  predicate ValidAction(action: string)
  {
    action == "preset_apply" || action == "preset_restore" || action == "preset_details"
  }

  predicate ArtifactAllows(artifactId: string, action: string)
  {
    || (artifactId == "qemu-guest-script" && action == "preset_apply")
    || (artifactId == "qemu-guest-script-universal" && (action == "preset_restore" || action == "preset_details"))
  }

  predicate HasGrantCapabilities(session: Session)
  {
    ProtectedPreset in session.capabilities && ProtectedArtifact in session.capabilities
  }

  /** `safe_artifact_path` and the read that follows it. */
  function SafeFile(s: State, a: Artifact): (r: Result<File, AuthError>)
    ensures r.Err? ==> r.error == Internal || r.error == ArtifactPathInvalid
  {
    if a.path !in s.files then Err(Internal)
    else if !s.files[a.path].insideRoot then Err(ArtifactPathInvalid)
    else Ok(s.files[a.path])
  }

  predicate GrantRequestOk(r: GrantRequest, now: time)
  {
    && !IsBlank(r.artifactId) && (r.sha256 == [] || IsSha256(r.sha256))
    && ValidAction(r.action) && !IsBlank(r.vm) && !IsBlank(r.instance)
    && NonceOk(r.nonce) && RequestTimeOk(r.iat, now) && !IsBlank(r.signature)
  }

  function IssueGrant(s: State, now: time, header: Option<string>, r: GrantRequest,
      freshJti: string): (x: (State, Outcome))
    ensures x.0 == s.(sessions := x.0.sessions, nonces := x.0.nonces, signedGrants := x.0.signedGrants)
    ensures x.1.reply.Failed? || x.1.reply.GrantIssued?
  {
    var (t, found) := SessionFromHeaders(s, header, now);
    match found
    case Err(e) => (t, Refuse(e))
    case Ok(session) =>
      if !HasGrantCapabilities(session) then (t, Refuse(MissingCapability))
      else
        match ClientOf(t, session.clientId)
        case None => (t, Refuse(Unauthorized))
        case Some(c) =>
          if !GrantRequestOk(r, now) then (t, Refuse(BadRequest))
          else if !SignedBy(t, c, GrantProof(r.artifactId, r.sha256, r.action, r.vm, r.instance, r.nonce, r.iat),
            r.signature)
          then (t, Refuse(Unauthorized))
          else
            match ArtifactOf(t, r.artifactId)
            case None => (t, Refuse(NotFound))
            case Some(a) =>
              if !ArtifactAllows(a.artifactId, r.action) then (t, Refuse(WorkflowMismatch))
              else
                match SafeFile(t, a)
                case Err(e) => (t, Refuse(e))
                case Ok(file) =>
                  if r.sha256 != [] && file.sha256 != r.sha256 then (t, Refuse(ArtifactIntegrity))
                  else SignGrant(t, now, session, c, r, file.sha256, freshJti)
  }

  /** The end of `issue_execution_grant`: reserve the nonce and sign. */
  function SignGrant(t: State, now: time, session: Session, c: Client, r: GrantRequest, sha256: string,
      freshJti: string): (x: (State, Outcome))
    ensures x.0 == t.(nonces := x.0.nonces, signedGrants := x.0.signedGrants)
    ensures (x.1.reply.Failed? || x.1.reply.GrantIssued?) && x.1.reply != Failed(CapabilityRevoked)
  {
    var u := NonceTried(t, r.nonce, now);
    if !NonceFree(t, r.nonce, now) then (u, Refuse(Replay))
    else
      var limit := SatAdd(now, EXECUTION_GRANT_TTL_SECS);
      var exp := if session.exp < limit then session.exp else limit;
      if exp <= now then (u, Outcome(Failed(Unauthorized), Some(r.nonce)))
      else
        var g := GrantClaims("rdc-auth", "rdc-guest-runner", c.clientId, session.deviceId, session.sessionId, c.version,
          r.artifactId, sha256, r.action, r.vm, r.instance, now, exp, freshJti, r.nonce);
        (u.(signedGrants := u.signedGrants + {g}), Outcome(GrantIssued(g), Some(r.nonce)))
  }

  predicate GrantClaimsOk(g: GrantClaims, now: time)
  {
    && g.iss == "rdc-auth" && g.aud == "rdc-guest-runner"
    && !IsBlank(g.clientId) && !IsBlank(g.deviceId) && !IsBlank(g.sessionId) && !IsBlank(g.clientVersion)
    && !IsBlank(g.artifactId) && IsSha256(g.sha256) && ValidAction(g.action)
    && !IsBlank(g.vm) && !IsBlank(g.instance) && !IsBlank(g.jti) && Utf8Length(g.jti) <= MAX_NONCE_BYTES
    && NonceOk(g.nonce)
    && g.exp > now && SatSub(now, REQUEST_MAX_AGE_SECS) <= g.iat <= SatAdd(now, 300) && g.exp > g.iat
  }

  /** `validate_execution_grant_for_artifact`: the file the grant releases, or the first check
      that fails. */
  function ValidateGrant(s: State, p: PresentedGrant, now: time): (x: (State, Result<File, AuthError>))
    ensures x.0 == s.(sessions := x.0.sessions)
  {
    var g := p.claims;
    if !p.intact || g !in s.signedGrants then (s, Err(InvalidGrant))
    else if !GrantClaimsOk(g, now) then (s, Err(InvalidGrant))
    else if !ArtifactAllows(g.artifactId, g.action) then (s, Err(WorkflowMismatch))
    else
      match SessionOf(s, g.sessionId)
      case None => (s, Err(SessionRevoked))
      case Some(session) =>
        if session.revoked || session.exp <= now || session.clientId != g.clientId || session.deviceId != g.deviceId
          || !HasGrantCapabilities(session)
        then (s, Err(SessionRevoked))
        else
          match ClientOf(s, session.clientId)
          case None => (s, Err(SessionRevoked))
          case Some(c) =>
            if Unusable(c, session.deviceId).Some? then (s, Err(Unusable(c, session.deviceId).value))
            else if p.deviceProof.None? || IsBlank(p.deviceProof.value) then (s, Err(DeviceProofRequired))
            else if !SignedBy(s, c, GrantPayloadProof(g), p.deviceProof.value) then (s, Err(DeviceProofInvalid))
            else if c.version != g.clientVersion then (s, Err(ClientOutdated))
            else if !AllEntitled(s, c.accountId, session.capabilities) then
              (SessionRevokedIn(s, session.sessionId), Err(CapabilityRevoked))
            else (s, GrantedFile(s, g))
  }

  function GrantedFile(s: State, g: GrantClaims): (r: Result<File, AuthError>)
  {
    match ArtifactOf(s, g.artifactId)
    case None => Err(ArtifactIntegrity)
    case Some(a) =>
      match SafeFile(s, a)
      case Err(e) => Err(e)
      case Ok(file) => if file.sha256 != g.sha256 then Err(ArtifactIntegrity) else Ok(file)
  }

  /** What the release finds when it looks at the file a second time: its length, and then its
      contents with their hash. The file may have changed since it was validated. */
  datatype Reread = Reread(length: Option<nat>, contents: Option<File>)

  function ReleaseGrant(s: State, now: time, p: PresentedGrant, again: Reread): (x: (State, Outcome))
    ensures x.0 == s.(sessions := x.0.sessions) && (x.1.reply.Failed? || x.1.reply.ArtifactReleased?)
  {
    var (t, checked) := ValidateGrant(s, p, now);
    match checked
    case Err(e) => (t, Refuse(e))
    case Ok(_) => (t, ReleaseContents(p.claims, again))
  }

  function ReleaseContents(g: GrantClaims, again: Reread): (o: Outcome)
    ensures o.reserved.None? && (o.reply.Failed? || o.reply.ArtifactReleased?) && o.reply != Failed(CapabilityRevoked)
  {
    if again.length.None? then Refuse(Internal)
    else if again.length.value > MAX_EXECUTION_RELEASE_BYTES then Refuse(ArtifactTooLarge)
    else if again.contents.None? then Refuse(Internal)
    else
      var file := again.contents.value;
      if |file.bytes| != again.length.value || |file.bytes| > MAX_EXECUTION_RELEASE_BYTES || file.sha256 != g.sha256
      then Refuse(ArtifactIntegrity)
      else Outcome(ArtifactReleased(g.artifactId, file), None)
  }

  function JtiReservation(jti: string): (nonce: string)
  {
    "execution-grant-jti:" + jti
  }

  function Receipt(g: GrantClaims, now: time): (r: ReceiptClaims)
  {
    var limit := SatAdd(now, EXECUTION_GRANT_TTL_SECS);
    ReceiptClaims("rdc-auth", "rdc-qemu-center", g.clientId, g.deviceId, g.sessionId, g.clientVersion,
      g.artifactId, g.sha256, g.action, g.vm, g.instance, g.jti, now, if g.exp < limit then g.exp else limit)
  }

  function ConsumeGrant(s: State, now: time, p: PresentedGrant): (x: (State, Outcome))
    ensures x.0 == s.(sessions := x.0.sessions, nonces := x.0.nonces, signedReceipts := x.0.signedReceipts)
    ensures x.1.reply.Failed? || x.1.reply.ReceiptIssued?
  {
    var (t, checked) := ValidateGrant(s, p, now);
    match checked
    case Err(e) => (t, Refuse(e))
    case Ok(_) => SignReceipt(t, now, p.claims)
  }

  /** The end of `consume_execution_grant`: reserve the grant's JTI and sign. */
  function SignReceipt(t: State, now: time, g: GrantClaims): (x: (State, Outcome))
    ensures x.0 == t.(nonces := x.0.nonces, signedReceipts := x.0.signedReceipts)
    ensures (x.1.reply.Failed? || x.1.reply.ReceiptIssued?) && x.1.reply != Failed(CapabilityRevoked)
  {
    var reservation := JtiReservation(g.jti);
    var u := NonceTried(t, reservation, now);
    if !NonceFree(t, reservation, now) then (u, Refuse(Replay))
    else
      var r := Receipt(g, now);
      (u.(signedReceipts := u.signedReceipts + {r}), Outcome(ReceiptIssued(r), Some(reservation)))
  }

  // --------------------------------------------------------------- transfers --

  function ChunkCount(size: nat): (n: nat)
  {
    var rounded := if size + (ARTIFACT_CHUNK_SIZE - 1) > 0xFFFF_FFFF_FFFF_FFFF then 0xFFFF_FFFF_FFFF_FFFF
      else size + (ARTIFACT_CHUNK_SIZE - 1);
    rounded / ARTIFACT_CHUNK_SIZE
  }

  function PrepareArtifact(s: State, now: time, later: time, header: Option<string>, artifactId: string,
      r: PrepareRequest, freshTransfer: string, noncePrefix: seq<byte>): (x: (State, Outcome))
    ensures x.0 == s.(sessions := x.0.sessions, transfers := x.0.transfers)
    ensures x.1.reply.Failed? || x.1.reply.ManifestIssued?
  {
    var (t, found) := SessionFromHeaders(s, header, now);
    match found
    case Err(e) => (t, Refuse(e))
    case Ok(session) => PrepareFor(t, later, session, artifactId, r, freshTransfer, noncePrefix)
  }

  function PrepareFor(t: State, later: time, session: Session, artifactId: string,
      r: PrepareRequest, freshTransfer: string, noncePrefix: seq<byte>): (x: (State, Outcome))
    ensures x.0 == t.(transfers := x.0.transfers)
    ensures (x.1.reply.Failed? || x.1.reply.ManifestIssued?) && x.1.reply != Failed(CapabilityRevoked)
  {
    if session.deviceId != r.deviceId then (t, Refuse(BindingMismatch))
    else if ProtectedArtifact !in session.capabilities then (t, Refuse(MissingCapability))
    else if IsBlank(r.ephemeralKey) then (t, Refuse(BadRequest))
    else
      match ArtifactOf(t, artifactId)
      case None => (t, Refuse(NotFound))
      case Some(a) =>
        if a.abi != r.abi || a.android != r.android then (t, Refuse(TargetMismatch))
        else if !r.ephemeralKeyWellFormed then (t, Refuse(BadRequest))
        else
          match SafeFile(t, a)
          case Err(e) => (t, Refuse(e))
          case Ok(file) =>
            if ChunkCount(|file.bytes|) > U32_MAX then (t, Refuse(Internal))
            else OpenTransfer(t, later, session, a, file, freshTransfer, noncePrefix)
  }

  function OpenTransfer(t: State, later: time, session: Session, a: Artifact, file: File,
      freshTransfer: string, noncePrefix: seq<byte>): (x: (State, Outcome))
    ensures x.0 == t.(transfers := x.0.transfers)
    ensures (x.1.reply.Failed? || x.1.reply.ManifestIssued?) && x.1.reply != Failed(CapabilityRevoked)
  {
    var limit := SatAdd(later, ARTIFACT_TTL_SECS);
    var manifest := Manifest(a.artifactId, a.version, a.abi, a.android, session.sessionId, session.deviceId,
      |file.bytes|, file.sha256, if session.exp < limit then session.exp else limit, freshTransfer,
      ARTIFACT_CHUNK_SIZE, ChunkCount(|file.bytes|), noncePrefix);
    var u := TransfersPruned(t, later);
    if |u.transfers| >= u.maxTransfers then (u, Refuse(TransferCapacity))
    else
      var row := Transfer(a.artifactId, session.sessionId, session.deviceId, a.path, manifest);
      (u.(transfers := u.transfers[freshTransfer := row]), Outcome(ManifestIssued(manifest), None))
  }

  /** The 12-byte nonce of one chunk: the transfer's prefix and the big-endian index. */
  function ArtifactNonce(prefix: seq<byte>, index: dword): (n: seq<byte>)
  {
    prefix + Be32(index)
  }

  function ServeChunk(s: State, now: time, header: Option<string>, artifactId: string, transferId: string,
      index: dword): (x: (State, Outcome))
    ensures x.0 == s.(sessions := x.0.sessions, transfers := x.0.transfers)
    ensures x.1.reply.Failed? || x.1.reply.ChunkServed?
  {
    var (t, found) := SessionFromHeaders(s, header, now);
    match found
    case Err(e) => (t, Refuse(e))
    case Ok(session) => ServeFor(t, now, session, artifactId, transferId, index)
  }

  function ServeFor(t: State, now: time, session: Session, artifactId: string, transferId: string,
      index: dword): (x: (State, Outcome))
    ensures x.0 == t.(transfers := x.0.transfers)
    ensures (x.1.reply.Failed? || x.1.reply.ChunkServed?) && x.1.reply != Failed(CapabilityRevoked)
  {
    var u := TransfersPruned(t, now);
    if transferId !in u.transfers then (u, Refuse(NotFound))
    else
      var transfer := u.transfers[transferId];
      if transfer.artifactId != artifactId || transfer.sessionId != session.sessionId
        || transfer.deviceId != session.deviceId
      then (u, Refuse(BindingMismatch))
      else (u, ReadChunk(u, transfer, index))
  }

  function ReadChunk(s: State, transfer: Transfer, index: dword): (o: Outcome)
    ensures o.reply.Failed? || o.reply.ChunkServed?
    ensures o.reserved.None? && o.reply != Failed(CapabilityRevoked)
  {
    var m := transfer.manifest;
    var offset := index * m.chunkSize;
    var remaining := if m.size > offset then m.size - offset else 0;
    var length := if remaining < m.chunkSize then remaining else m.chunkSize;
    if index >= m.chunkCount then Refuse(BadRequest)
    else if length == 0 then Refuse(BadRequest)
    else if transfer.path !in s.files || offset + length > |s.files[transfer.path].bytes| then Refuse(Internal)
    else if |m.noncePrefix| != 8 then Refuse(Internal)
    else
      Outcome(ChunkServed(index, s.files[transfer.path].bytes[offset..offset + length],
        ArtifactNonce(m.noncePrefix, index)), None)
  }

  // ------------------------------------------------------------ all requests --

  datatype Request =
    | DoRegister(register: RegisterRequest, freshClient: string, freshChallenge: string)
    | DoComplete(clientId: string, challenge: string, signature: string)
    | DoCreateSession(session: SessionRequest, freshSession: string, freshJti: string)
    | DoListCapabilities(header: Option<string>)
    | DoHeartbeat(sessionId: string, heartbeat: HeartbeatRequest, freshJti: string)
    | DoCloseSession(header: Option<string>, sessionId: string)
    | DoIssueGrant(header: Option<string>, grantRequest: GrantRequest, freshJti: string)
    | DoReleaseGrant(presented: PresentedGrant, again: Reread)
    | DoConsumeGrant(presented: PresentedGrant)
    | DoPrepare(header: Option<string>, later: time, artifactId: string, prepare: PrepareRequest,
      freshTransfer: string, noncePrefix: seq<byte>)
    | DoServeChunk(header: Option<string>, artifactId: string, transferId: string, index: dword)
    // the operator's store operations
    | DoApprove(clientId: string)
    | DoApproveForAccount(clientId: string, accountId: string)
    | DoRevokeClient(clientId: string)
    | DoGrantEntitlement(accountId: string, capability: Capability)
    | DoRevokeEntitlement(accountId: string, capability: Capability)
    | DoPublish(artifact: Artifact)
    // the outside world: a device signs something, a file on the artifact disk changes
    | DeviceSigns(signed: DeviceSignature)
    | FileChanges(path: string, file: File)

  function Operate(s: State, r: Request): (t: State)
    requires r.DoApprove? || r.DoApproveForAccount? || r.DoRevokeClient? || r.DoGrantEntitlement?
          || r.DoRevokeEntitlement? || r.DoPublish? || r.DeviceSigns? || r.FileChanges?
    ensures t == s.(clients := t.clients, sessions := t.sessions, entitlements := t.entitlements,
      artifacts := t.artifacts, deviceSigned := t.deviceSigned, files := t.files)
  {
    match r
    case DoApprove(id) =>
      if id in s.clients then s.(clients := s.clients[id := s.clients[id].(approved := true)]) else s
    case DoApproveForAccount(id, account) =>
      if id in s.clients then
        s.(clients := s.clients[id := s.clients[id].(accountId := account, approved := true)])
      else s
    case DoRevokeClient(id) => ClientRevokedIn(s, id)
    case DoGrantEntitlement(account, c) => s.(entitlements := s.entitlements[(account, c) := true])
    case DoRevokeEntitlement(account, c) =>
      if (account, c) in s.entitlements then s.(entitlements := s.entitlements[(account, c) := false]) else s
    case DoPublish(a) => s.(artifacts := s.artifacts[a.artifactId := a])
    case DeviceSigns(d) => s.(deviceSigned := s.deviceSigned + {d})
    case FileChanges(path, file) => s.(files := s.files[path := file])
  }

  function Handle(s: State, now: time, r: Request): (x: (State, Outcome))
  {
    match r
    case DoRegister(q, id, challenge) => Register(s, now, q, id, challenge)
    case DoComplete(id, challenge, signature) => Complete(s, now, id, challenge, signature)
    case DoCreateSession(q, id, jti) => CreateSession(s, now, q, id, jti)
    case DoListCapabilities(header) => ListCapabilities(s, now, header)
    case DoHeartbeat(id, q, jti) => Heartbeat(s, now, id, q, jti)
    case DoCloseSession(header, id) => CloseSession(s, now, header, id)
    case DoIssueGrant(header, q, jti) => IssueGrant(s, now, header, q, jti)
    case DoReleaseGrant(p, again) => ReleaseGrant(s, now, p, again)
    case DoConsumeGrant(p) => ConsumeGrant(s, now, p)
    case DoPrepare(header, later, id, q, transfer, prefix) =>
      PrepareArtifact(s, now, later, header, id, q, transfer, prefix)
    case DoServeChunk(header, id, transfer, index) => ServeChunk(s, now, header, id, transfer, index)
    case _ => (Operate(s, r), Outcome(AdminDone, None))
  }
}
