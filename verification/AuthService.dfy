/** The service as it runs: tables, transfer registry and signature sets updated in place. Every
    handler is proved to be the atomic step of the same name in `AuthHandlers`. */
module AuthService {
  import opened Bytes
  import opened Text
  import opened AuthModel
  import opened AuthTables
  import H = AuthHandlers

  class Service {
    var clients: map<string, Client>
    var devices: map<string, string>
    var challenges: map<string, Challenge>
    var nonces: map<string, time>
    var sessions: map<string, Session>
    var entitlements: map<(string, Capability), bool>
    var artifacts: map<string, Artifact>
    var transfers: map<string, Transfer>
    var signedGrants: set<GrantClaims>
    var signedReceipts: set<ReceiptClaims>
    var maxTransfers: nat
    var deviceSigned: set<DeviceSignature>
    var files: map<string, File>

    /** The limit is at least one transfer. `signed` and `disk` are what devices have signed and
        what the artifact disk holds while this object handles requests. */
    constructor (limit: nat, signed: set<DeviceSignature>, disk: map<string, File>)
      ensures Now() == State(map[], map[], map[], map[], map[], map[], map[], map[],
        if limit > 1 then limit else 1, {}, {}, signed, disk)
    {
      clients, devices, challenges, nonces := map[], map[], map[], map[];
      sessions, entitlements, artifacts, transfers := map[], map[], map[], map[];
      signedGrants, signedReceipts := {}, {};
      maxTransfers := if limit > 1 then limit else 1;
      deviceSigned, files := signed, disk;
    }

    function Now(): (s: State)
      reads this
    {
      State(clients, devices, challenges, nonces, sessions, entitlements, artifacts, transfers,
        maxTransfers, signedGrants, signedReceipts, deviceSigned, files)
    }

    // ------------------------------------------------------ store operations --

    /** Atomically reserves a nonce; false means it has already been used. */
    method ConsumeNonce(nonce: string, now: time) returns (unused: bool)
      modifies this`nonces
      ensures unused == NonceFree(old(Now()), nonce, now)
      ensures Now() == NonceTried(old(Now()), nonce, now)
    {
      nonces := map n | n in nonces && nonces[n] >= SatSub(now, NONCE_RETENTION_SECS) :: nonces[n];
      unused := nonce !in nonces;
      if unused {
        nonces := nonces[nonce := now];
      }
    }

    method HasEntitlements(accountId: string, caps: seq<Capability>) returns (all: bool)
      ensures all == AllEntitled(Now(), accountId, caps)
    {
      for i := 0 to |caps|
        invariant forall k :: 0 <= k < i ==> Entitled(Now(), accountId, caps[k])
      {
        if !((accountId, caps[i]) in entitlements && entitlements[(accountId, caps[i])]) {
          return false;
        }
      }
      all := true;
    }

    method RevokeSession(sessionId: string)
      modifies this`sessions
      ensures Now() == SessionRevokedIn(old(Now()), sessionId)
    {
      if sessionId in sessions {
        sessions := sessions[sessionId := sessions[sessionId].(revoked := true)];
      }
    }

    method RevokeActiveSessions(clientId: string, now: time)
      modifies this`sessions
      ensures Now() == ActiveSessionsRevoked(old(Now()), clientId, now)
    {
      sessions := map k | k in sessions :: Killed(sessions[k], clientId, Some(now));
    }

    method RefreshSession(sessionId: string, jti: string, exp: time) returns (changed: bool)
      modifies this`sessions
      ensures changed == (sessionId in old(sessions) && !old(sessions)[sessionId].revoked)
      ensures sessions == if changed
        then old(sessions)[sessionId := old(sessions)[sessionId].(jti := jti, exp := exp)] else old(sessions)
    {
      changed := sessionId in sessions && !sessions[sessionId].revoked;
      if changed {
        sessions := sessions[sessionId := sessions[sessionId].(jti := jti, exp := exp)];
      }
    }

    method UpdateClientRegistration(clientId: string, version: string)
      modifies this`sessions, this`clients
      ensures Now() == RegistrationUpdated(old(Now()), clientId, version)
    {
      sessions := map k | k in sessions :: Killed(sessions[k], clientId, None);
      if clientId in clients && !clients[clientId].revoked {
        clients := clients[clientId := clients[clientId].(version := version)];
      }
    }

    method RevokeClient(clientId: string)
      modifies this`sessions, this`clients
      ensures Now() == ClientRevokedIn(old(Now()), clientId)
    {
      if clientId in clients {
        clients := clients[clientId := clients[clientId].(revoked := true)];
      }
      sessions := map k | k in sessions :: Killed(sessions[k], clientId, None);
    }

    method PruneTransfers(now: time)
      modifies this`transfers
      ensures Now() == TransfersPruned(old(Now()), now)
    {
      transfers := map k | k in transfers && transfers[k].manifest.expiresAt > now :: transfers[k];
    }

    // -------------------------------------------------------------- handlers --

    method RegisterClient(now: time, r: H.RegisterRequest, freshClient: string, challenge: string) returns (o: Outcome)
      modifies this
      ensures (Now(), o) == H.Register(old(Now()), now, r, freshClient, challenge)
    {
      if IsBlank(r.installId) || IsBlank(r.deviceId) || IsBlank(r.version) || IsBlank(r.platform)
        || IsBlank(r.product) {
        return Refuse(BadRequest);
      }
      if !r.keyWellFormed {
        return Refuse(BadRequest);
      }
      var known := ClientByDevice(Now(), r.deviceId);
      var id := freshClient;
      if known.Some? {
        if known.value.revoked {
          return Refuse(ClientRevoked);
        }
        if known.value.key != r.key {
          return Refuse(BindingMismatch);
        }
        if known.value.algorithm != r.algorithm {
          return Refuse(BindingMismatch);
        }
        id := known.value.clientId;
      } else {
        clients := clients[id := Client(id, "pending:" + id, r.deviceId, r.key, r.algorithm, r.version, false, false)];
        devices := devices[r.deviceId := id];
      }
      challenges := challenges[id := Challenge(challenge, r.version, SatAdd(now, CHALLENGE_TTL_SECS))];
      o := Outcome(Registered(id, challenge), None);
    }

    method CompleteRegistration(now: time, clientId: string, challenge: string, signature: string) returns (o: Outcome)
      modifies this
      ensures (Now(), o) == H.Complete(old(Now()), now, clientId, challenge, signature)
    {
      if clientId !in clients {
        return Refuse(Unauthorized);
      }
      var client := clients[clientId];
      if !H.ChallengeOpen(Now(), clientId, challenge, now) {
        return Refuse(Unauthorized);
      }
      if !H.SignedBy(Now(), client, RegistrationProof(clientId, challenge), signature) {
        return Refuse(Unauthorized);
      }
      var version := challenges[clientId].version;
      challenges := challenges - {clientId};
      if IsBlank(version) {
        version := client.version;
      }
      UpdateClientRegistration(clientId, version);
      o := Outcome(RegistrationCompleted(clientId), None);
    }

    method CreateSession(now: time, r: H.SessionRequest, freshSession: string, freshJti: string) returns (o: Outcome)
      modifies this
      ensures (Now(), o) == H.CreateSession(old(Now()), now, r, freshSession, freshJti)
    {
      if IsBlank(r.clientId) || IsBlank(r.deviceId) || IsBlank(r.version) || !NonceOk(r.nonce)
        || !RequestTimeOk(r.iat, now) || r.capabilities == [] {
        return Refuse(BadRequest);
      }
      if r.clientId !in clients {
        return Refuse(Unauthorized);
      }
      var client := clients[r.clientId];
      var unusable := H.Unusable(client, r.deviceId);
      if unusable.Some? {
        return Refuse(unusable.value);
      }
      if client.version != r.version {
        return Refuse(ClientOutdated);
      }
      var proof := SessionProof(r.clientId, r.deviceId, r.version, r.nonce, r.iat, r.capabilities);
      if !H.SignedBy(Now(), client, proof, r.signature) {
        return Refuse(Unauthorized);
      }
      var unused := ConsumeNonce(r.nonce, now);
      if !unused {
        return Refuse(Replay);
      }
      var entitled := HasEntitlements(client.accountId, r.capabilities);
      if !entitled {
        return Outcome(Failed(CapabilityNotEntitled), Some(r.nonce));
      }
      RevokeActiveSessions(client.clientId, now);
      var exp := SatAdd(now, LEASE_MAX_SECS);
      sessions := sessions[freshSession := Session(freshSession, client.clientId, client.accountId, client.deviceId,
        r.capabilities, freshJti, exp, false)];
      o := Outcome(LeaseIssued(H.Lease(client, freshSession, r.capabilities, r.nonce, freshJti, now, exp)),
        Some(r.nonce));
    }

    method SessionFromHeaders(header: Option<string>, now: time) returns (found: Result<Session, AuthError>)
      modifies this`sessions
      ensures (Now(), found) == H.SessionFromHeaders(old(Now()), header, now)
    {
      var token := H.BearerToken(header);
      if token.None? || token.value !in sessions {
        return Err(Unauthorized);
      }
      var session := sessions[token.value];
      if session.revoked {
        return Err(SessionRevoked);
      }
      if session.exp <= now {
        return Err(Unauthorized);
      }
      if session.clientId !in clients {
        return Err(Unauthorized);
      }
      var client := clients[session.clientId];
      var unusable := H.Unusable(client, session.deviceId);
      if unusable.Some? {
        return Err(unusable.value);
      }
      var entitled := HasEntitlements(client.accountId, session.capabilities);
      if !entitled {
        RevokeSession(session.sessionId);
        return Err(CapabilityRevoked);
      }
      found := Ok(session);
    }

    method Heartbeat(now: time, sessionId: string, r: H.HeartbeatRequest, freshJti: string) returns (o: Outcome)
      modifies this
      ensures (Now(), o) == H.Heartbeat(old(Now()), now, sessionId, r, freshJti)
    {
      if sessionId !in sessions {
        return Refuse(Unauthorized);
      }
      var session := sessions[sessionId];
      if session.revoked || session.exp <= now {
        return Refuse(if session.revoked then SessionRevoked else LeaseExpired);
      }
      if session.clientId != r.clientId || session.deviceId != r.deviceId {
        return Refuse(BindingMismatch);
      }
      if !NonceOk(r.nonce) || !RequestTimeOk(r.iat, now) {
        return Refuse(BadRequest);
      }
      if session.clientId !in clients {
        return Refuse(Unauthorized);
      }
      var client := clients[session.clientId];
      var unusable := H.Unusable(client, r.deviceId);
      if unusable.Some? {
        return Refuse(unusable.value);
      }
      var proof := HeartbeatProof(sessionId, r.clientId, r.deviceId, r.nonce, r.iat);
      if !H.SignedBy(Now(), client, proof, r.signature) {
        return Refuse(Unauthorized);
      }
      var unused := ConsumeNonce(r.nonce, now);
      if !unused {
        return Refuse(Replay);
      }
      var entitled := HasEntitlements(client.accountId, session.capabilities);
      if !entitled {
        RevokeSession(sessionId);
        return Outcome(Failed(CapabilityRevoked), Some(r.nonce));
      }
      var exp := SatAdd(now, LEASE_MAX_SECS);
      var lease := H.Lease(client, sessionId, session.capabilities, r.nonce, freshJti, now, exp);
      var renewed := RefreshSession(sessionId, freshJti, exp);
      if !renewed {
        return Outcome(Failed(SessionRevoked), Some(r.nonce));
      }
      o := Outcome(LeaseIssued(lease), Some(r.nonce));
    }

    method CloseSession(now: time, header: Option<string>, sessionId: string) returns (o: Outcome)
      modifies this
      ensures (Now(), o) == H.CloseSession(old(Now()), now, header, sessionId)
    {
      var found := SessionFromHeaders(header, now);
      if found.Err? {
        return Refuse(found.error);
      }
      if found.value.sessionId != sessionId {
        return Refuse(BindingMismatch);
      }
      RevokeSession(sessionId);
      o := Outcome(SessionClosed, None);
    }

    method IssueExecutionGrant(now: time, header: Option<string>, r: H.GrantRequest, freshJti: string)
        returns (o: Outcome)
      modifies this
      ensures (Now(), o) == H.IssueGrant(old(Now()), now, header, r, freshJti)
    {
      hide H.GrantRequestOk, H.ArtifactAllows, H.HasGrantCapabilities, H.SafeFile, H.SessionFromHeaders, H.SignedBy;
      hide SatAdd, NonceTried, NonceFree;
      var found := SessionFromHeaders(header, now);
      if found.Err? {
        return Refuse(found.error);
      }
      var session := found.value;
      if !H.HasGrantCapabilities(session) {
        return Refuse(MissingCapability);
      }
      if session.clientId !in clients {
        return Refuse(Unauthorized);
      }
      var client := clients[session.clientId];
      if !H.GrantRequestOk(r, now) {
        return Refuse(BadRequest);
      }
      var proof := GrantProof(r.artifactId, r.sha256, r.action, r.vm, r.instance, r.nonce, r.iat);
      if !H.SignedBy(Now(), client, proof, r.signature) {
        return Refuse(Unauthorized);
      }
      if r.artifactId !in artifacts {
        return Refuse(NotFound);
      }
      var artifact := artifacts[r.artifactId];
      if !H.ArtifactAllows(artifact.artifactId, r.action) {
        return Refuse(WorkflowMismatch);
      }
      var file := H.SafeFile(Now(), artifact);
      if file.Err? {
        return Refuse(file.error);
      }
      if r.sha256 != [] && file.value.sha256 != r.sha256 {
        return Refuse(ArtifactIntegrity);
      }
      var unused := ConsumeNonce(r.nonce, now);
      if !unused {
        return Refuse(Replay);
      }
      var limit := SatAdd(now, EXECUTION_GRANT_TTL_SECS);
      var exp := if session.exp < limit then session.exp else limit;
      if exp <= now {
        return Outcome(Failed(Unauthorized), Some(r.nonce));
      }
      var g := GrantClaims("rdc-auth", "rdc-guest-runner", client.clientId, session.deviceId, session.sessionId,
        client.version, r.artifactId, file.value.sha256, r.action, r.vm, r.instance, now, exp, freshJti, r.nonce);
      signedGrants := signedGrants + {g};
      o := Outcome(GrantIssued(g), Some(r.nonce));
    }

    method ValidateGrant(p: PresentedGrant, now: time) returns (r: Result<File, AuthError>)
      modifies this`sessions
      ensures (Now(), r) == H.ValidateGrant(old(Now()), p, now)
    {
      var g := p.claims;
      if !p.intact || g !in signedGrants {
        return Err(InvalidGrant);
      }
      if !H.GrantClaimsOk(g, now) {
        return Err(InvalidGrant);
      }
      if !H.ArtifactAllows(g.artifactId, g.action) {
        return Err(WorkflowMismatch);
      }
      if g.sessionId !in sessions {
        return Err(SessionRevoked);
      }
      var session := sessions[g.sessionId];
      if session.revoked || session.exp <= now || session.clientId != g.clientId || session.deviceId != g.deviceId
        || !H.HasGrantCapabilities(session) {
        return Err(SessionRevoked);
      }
      if session.clientId !in clients {
        return Err(SessionRevoked);
      }
      var client := clients[session.clientId];
      var unusable := H.Unusable(client, session.deviceId);
      if unusable.Some? {
        return Err(unusable.value);
      }
      if p.deviceProof.None? || IsBlank(p.deviceProof.value) {
        return Err(DeviceProofRequired);
      }
      if !H.SignedBy(Now(), client, GrantPayloadProof(g), p.deviceProof.value) {
        return Err(DeviceProofInvalid);
      }
      if client.version != g.clientVersion {
        return Err(ClientOutdated);
      }
      var entitled := HasEntitlements(client.accountId, session.capabilities);
      if !entitled {
        RevokeSession(session.sessionId);
        return Err(CapabilityRevoked);
      }
      r := H.GrantedFile(Now(), g);
    }

    method ReleaseExecutionGrant(now: time, p: PresentedGrant, again: H.Reread) returns (o: Outcome)
      modifies this
      ensures (Now(), o) == H.ReleaseGrant(old(Now()), now, p, again)
    {
      var checked := ValidateGrant(p, now);
      if checked.Err? {
        return Refuse(checked.error);
      }
      if again.length.None? {
        return Refuse(Internal);
      }
      if again.length.value > MAX_EXECUTION_RELEASE_BYTES {
        return Refuse(ArtifactTooLarge);
      }
      if again.contents.None? {
        return Refuse(Internal);
      }
      var file := again.contents.value;
      if |file.bytes| != again.length.value || |file.bytes| > MAX_EXECUTION_RELEASE_BYTES
        || file.sha256 != p.claims.sha256 {
        return Refuse(ArtifactIntegrity);
      }
      o := Outcome(ArtifactReleased(p.claims.artifactId, file), None);
    }

    method ConsumeExecutionGrant(now: time, p: PresentedGrant) returns (o: Outcome)
      modifies this
      ensures (Now(), o) == H.ConsumeGrant(old(Now()), now, p)
    {
      var checked := ValidateGrant(p, now);
      if checked.Err? {
        return Refuse(checked.error);
      }
      var reservation := H.JtiReservation(p.claims.jti);
      var unused := ConsumeNonce(reservation, now);
      if !unused {
        return Refuse(Replay);
      }
      var receipt := H.Receipt(p.claims, now);
      signedReceipts := signedReceipts + {receipt};
      o := Outcome(ReceiptIssued(receipt), Some(reservation));
    }

    method PrepareArtifact(now: time, later: time, header: Option<string>, artifactId: string, r: H.PrepareRequest,
        freshTransfer: string, noncePrefix: seq<byte>) returns (o: Outcome)
      modifies this
      ensures (Now(), o) == H.PrepareArtifact(old(Now()), now, later, header, artifactId, r, freshTransfer, noncePrefix)
    {
      var found := SessionFromHeaders(header, now);
      if found.Err? {
        return Refuse(found.error);
      }
      var session := found.value;
      if session.deviceId != r.deviceId {
        return Refuse(BindingMismatch);
      }
      if ProtectedArtifact !in session.capabilities {
        return Refuse(MissingCapability);
      }
      if IsBlank(r.ephemeralKey) {
        return Refuse(BadRequest);
      }
      if artifactId !in artifacts {
        return Refuse(NotFound);
      }
      var artifact := artifacts[artifactId];
      if artifact.abi != r.abi || artifact.android != r.android {
        return Refuse(TargetMismatch);
      }
      if !r.ephemeralKeyWellFormed {
        return Refuse(BadRequest);
      }
      var file := H.SafeFile(Now(), artifact);
      if file.Err? {
        return Refuse(file.error);
      }
      if H.ChunkCount(|file.value.bytes|) > U32_MAX {
        return Refuse(Internal);
      }
      var limit := SatAdd(later, ARTIFACT_TTL_SECS);
      var manifest := Manifest(artifact.artifactId, artifact.version, artifact.abi, artifact.android,
        session.sessionId, session.deviceId, |file.value.bytes|, file.value.sha256,
        if session.exp < limit then session.exp else limit, freshTransfer,
        ARTIFACT_CHUNK_SIZE, H.ChunkCount(|file.value.bytes|), noncePrefix);
      PruneTransfers(later);
      if |transfers| >= maxTransfers {
        return Refuse(TransferCapacity);
      }
      transfers := transfers[freshTransfer :=
        Transfer(artifact.artifactId, session.sessionId, session.deviceId, artifact.path, manifest)];
      o := Outcome(ManifestIssued(manifest), None);
    }

    method ArtifactChunk(now: time, header: Option<string>, artifactId: string, transferId: string, index: dword)
        returns (o: Outcome)
      modifies this
      ensures (Now(), o) == H.ServeChunk(old(Now()), now, header, artifactId, transferId, index)
    {
      var found := SessionFromHeaders(header, now);
      if found.Err? {
        return Refuse(found.error);
      }
      PruneTransfers(now);
      if transferId !in transfers {
        return Refuse(NotFound);
      }
      var transfer := transfers[transferId];
      if transfer.artifactId != artifactId || transfer.sessionId != found.value.sessionId
        || transfer.deviceId != found.value.deviceId {
        return Refuse(BindingMismatch);
      }
      o := H.ReadChunk(Now(), transfer, index);
    }
  }
}
