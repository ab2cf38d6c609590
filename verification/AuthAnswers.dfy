/** When each request succeeds, exactly, and every field of what the service then signs or stores. */
module AuthAnswers {
  import opened Bytes
  import opened Text
  import opened AuthModel
  import opened AuthTables
  import opened AuthHandlers
  import opened AuthInvariant
  import opened AuthSteps
  import opened AuthFacts

  // ----------------------------------------------------------------- lookups --

  /** The header names a live session of a usable client that is entitled to all its capabilities. */
  ghost predicate Admitted(s: State, header: Option<string>, now: time)
  {
    var id := BearerToken(header);
    id.Some? && SessionUsable(s, id.value, now) && !CapabilityLost(s, id.value)
  }

  lemma LookupExact(s: State, header: Option<string>, now: time)
    requires SessionsOk(s)
    ensures var (t, found) := SessionFromHeaders(s, header, now);
      && (found.Ok? <==> Admitted(s, header, now))
      && (found.Ok? ==> t == s && found.value == s.sessions[BearerToken(header).value])
  {
    hide BearerToken, AllEntitled;
  }

  /** A header gives a token exactly if it is the word `Bearer`, a blank and a token that is not blank. */
  lemma TokenIs(header: Option<string>, token: string)
    ensures BearerToken(header) == Some(token) <==> header == Some("Bearer " + token) && !IsBlank(token)
  {
    var whole := "Bearer " + token;
    assert whole[..7] == "Bearer " && whole[7..] == token;
    if BearerToken(header) == Some(token) {
      assert header.value == header.value[..7] + header.value[7..];
    }
  }

  /** Closing succeeds exactly for the session of the header, and revokes that session only. */
  lemma CloseExact(s: State, now: time, header: Option<string>, id: string)
    requires SessionsOk(s)
    ensures var (t, o) := CloseSession(s, now, header, id);
      && (o.reply.SessionClosed? <==> Admitted(s, header, now) && BearerToken(header) == Some(id))
      && (o.reply.SessionClosed? ==> t == s.(sessions := SessionKilled(s.sessions, id)))
  {
    LookupExact(s, header, now);
    hide SessionFromHeaders, BearerToken, CapabilityLost;
  }

  lemma ListExact(s: State, now: time, header: Option<string>)
    requires SessionsOk(s)
    ensures var (t, o) := ListCapabilities(s, now, header);
      && (o.reply.CapabilitiesListed? <==> Admitted(s, header, now))
      && (o.reply.CapabilitiesListed? ==> t == s && o.reply.session == s.sessions[BearerToken(header).value])
  {
    LookupExact(s, header, now);
    hide SessionFromHeaders, BearerToken, CapabilityLost;
  }

  // ------------------------------------------------------------------ limits --

  /** The time window of a signed request, for a clock that is not at the end of time. */
  lemma WindowIs(iat: time, now: time)
    requires I64_MIN + 300 <= now <= I64_MAX - 300
    ensures RequestTimeOk(iat, now) <==> now - 300 <= iat <= now + 300
  {
  }

  /** Which action may run which artifact, and what a session needs for either. */
  lemma WorkflowIs(artifactId: string, action: string, session: Session)
    ensures ArtifactAllows(artifactId, "preset_apply") <==> artifactId == "qemu-guest-script"
    ensures ArtifactAllows(artifactId, "preset_restore") <==> artifactId == "qemu-guest-script-universal"
    ensures ArtifactAllows(artifactId, "preset_details") <==> artifactId == "qemu-guest-script-universal"
    ensures ArtifactAllows(artifactId, action) ==> action in ["preset_apply", "preset_restore", "preset_details"]
    ensures HasGrantCapabilities(session) ==> forall c :: c in session.capabilities || c == ProtectedAlgorithm
  {
  }

  /** A grant request that can be answered names everything, and a hash, if any, of 64 digits. */
  lemma GrantRequestIs(r: GrantRequest, now: time)
    requires GrantRequestOk(r, now)
    ensures r.artifactId != "" && r.vm != "" && r.instance != "" && r.nonce != "" && r.signature != ""
    ensures r.action in ["preset_apply", "preset_restore", "preset_details"]
    ensures Utf8Length(r.nonce) <= 256 && (r.sha256 == "" || (|r.sha256| == 64 && IsSha256(r.sha256)))
    ensures RequestTimeOk(r.iat, now)
  {
  }

  // ------------------------------------------------------------------ grants --

  /** The artifact is published, and its file lies in the artifact root. */
  ghost predicate IsPublished(s: State, artifactId: string)
  {
    && artifactId in s.artifacts && s.artifacts[artifactId].path in s.files
    && s.files[s.artifacts[artifactId].path].insideRoot
  }

  function FileOf(s: State, artifactId: string): (f: File)
    requires artifactId in s.artifacts && s.artifacts[artifactId].path in s.files
  {
    s.files[s.artifacts[artifactId].path]
  }

  lemma SafeFileIs(s: State, artifactId: string)
    requires artifactId in s.artifacts
    ensures var r := SafeFile(s, s.artifacts[artifactId]);
      (r.Ok? <==> IsPublished(s, artifactId)) && (r.Ok? ==> r.value == FileOf(s, artifactId))
  {
  }

  /** The device of the session has signed a request for this very artifact, action, VM and instance. */
  ghost predicate AskedFor(s: State, clientId: string, r: GrantRequest)
  {
    clientId in s.clients
    && SignedBy(s, s.clients[clientId],
         GrantProof(r.artifactId, r.sha256, r.action, r.vm, r.instance, r.nonce, r.iat), r.signature)
  }

  ghost predicate MayIssue(s: State, now: time, header: Option<string>, r: GrantRequest)
  {
    && Admitted(s, header, now)
    && var session := s.sessions[BearerToken(header).value];
    && HasGrantCapabilities(session) && GrantRequestOk(r, now) && AskedFor(s, session.clientId, r)
    && ArtifactAllows(r.artifactId, r.action) && IsPublished(s, r.artifactId)
    && (r.sha256 == [] || FileOf(s, r.artifactId).sha256 == r.sha256) && NonceFree(s, r.nonce, now)
  }

  /** Every claim of a grant: the session's client and device, what was asked for, the hash of the file
      published under the artifact, and at most two minutes within the session. */
  ghost predicate GrantAnswers(s: State, now: time, id: string, r: GrantRequest, g: GrantClaims)
  {
    && id in s.sessions && s.sessions[id].clientId in s.clients && IsPublished(s, r.artifactId)
    && g.iss == "rdc-auth" && g.aud == "rdc-guest-runner" && g.sessionId == id
    && g.clientId == s.sessions[id].clientId && g.deviceId == s.sessions[id].deviceId
    && g.clientVersion == s.clients[g.clientId].version
    && g.artifactId == r.artifactId && g.action == r.action && g.vm == r.vm && g.instance == r.instance
    && g.nonce == r.nonce && g.sha256 == FileOf(s, r.artifactId).sha256 && (r.sha256 != [] ==> g.sha256 == r.sha256)
    && g.iat == now && g.exp == Earlier(s.sessions[id].exp, SatAdd(now, 120))
  }

  function Earlier(a: time, b: time): (t: time)
  {
    if a < b then a else b
  }

  lemma SignGrantExact(s: State, now: time, session: Session, c: Client, r: GrantRequest, sha256: string, jti: string)
    requires session.exp > now
    ensures var (t, o) := SignGrant(s, now, session, c, r, sha256, jti);
      && (o.reply.GrantIssued? <==> NonceFree(s, r.nonce, now))
      && (o.reply.GrantIssued? ==>
           && var g := o.reply.grant;
           && g.iss == "rdc-auth" && g.aud == "rdc-guest-runner" && g.sessionId == session.sessionId
           && g.clientId == c.clientId && g.deviceId == session.deviceId && g.clientVersion == c.version
           && g.artifactId == r.artifactId && g.action == r.action && g.vm == r.vm && g.instance == r.instance
           && g.nonce == r.nonce && g.sha256 == sha256 && g.iat == now && g.jti == jti
           && g.exp == Earlier(session.exp, SatAdd(now, 120)) && t.signedGrants == s.signedGrants + {g})
  {
    hide NonceTried, NonceFree;
  }

  lemma IssueGrantIs(s: State, now: time, header: Option<string>, r: GrantRequest, jti: string)
    requires SessionsOk(s) && ArtifactsOk(s)
    ensures var x := IssueGrant(s, now, header, r, jti);
      if Admitted(s, header, now) && HasGrantCapabilities(s.sessions[BearerToken(header).value])
        && GrantRequestOk(r, now) && AskedFor(s, s.sessions[BearerToken(header).value].clientId, r)
        && ArtifactAllows(r.artifactId, r.action) && IsPublished(s, r.artifactId)
        && (r.sha256 == [] || FileOf(s, r.artifactId).sha256 == r.sha256)
      then
        var session := s.sessions[BearerToken(header).value];
        session.clientId in s.clients
        && x == SignGrant(s, now, session, s.clients[session.clientId], r, FileOf(s, r.artifactId).sha256, jti)
      else !x.1.reply.GrantIssued?
  {
    LookupExact(s, header, now);
    if r.artifactId in s.artifacts {
      SafeFileIs(s, r.artifactId);
    }
    hide SessionFromHeaders, SignGrant, BearerToken, CapabilityLost, HasGrantCapabilities, GrantRequestOk, SignedBy;
    hide ArtifactAllows, SafeFile;
  }

  /** The service signs a grant if and only if the session may have it, its device has asked for this
      very artifact, action, VM and instance, and the published file is the one asked for; and the
      grant says exactly that. */
  lemma IssueGrantExact(s: State, now: time, header: Option<string>, r: GrantRequest, jti: string)
    requires Inv(s, now)
    ensures var (t, o) := IssueGrant(s, now, header, r, jti);
      && (o.reply.GrantIssued? <==> MayIssue(s, now, header, r))
      && (o.reply.GrantIssued? ==>
           && var g := o.reply.grant;
           && GrantAnswers(s, now, BearerToken(header).value, r, g) && g.jti == jti
           && AskedFor(s, g.clientId, r) && t.signedGrants == s.signedGrants + {g})
  {
    IssueGrantIs(s, now, header, r, jti);
    if Admitted(s, header, now) && IsPublished(s, r.artifactId) {
      var session := s.sessions[BearerToken(header).value];
      SignGrantExact(s, now, session, s.clients[session.clientId], r, FileOf(s, r.artifactId).sha256, jti);
    }
    hide IssueGrant, SignGrant, BearerToken, HasGrantCapabilities, GrantRequestOk, SignedBy, ArtifactAllows, NonceFree;
    hide CapabilityLost, GrantsIn, ReceiptsIn, OneLive;
  }

  /** A presented grant that passes every check: its session has lost no capability, and the artifact is
      still published with the hash that the grant names. */
  ghost predicate GrantAccepted(s: State, now: time, p: PresentedGrant)
  {
    && GrantPresentable(s, now, p) && !CapabilityLost(s, p.claims.sessionId)
    && IsPublished(s, p.claims.artifactId) && FileOf(s, p.claims.artifactId).sha256 == p.claims.sha256
  }

  lemma GrantedFileExact(s: State, g: GrantClaims)
    ensures GrantedFile(s, g).Ok? <==> IsPublished(s, g.artifactId) && FileOf(s, g.artifactId).sha256 == g.sha256
  {
  }

  lemma ValidateExact(s: State, p: PresentedGrant, now: time)
    requires SessionsOk(s) && GrantsOk(s, now)
    ensures var (t, checked) := ValidateGrant(s, p, now);
      (checked.Ok? <==> GrantAccepted(s, now, p)) && (checked.Ok? ==> t == s)
  {
    if p.claims in s.signedGrants {
      assert GrantOk(s, p.claims, now);
    }
    GrantedFileExact(s, p.claims);
    hide GrantsOk, GrantClaimsOk, AllEntitled, ArtifactAllows, HasGrantCapabilities, IsBlank, SignedBy, GrantedFile;
    hide IsPublished, FileOf;
  }

  /** Every claim of a receipt: issued by the service for the gate, for this grant, now, and for at most
      two minutes within the grant. */
  predicate ReceiptAnswers(now: time, g: GrantClaims, q: ReceiptClaims)
  {
    && q.iss == "rdc-auth" && q.aud == "rdc-qemu-center"
    && q.clientId == g.clientId && q.deviceId == g.deviceId && q.sessionId == g.sessionId
    && q.clientVersion == g.clientVersion && q.artifactId == g.artifactId && q.sha256 == g.sha256
    && q.action == g.action && q.vm == g.vm && q.instance == g.instance && q.grantJti == g.jti
    && q.iat == now && q.exp == Earlier(g.exp, SatAdd(now, 120))
  }

  lemma SignReceiptExact(s: State, now: time, g: GrantClaims)
    ensures var (t, o) := SignReceipt(s, now, g);
      && (o.reply.ReceiptIssued? <==> NonceFree(s, JtiReservation(g.jti), now))
      && (o.reply.ReceiptIssued? ==>
           ReceiptAnswers(now, g, o.reply.receipt) && t.signedReceipts == s.signedReceipts + {o.reply.receipt})
  {
    hide NonceTried, NonceFree, JtiReservation;
  }

  /** A grant is consumed if and only if it is accepted and its JTI is free; and the receipt says exactly
      what the grant says. */
  lemma ConsumeExact(s: State, now: time, p: PresentedGrant)
    requires Inv(s, now)
    ensures var (t, o) := ConsumeGrant(s, now, p);
      && (o.reply.ReceiptIssued? <==> GrantAccepted(s, now, p) && NonceFree(s, JtiReservation(p.claims.jti), now))
      && (o.reply.ReceiptIssued? ==>
           && ReceiptAnswers(now, p.claims, o.reply.receipt)
           && t.signedReceipts == s.signedReceipts + {o.reply.receipt})
  {
    ValidateExact(s, p, now);
    SignReceiptExact(s, now, p.claims);
    hide ValidateGrant, SignReceipt, GrantAccepted, NonceFree, Inv;
  }

  /** An artifact is released if and only if the grant is accepted, and the second reading finds a file
      of the length announced, of at most 512 KiB, with the grant's hash; it is what that reading found. */
  lemma ReleaseExact(s: State, now: time, p: PresentedGrant, again: Reread)
    requires Inv(s, now)
    ensures var (t, o) := ReleaseGrant(s, now, p, again);
      && (o.reply.ArtifactReleased? <==>
           && GrantAccepted(s, now, p) && again.length.Some? && again.contents.Some?
           && |again.contents.value.bytes| == again.length.value <= 512 * 1024
           && again.contents.value.sha256 == p.claims.sha256)
      && (o.reply.ArtifactReleased? ==>
           t == s && o.reply.artifactId == p.claims.artifactId && o.reply.file == again.contents.value)
  {
    ValidateExact(s, p, now);
    hide ValidateGrant, GrantAccepted, Inv;
  }

  // ---------------------------------------------------------------- sessions --

  /** A session request that passes all checks. */
  ghost predicate MayOpen(s: State, now: time, q: SessionRequest)
  {
    && !IsBlank(q.clientId) && !IsBlank(q.deviceId) && !IsBlank(q.version) && NonceOk(q.nonce)
    && RequestTimeOk(q.iat, now) && q.capabilities != [] && NonceFree(s, q.nonce, now)
    && q.clientId in s.clients && Unusable(s.clients[q.clientId], q.deviceId).None?
    && s.clients[q.clientId].version == q.version
    && SignedBy(s, s.clients[q.clientId],
      SessionProof(q.clientId, q.deviceId, q.version, q.nonce, q.iat, q.capabilities), q.signature)
    && AllEntitled(s, s.clients[q.clientId].accountId, q.capabilities)
  }

  /** Every claim of a lease: client, account and version as registered, the session and its
      capabilities, fifteen minutes from now. */
  ghost predicate LeaseSays(c: Client, id: string, caps: seq<Capability>, nonce: string, jti: string, now: time,
      l: LeaseClaims)
  {
    && l.accountId == c.accountId && l.clientId == c.clientId && l.deviceId == c.deviceId
    && l.clientVersion == c.version && l.sessionId == id && l.capabilities == caps
    && l.iat == now && l.exp == SatAdd(now, 900) && l.jti == jti && l.nonce == nonce
  }

  /** The stored session is the one the lease is for. */
  predicate RowIsFor(x: Session, l: LeaseClaims)
  {
    && x.sessionId == l.sessionId && x.clientId == l.clientId && x.accountId == l.accountId && x.deviceId == l.deviceId
    && x.capabilities == l.capabilities && x.jti == l.jti && x.exp == l.exp && !x.revoked
  }

  /** Apart from `id`, the client's sessions that have not expired are revoked, and no other is touched. */
  ghost predicate OthersRevoked(x: map<string, Session>, y: map<string, Session>, clientId: string, id: string,
      now: time)
  {
    && x.Keys <= y.Keys
    && forall k :: k in x && k != id ==>
         y[k] == if x[k].clientId == clientId && x[k].exp > now then x[k].(revoked := true) else x[k]
  }

  lemma OpenSessionExact(s: State, now: time, q: SessionRequest, c: Client, id: string, jti: string)
    requires c.clientId == q.clientId
    ensures var (t, o) := OpenSession(s, now, q, c, id, jti);
      && (o.reply.LeaseIssued? <==> NonceFree(s, q.nonce, now) && AllEntitled(s, c.accountId, q.capabilities))
      && (o.reply.LeaseIssued? ==>
           && LeaseSays(c, id, q.capabilities, q.nonce, jti, now, o.reply.lease)
           && id in t.sessions && RowIsFor(t.sessions[id], o.reply.lease)
           && OthersRevoked(s.sessions, t.sessions, q.clientId, id, now))
  {
    hide NonceTried, NonceFree;
  }

  lemma CreateSessionIs(s: State, now: time, q: SessionRequest, id: string, jti: string)
    ensures var x := CreateSession(s, now, q, id, jti);
      if !IsBlank(q.clientId) && !IsBlank(q.deviceId) && !IsBlank(q.version) && NonceOk(q.nonce)
        && RequestTimeOk(q.iat, now) && q.capabilities != []
        && q.clientId in s.clients && Unusable(s.clients[q.clientId], q.deviceId).None?
        && s.clients[q.clientId].version == q.version
        && SignedBy(s, s.clients[q.clientId],
          SessionProof(q.clientId, q.deviceId, q.version, q.nonce, q.iat, q.capabilities), q.signature)
      then x == OpenSession(s, now, q, s.clients[q.clientId], id, jti)
      else !x.1.reply.LeaseIssued?
  {
    hide OpenSession, IsBlank, NonceOk, RequestTimeOk, SignedBy;
  }

  /** A session is opened if and only if the request passes all checks; the lease says what is registered
      and asked for; the stored session is that of the lease; and all other sessions of the client that
      have not expired are revoked, no other session is touched. */
  lemma CreateSessionExact(s: State, now: time, q: SessionRequest, id: string, jti: string)
    requires ClientsOk(s)
    ensures var (t, o) := CreateSession(s, now, q, id, jti);
      && (o.reply.LeaseIssued? <==> MayOpen(s, now, q))
      && (o.reply.LeaseIssued? ==>
           && q.clientId in s.clients
           && LeaseSays(s.clients[q.clientId], id, q.capabilities, q.nonce, jti, now, o.reply.lease)
           && id in t.sessions && RowIsFor(t.sessions[id], o.reply.lease)
           && OthersRevoked(s.sessions, t.sessions, q.clientId, id, now))
  {
    CreateSessionIs(s, now, q, id, jti);
    if q.clientId in s.clients {
      OpenSessionExact(s, now, q, s.clients[q.clientId], id, jti);
    }
    hide CreateSession, OpenSession, IsBlank, NonceOk, RequestTimeOk, SignedBy, NonceFree, AllEntitled, LeaseSays,
      RowIsFor;
    hide OthersRevoked;
  }

  lemma RenewExact(s: State, now: time, id: string, session: Session, c: Client, nonce: string, jti: string)
    ensures var (t, o) := Renew(s, now, id, session, c, nonce, jti);
      && (o.reply.LeaseIssued? <==> NonceFree(s, nonce, now) && AllEntitled(s, c.accountId, session.capabilities))
      && (o.reply.LeaseIssued? ==>
           && LeaseSays(c, id, session.capabilities, nonce, jti, now, o.reply.lease)
           && t.sessions == s.sessions[id := session.(jti := jti, exp := SatAdd(now, 900))])
  {
    hide NonceTried, NonceFree;
  }

  /** A heartbeat renews the lease if and only if it passes its checks, its nonce is free and no capability
      is lost; the session keeps everything but its lease's identifier and end. */
  lemma HeartbeatExact(s: State, now: time, id: string, q: HeartbeatRequest, jti: string)
    ensures var (t, o) := Heartbeat(s, now, id, q, jti);
      && (o.reply.LeaseIssued? <==> Renewable(s, now, id, q) && NonceFree(s, q.nonce, now) && !CapabilityLost(s, id))
      && (o.reply.LeaseIssued? ==>
           && id in s.sessions && q.clientId in s.clients
           && LeaseSays(s.clients[q.clientId], id, s.sessions[id].capabilities, q.nonce, jti, now, o.reply.lease)
           && t.sessions == s.sessions[id := s.sessions[id].(jti := jti, exp := SatAdd(now, 900))])
  {
    HeartbeatRenews(s, now, id, q, jti, Heartbeat(s, now, id, q, jti));
    if Renewable(s, now, id, q) {
      RenewExact(s, now, id, s.sessions[id], s.clients[q.clientId], q.nonce, jti);
    }
    hide Heartbeat, Renew, NonceFree, AllEntitled, NonceOk, RequestTimeOk, SignedBy, LeaseSays;
  }

  // ------------------------------------------------------------- registration --

  predicate WellFormed(r: RegisterRequest)
  {
    && !IsBlank(r.installId) && !IsBlank(r.deviceId) && !IsBlank(r.version) && !IsBlank(r.platform)
    && !IsBlank(r.product) && r.keyWellFormed
  }

  /** The device is new, or registered with this key to a client that is not revoked. */
  predicate BindingAgrees(s: State, r: RegisterRequest)
  {
    match ClientByDevice(s, r.deviceId)
    case None => true
    case Some(c) => !c.revoked && c.key == r.key && c.algorithm == r.algorithm
  }

  /** A registration succeeds exactly for a well-formed request whose binding agrees. The client of a known
      device stays as it is; a new one is stored with the request's device, key and version, neither
      approved nor revoked. Either gets a challenge that lasts five minutes. */
  lemma RegisterExact(s: State, now: time, r: RegisterRequest, id: string, challenge: string)
    ensures var (t, o) := Register(s, now, r, id, challenge);
      var known := ClientByDevice(s, r.deviceId);
      var client := if known.Some? then known.value.clientId else id;
      && (o.reply.Registered? <==> WellFormed(r) && BindingAgrees(s, r))
      && (!o.reply.Registered? ==> t == s)
      && (o.reply.Registered? ==>
           && o.reply == Registered(client, challenge)
           && t.challenges == s.challenges[client := Challenge(challenge, r.version, SatAdd(now, 300))]
           && (known.Some? ==> t.clients == s.clients && t.devices == s.devices)
           && (known.None? ==>
                && t.devices == s.devices[r.deviceId := id] && id in t.clients && t.clients - {id} == s.clients - {id}
                && t.clients[id].clientId == id && t.clients[id].deviceId == r.deviceId && t.clients[id].key == r.key
                && t.clients[id].algorithm == r.algorithm && t.clients[id].version == r.version
                && t.clients[id].accountId == "pending:" + id && !t.clients[id].approved && !t.clients[id].revoked))
  {
    hide IsBlank, SatAdd;
  }

  /** All sessions of the client are revoked, and no other session is touched. */
  ghost predicate AllKilled(x: map<string, Session>, y: map<string, Session>, clientId: string)
  {
    && x.Keys == y.Keys
    && forall k :: k in x ==> y[k] == if x[k].clientId == clientId then x[k].(revoked := true) else x[k]
  }

  lemma RevokeAllExact(sessions: map<string, Session>, id: string)
    ensures AllKilled(sessions, RevokeSessions(sessions, id, None), id)
  {
  }

  lemma UpdateExact(s: State, id: string, version: string)
    requires id in s.clients
    ensures var t := RegistrationUpdated(s, id, version);
      && AllKilled(s.sessions, t.sessions, id)
      && t.clients == if s.clients[id].revoked then s.clients else s.clients[id := s.clients[id].(version := version)]
  {
    hide AllKilled, RevokeSessions;
    RevokeAllExact(s.sessions, id);
  }

  lemma CompleteIs(s: State, now: time, id: string, challenge: string, signature: string)
    ensures var x := Complete(s, now, id, challenge, signature);
      if MayComplete(s, now, id, challenge, signature) then
        && id in s.challenges
        && var asked := s.challenges[id].version;
        x == (RegistrationUpdated(s.(challenges := s.challenges - {id}), id, if IsBlank(asked)
          then s.clients[id].version
          else asked), Outcome(RegistrationCompleted(id), None))
      else x.0 == s && x.1.reply.Failed?
  {
    hide IsBlank, SignedBy, RegistrationUpdated;
  }

  /** A registration is completed exactly by the registered key over the open challenge. The challenge is
      gone then, all sessions of the client are revoked and no other, and the client gets the version
      that the challenge was asked for, unless that is blank or the client revoked. */
  lemma CompleteExact(s: State, now: time, id: string, challenge: string, signature: string)
    ensures var (t, o) := Complete(s, now, id, challenge, signature);
      && (o.reply.RegistrationCompleted? <==> MayComplete(s, now, id, challenge, signature))
      && (!o.reply.RegistrationCompleted? ==> t == s)
      && (o.reply.RegistrationCompleted? ==>
           && id in s.clients && id in s.challenges && t.challenges == s.challenges - {id}
           && AllKilled(s.sessions, t.sessions, id)
           && t.clients == if s.clients[id].revoked || IsBlank(s.challenges[id].version) then s.clients
                else s.clients[id := s.clients[id].(version := s.challenges[id].version)])
  {
    CompleteIs(s, now, id, challenge, signature);
    if MayComplete(s, now, id, challenge, signature) {
      var asked := s.challenges[id].version;
      UpdateExact(s.(challenges := s.challenges - {id}), id, if IsBlank(asked) then s.clients[id].version else asked);
    }
    hide Complete, RegistrationUpdated, IsBlank, SignedBy, AllKilled;
  }

  // ---------------------------------------------------------------- transfers --

  /** How many transfers are still open at a time. */
  function OpenAt(s: State, now: time): (n: nat)
  {
    |map k | k in s.transfers && s.transfers[k].manifest.expiresAt > now :: s.transfers[k]|
  }

  ghost predicate MayPrepare(s: State, now: time, later: time, header: Option<string>, artifactId: string,
      r: PrepareRequest)
  {
    && Admitted(s, header, now)
    && var session := s.sessions[BearerToken(header).value];
    && session.deviceId == r.deviceId && ProtectedArtifact in session.capabilities
    && !IsBlank(r.ephemeralKey) && r.ephemeralKeyWellFormed && IsPublished(s, artifactId)
    && s.artifacts[artifactId].abi == r.abi && s.artifacts[artifactId].android == r.android
    && |FileOf(s, artifactId).bytes| <= U32_MAX * ARTIFACT_CHUNK_SIZE && OpenAt(s, later) < s.maxTransfers
  }

  /** Every field of a manifest: the published artifact, the session and its device, the file, chunks of
      256 KiB, and at most five minutes within the session. */
  ghost predicate ManifestSays(a: Artifact, f: File, session: Session, later: time, id: string, prefix: seq<byte>,
      m: Manifest)
  {
    && m.artifactId == a.artifactId && m.version == a.version && m.abi == a.abi && m.android == a.android
    && m.sessionId == session.sessionId && m.deviceId == session.deviceId
    && m.size == |f.bytes| && m.sha256 == f.sha256 && m.expiresAt == Earlier(session.exp, SatAdd(later, 300))
    && m.transferId == id && m.chunkSize == 262144 && m.chunkCount == DivCeil(|f.bytes|, 262144)
    && m.noncePrefix == prefix
  }

  lemma CountIs(size: nat)
    ensures ChunkCount(size) <= U32_MAX <==> size <= U32_MAX * ARTIFACT_CHUNK_SIZE
    ensures ChunkCount(size) <= U32_MAX ==> ChunkCount(size) == DivCeil(size, 262144)
  {
  }

  lemma OpenTransferExact(s: State, later: time, session: Session, a: Artifact, f: File, id: string, prefix: seq<byte>)
    requires |f.bytes| <= U32_MAX * ARTIFACT_CHUNK_SIZE
    ensures var (t, o) := OpenTransfer(s, later, session, a, f, id, prefix);
      && (o.reply.ManifestIssued? <==> OpenAt(s, later) < s.maxTransfers)
      && (o.reply.ManifestIssued? ==>
           && var m := o.reply.manifest;
           && ManifestSays(a, f, session, later, id, prefix, m) && id in t.transfers
           && t.transfers[id] == Transfer(a.artifactId, session.sessionId, session.deviceId, a.path, m))
  {
    CountIs(|f.bytes|);
    hide ChunkCount, DivCeil;
  }

  lemma PrepareForExact(s: State, later: time, session: Session, artifactId: string, r: PrepareRequest, id: string,
      prefix: seq<byte>)
    requires ArtifactsOk(s)
    ensures var (t, o) := PrepareFor(s, later, session, artifactId, r, id, prefix);
      && (o.reply.ManifestIssued? <==>
           && session.deviceId == r.deviceId && ProtectedArtifact in session.capabilities
           && !IsBlank(r.ephemeralKey) && r.ephemeralKeyWellFormed && IsPublished(s, artifactId)
           && s.artifacts[artifactId].abi == r.abi && s.artifacts[artifactId].android == r.android
           && |FileOf(s, artifactId).bytes| <= U32_MAX * ARTIFACT_CHUNK_SIZE && OpenAt(s, later) < s.maxTransfers)
      && (o.reply.ManifestIssued? ==>
           && var a, f, m := s.artifacts[artifactId], FileOf(s, artifactId), o.reply.manifest;
           && ManifestSays(a, f, session, later, id, prefix, m) && id in t.transfers
           && t.transfers[id] == Transfer(artifactId, session.sessionId, session.deviceId, a.path, m))
  {
    if artifactId in s.artifacts {
      SafeFileIs(s, artifactId);
      if IsPublished(s, artifactId) {
        var f := FileOf(s, artifactId);
        CountIs(|f.bytes|);
        if |f.bytes| <= U32_MAX * ARTIFACT_CHUNK_SIZE {
          OpenTransferExact(s, later, session, s.artifacts[artifactId], f, id, prefix);
        }
      }
    }
    hide OpenTransfer, SafeFile, ChunkCount, IsBlank, ManifestSays, OpenAt;
  }

  /** A transfer is opened exactly for an admitted session with the artifact capability that asks for its own
      device and the artifact's target, while the limit allows one more; and the manifest says exactly
      what was published. */
  lemma PrepareExact(s: State, now: time, later: time, header: Option<string>, artifactId: string, r: PrepareRequest,
      id: string, prefix: seq<byte>)
    requires Inv(s, now)
    ensures var (t, o) := PrepareArtifact(s, now, later, header, artifactId, r, id, prefix);
      && (o.reply.ManifestIssued? <==> MayPrepare(s, now, later, header, artifactId, r))
      && (o.reply.ManifestIssued? ==>
           && var session, a, m := s.sessions[BearerToken(header).value], s.artifacts[artifactId], o.reply.manifest;
           && ManifestSays(a, FileOf(s, artifactId), session, later, id, prefix, m) && id in t.transfers
           && t.transfers[id] == Transfer(artifactId, session.sessionId, session.deviceId, a.path, m))
  {
    LookupExact(s, header, now);
    if Admitted(s, header, now) {
      PrepareForExact(s, later, s.sessions[BearerToken(header).value], artifactId, r, id, prefix);
    }
    hide SessionFromHeaders, PrepareFor, BearerToken, CapabilityLost, IsBlank, ManifestSays, OpenAt, Inv;
  }

  /** The row of an open transfer can give out chunk `index`. */
  ghost predicate HasChunk(s: State, row: Transfer, index: dword)
  {
    var m := row.manifest;
    && index < m.chunkCount && index * m.chunkSize < m.size && |m.noncePrefix| == 8 && m.chunkSize > 0
    && row.path in s.files && ChunkEnd(m, index) <= |s.files[row.path].bytes|
  }

  function ChunkEnd(m: Manifest, index: dword): (end: nat)
  {
    if m.size < (index + 1) * m.chunkSize then m.size else (index + 1) * m.chunkSize
  }

  lemma ReadChunkExact(s: State, row: Transfer, index: dword)
    ensures var y := ReadChunk(s, row, index).reply;
      && (y.ChunkServed? <==> HasChunk(s, row, index))
      && (y.ChunkServed? ==>
           && var from, end := index * row.manifest.chunkSize, ChunkEnd(row.manifest, index);
           && from <= end && y == ChunkServed(index, s.files[row.path].bytes[from..end], row.manifest.noncePrefix
             + Be32(index)))
  {
    var m := row.manifest;
    assert (index + 1) * m.chunkSize == index * m.chunkSize + m.chunkSize;
  }

  ghost predicate MayServe(s: State, now: time, header: Option<string>, artifactId: string, transferId: string,
      index: dword)
  {
    && Admitted(s, header, now) && transferId in s.transfers
    && var row, session := s.transfers[transferId], s.sessions[BearerToken(header).value];
    && row.manifest.expiresAt > now && row.artifactId == artifactId && row.sessionId == session.sessionId
    && row.deviceId == session.deviceId && HasChunk(s, row, index)
  }

  /** The answer is that part of the file, under the nonce of its index. */
  ghost predicate IsChunk(s: State, row: Transfer, index: dword, y: Reply)
  {
    var from, end := index * row.manifest.chunkSize, ChunkEnd(row.manifest, index);
    && from <= end && row.path in s.files && end <= |s.files[row.path].bytes|
    && y == ChunkServed(index, s.files[row.path].bytes[from..end], row.manifest.noncePrefix + Be32(index))
  }

  lemma ServeForExact(s: State, now: time, session: Session, artifactId: string, transferId: string, index: dword)
    ensures var y := ServeFor(s, now, session, artifactId, transferId, index).1.reply;
      && (y.ChunkServed? <==>
           && transferId in s.transfers
           && var row := s.transfers[transferId];
           && row.manifest.expiresAt > now && row.artifactId == artifactId && row.sessionId == session.sessionId
           && row.deviceId == session.deviceId && HasChunk(s, row, index))
      && (y.ChunkServed? ==> IsChunk(s, s.transfers[transferId], index, y))
  {
    if transferId in s.transfers {
      ReadChunkExact(s, s.transfers[transferId], index);
      ReadsSame(s, TransfersPruned(s, now), s.transfers[transferId], index);
    }
    hide ReadChunk, HasChunk, ChunkEnd;
  }

  /** A chunk is served exactly to the admitted session that the open transfer belongs to. */
  lemma ServeExact(s: State, now: time, header: Option<string>, artifactId: string, transferId: string, index: dword)
    requires Inv(s, now)
    ensures var y := ServeChunk(s, now, header, artifactId, transferId, index).1.reply;
      && (y.ChunkServed? <==> MayServe(s, now, header, artifactId, transferId, index))
      && (y.ChunkServed? ==> IsChunk(s, s.transfers[transferId], index, y))
  {
    LookupExact(s, header, now);
    if Admitted(s, header, now) {
      ServeForExact(s, now, s.sessions[BearerToken(header).value], artifactId, transferId, index);
    }
    hide SessionFromHeaders, ServeFor, BearerToken, CapabilityLost, Inv, IsChunk, HasChunk;
  }

  lemma ReadsSame(s: State, t: State, row: Transfer, index: dword)
    requires s.files == t.files
    ensures ReadChunk(s, row, index) == ReadChunk(t, row, index)
  {
  }

  // ----------------------------------------------------------------- refusals --

  /** Why a registration is refused. */
  lemma RegisterRefuses(s: State, now: time, r: RegisterRequest, id: string, challenge: string)
    ensures var y, known := Register(s, now, r, id, challenge).1.reply, ClientByDevice(s, r.deviceId);
      && (y == Failed(BadRequest) <==> !WellFormed(r))
      && (y == Failed(ClientRevoked) <==> WellFormed(r) && known.Some? && known.value.revoked)
      && (y == Failed(BindingMismatch) <==>
           && WellFormed(r) && known.Some? && !known.value.revoked
           && (known.value.key != r.key || known.value.algorithm != r.algorithm))
  {
    hide IsBlank, SatAdd;
  }

  /** A session request that is otherwise in order is a replay exactly if its nonce is taken, and then
      refused for its capabilities exactly if the account is not entitled to one of them. */
  lemma CreateSessionRefuses(s: State, now: time, q: SessionRequest, id: string, jti: string)
    requires !IsBlank(q.clientId) && !IsBlank(q.deviceId) && !IsBlank(q.version) && NonceOk(q.nonce)
    requires RequestTimeOk(q.iat, now) && q.capabilities != []
    requires q.clientId in s.clients && Unusable(s.clients[q.clientId], q.deviceId).None?
    requires s.clients[q.clientId].version == q.version
    requires SignedBy(s, s.clients[q.clientId],
      SessionProof(q.clientId, q.deviceId, q.version, q.nonce, q.iat, q.capabilities), q.signature)
    ensures var y := CreateSession(s, now, q, id, jti).1.reply;
      && (y == Failed(Replay) <==> !NonceFree(s, q.nonce, now))
      && (y == Failed(CapabilityNotEntitled) <==>
           NonceFree(s, q.nonce, now) && !AllEntitled(s, s.clients[q.clientId].accountId, q.capabilities))
  {
    hide IsBlank, NonceOk, RequestTimeOk, NonceFree, NonceTried, ActiveSessionsRevoked, SignedBy;
  }

  /** Why a lookup by header refuses. */
  lemma LookupRefuses(s: State, header: Option<string>, now: time)
    requires SessionsOk(s)
    ensures var found, token := SessionFromHeaders(s, header, now).1, BearerToken(header);
      && (found == Err(SessionRevoked) <==>
           token.Some? && token.value in s.sessions && s.sessions[token.value].revoked)
      && (found == Err(CapabilityRevoked) <==>
           token.Some? && SessionUsable(s, token.value, now) && CapabilityLost(s, token.value))
      && (token.None? || token.value !in s.sessions ==> found == Err(Unauthorized))
  {
    hide BearerToken, AllEntitled;
  }

  /** Why a heartbeat is refused before its nonce is looked at. */
  lemma HeartbeatRefuses(s: State, now: time, id: string, q: HeartbeatRequest, jti: string)
    requires id in s.sessions
    ensures var y, x := Heartbeat(s, now, id, q, jti).1.reply, s.sessions[id];
      && (y == Failed(SessionRevoked) <==> x.revoked)
      && (y == Failed(LeaseExpired) <==> !x.revoked && x.exp <= now)
      && (Live(x, now) && (x.clientId != q.clientId || x.deviceId != q.deviceId) ==> y == Failed(BindingMismatch))
      && (Live(x, now) && x.clientId == q.clientId && x.deviceId == q.deviceId ==>
           (y == Failed(BadRequest) <==> !NonceOk(q.nonce) || !RequestTimeOk(q.iat, now)))
  {
    hide NonceOk, RequestTimeOk, NonceFree, NonceTried, SignedBy, AllEntitled;
  }

  /** Of an admitted session's grant request that is well formed and signed: for a workflow that does not
      fit it is refused for that reason. */
  lemma IssueGrantRefuses(s: State, now: time, header: Option<string>, r: GrantRequest, jti: string)
    requires SessionsOk(s) && ArtifactsOk(s) && Admitted(s, header, now)
    ensures var y, session := IssueGrant(s, now, header, r, jti).1.reply, s.sessions[BearerToken(header).value];
      && (y == Failed(MissingCapability) <==> !HasGrantCapabilities(session))
      && (HasGrantCapabilities(session) && !GrantRequestOk(r, now) <==> y == Failed(BadRequest))
      && (HasGrantCapabilities(session) && GrantRequestOk(r, now) && AskedFor(s, session.clientId, r)
          && r.artifactId in s.artifacts ==>
           (y == Failed(WorkflowMismatch) <==> !ArtifactAllows(r.artifactId, r.action)))
  {
    LookupExact(s, header, now);
    hide SessionFromHeaders, BearerToken, CapabilityLost, HasGrantCapabilities, GrantRequestOk, SignedBy, SafeFile;
    hide ArtifactAllows, SignGrant, AllEntitled;
    SignGrantReplies(s, now, header, r, jti);
  }

  lemma SignGrantReplies(s: State, now: time, header: Option<string>, r: GrantRequest, jti: string)
    ensures forall session: Session, c: Client, sha256: string ::
      SignGrant(s, now, session, c, r, sha256, jti).1.reply in {Failed(Replay), Failed(Unauthorized)}
      || SignGrant(s, now, session, c, r, sha256, jti).1.reply.GrantIssued?
  {
    hide NonceFree, NonceTried;
  }

  /** A grant request that passes these checks is refused for a file that is not the one asked for, and
      after that exactly for a nonce that is taken. */
  lemma IssueGrantReplays(s: State, now: time, header: Option<string>, r: GrantRequest, jti: string)
    requires SessionsOk(s) && ArtifactsOk(s) && Admitted(s, header, now)
    requires HasGrantCapabilities(s.sessions[BearerToken(header).value])
    requires GrantRequestOk(r, now) && AskedFor(s, s.sessions[BearerToken(header).value].clientId, r)
    requires ArtifactAllows(r.artifactId, r.action) && IsPublished(s, r.artifactId)
    ensures var y := IssueGrant(s, now, header, r, jti).1.reply;
      var fits := r.sha256 == [] || FileOf(s, r.artifactId).sha256 == r.sha256;
      && (y == Failed(ArtifactIntegrity) <==> !fits)
      && (y == Failed(Replay) <==> fits && !NonceFree(s, r.nonce, now))
  {
    LookupExact(s, header, now);
    SafeFileIs(s, r.artifactId);
    hide SessionFromHeaders, BearerToken, CapabilityLost, HasGrantCapabilities, GrantRequestOk, SignedBy, NonceFree;
    hide ArtifactAllows, SafeFile, NonceTried, AllEntitled;
  }

  /** The reservation of a grant's JTI can be taken by a request's nonce only if that begins alike; different
      grants have different reservations. */
  lemma ReservationsApart(nonce: string, jti: string)
    ensures nonce == JtiReservation(jti) <==>
      |nonce| >= 20 && nonce[..20] == "execution-grant-jti:" && nonce[20..] == jti
  {
    assert JtiReservation(jti)[..20] == "execution-grant-jti:" && JtiReservation(jti)[20..] == jti;
  }

  /** A heartbeat that is otherwise in order is a replay exactly if its nonce is taken. */
  lemma HeartbeatReplays(s: State, now: time, id: string, q: HeartbeatRequest, jti: string)
    requires Renewable(s, now, id, q)
    ensures Heartbeat(s, now, id, q, jti).1.reply == Failed(Replay) <==> !NonceFree(s, q.nonce, now)
  {
    HeartbeatRenews(s, now, id, q, jti, Heartbeat(s, now, id, q, jti));
    hide Heartbeat, NonceFree, NonceTried, AllEntitled;
  }

  /** A grant that is otherwise accepted is consumed already exactly if its JTI is reserved. */
  lemma ConsumeReplays(s: State, now: time, p: PresentedGrant)
    requires Inv(s, now) && GrantAccepted(s, now, p)
    ensures ConsumeGrant(s, now, p).1.reply == Failed(Replay) <==> !NonceFree(s, JtiReservation(p.claims.jti), now)
  {
    ValidateExact(s, p, now);
    hide ValidateGrant, GrantAccepted, NonceFree, NonceTried, JtiReservation, Receipt, Inv;
  }

  /** Of a grant that is accepted, a file above 512 KiB is refused as too large, and one that changed
      between the readings for its integrity. */
  lemma ReleaseRefuses(s: State, now: time, p: PresentedGrant, again: Reread)
    requires Inv(s, now) && GrantAccepted(s, now, p) && again.length.Some? && again.contents.Some?
    ensures var y, f := ReleaseGrant(s, now, p, again).1.reply, again.contents.value;
      && (y == Failed(ArtifactTooLarge) <==> again.length.value > 512 * 1024)
      && (y == Failed(ArtifactIntegrity) <==>
           again.length.value <= 512 * 1024 && (|f.bytes| != again.length.value || f.sha256 != p.claims.sha256))
  {
    ValidateExact(s, p, now);
    hide ValidateGrant, GrantAccepted, Inv;
  }

  // ---------------------------------------------------------------- operations --

  lemma ClientRevokedIs(s: State, id: string)
    ensures var t := ClientRevokedIn(s, id);
      && AllKilled(s.sessions, t.sessions, id)
      && t.clients == if id in s.clients then s.clients[id := s.clients[id].(revoked := true)] else s.clients
  {
    hide AllKilled, RevokeSessions;
    RevokeAllExact(s.sessions, id);
  }

  /** The operator revokes a client for good, with all its sessions and no other. */
  lemma RevokeClientExact(s: State, id: string)
    ensures var t := Operate(s, DoRevokeClient(id));
      && AllKilled(s.sessions, t.sessions, id)
      && t.clients == if id in s.clients then s.clients[id := s.clients[id].(revoked := true)] else s.clients
  {
    hide ClientRevokedIn, AllKilled;
    ClientRevokedIs(s, id);
  }

  /** Granting and revoking an entitlement decide that one entitlement; it can be revoked only after it was
      granted. */
  lemma EntitlementExact(s: State, account: string, c: Capability, t: State, u: State)
    requires t == Operate(s, DoGrantEntitlement(account, c)) && u == Operate(s, DoRevokeEntitlement(account, c))
    ensures Entitled(t, account, c) && !Entitled(u, account, c)
    ensures forall other, d :: (other, d) != (account, c) ==>
      (Entitled(t, other, d) <==> Entitled(s, other, d)) && (Entitled(u, other, d) <==> Entitled(s, other, d))
  {
    assert t.entitlements == s.entitlements[(account, c) := true];
    assert u.entitlements == if (account, c) in s.entitlements then s.entitlements[(account, c) := false]
      else s.entitlements;
    hide Operate;
  }

  /** A client may be used by its device exactly if it is approved and not revoked; a revocation is named
      before anything else. */
  lemma UsableIs(c: Client, deviceId: string)
    ensures Unusable(c, deviceId).None? <==> c.approved && !c.revoked && c.deviceId == deviceId
    ensures Unusable(c, deviceId) == Some(ClientRevoked) <==> c.revoked
    ensures Unusable(c, deviceId) == Some(ApprovalPending) <==> !c.revoked && !c.approved
  {
  }

  /** Approval makes a registered client usable unless it is revoked, and may give it an account. */
  lemma ApproveExact(s: State, id: string, account: string)
    requires id in s.clients
    ensures var t, u, c := Operate(s, DoApprove(id)), Operate(s, DoApproveForAccount(id, account)), s.clients[id];
      && t.clients == s.clients[id := c.(approved := true)]
      && u.clients == s.clients[id := c.(approved := true, accountId := account)]
      && (Unusable(u.clients[id], c.deviceId).None? <==> !c.revoked)
  {
  }
}
