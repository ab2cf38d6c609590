/** What a lease, a grant, a receipt, a reserved nonce or a refusal says about the moment it was
    produced. */
module AuthFacts {
  import opened Bytes
  import opened Text
  import opened AuthModel
  import opened AuthTables
  import opened AuthHandlers
  import opened AuthInvariant
  import opened AuthSteps

  /** The client may use the service for all of `caps` right now. */
  ghost predicate InGoodStanding(s: State, clientId: string, deviceId: string, version: string, caps: seq<Capability>)
  {
    && clientId in s.clients && !s.clients[clientId].revoked && s.clients[clientId].approved
    && s.clients[clientId].deviceId == deviceId && s.clients[clientId].version == version
    && AllEntitled(s, s.clients[clientId].accountId, caps)
  }

  /** A lease goes to a client in good standing, for a session that is not revoked and expires with
      the lease, at most 15 minutes later. */
  ghost predicate LeaseSound(s: State, t: State, now: time, l: LeaseClaims)
  {
    && InGoodStanding(s, l.clientId, l.deviceId, l.clientVersion, l.capabilities)
    && l.iat == now && l.exp == SatAdd(now, LEASE_MAX_SECS)
    && l.sessionId in t.sessions && !t.sessions[l.sessionId].revoked && t.sessions[l.sessionId].exp == l.exp
    && t.sessions[l.sessionId].clientId == l.clientId && t.sessions[l.sessionId].capabilities == l.capabilities
    && (l.sessionId in s.sessions ==> Live(s.sessions[l.sessionId], now))
    && l.clientId in t.clients && t.clients[l.clientId] == s.clients[l.clientId]
  }

  /** A grant goes to a live session of a client in good standing, and does not outlive it. */
  ghost predicate GrantSound(s: State, t: State, now: time, g: GrantClaims)
  {
    && g.sessionId in s.sessions && Live(s.sessions[g.sessionId], now) && HasGrantCapabilities(s.sessions[g.sessionId])
    && s.sessions[g.sessionId].clientId == g.clientId
    && InGoodStanding(s, g.clientId, g.deviceId, g.clientVersion, s.sessions[g.sessionId].capabilities)
    && g.iat == now < g.exp <= s.sessions[g.sessionId].exp && g.exp <= SatAdd(now, EXECUTION_GRANT_TTL_SECS)
    && ArtifactAllows(g.artifactId, g.action) && g in t.signedGrants
  }

  /** A presented grant that may be used: this service signed it, it is still running, its session is
      live, its client in good standing, and the client's registered key has signed its payload. */
  ghost predicate GrantUsable(s: State, now: time, p: PresentedGrant)
  {
    var g := p.claims;
    && g in s.signedGrants && now < g.exp
    && g.sessionId in s.sessions && Live(s.sessions[g.sessionId], now)
    && s.sessions[g.sessionId].clientId == g.clientId
    && InGoodStanding(s, g.clientId, g.deviceId, g.clientVersion, s.sessions[g.sessionId].capabilities)
    && p.deviceProof.Some? && SignedBy(s, s.clients[g.clientId], GrantPayloadProof(g), p.deviceProof.value)
  }

  /** A receipt is the receipt of a usable grant whose JTI was not reserved. */
  ghost predicate ReceiptSound(s: State, t: State, now: time, r: ReceiptClaims, p: PresentedGrant)
  {
    && GrantUsable(s, now, p) && r == Receipt(p.claims, now)
    && NonceFree(s, JtiReservation(p.claims.jti), now) && r in t.signedReceipts
  }

  lemma CreateSessionLease(s: State, now: time, r: SessionRequest, id: string, jti: string)
    requires Inv(s, now) && id !in s.sessions
    ensures var (t, o) := CreateSession(s, now, r, id, jti);
      o.reply.LeaseIssued? ==> LeaseSound(s, t, now, o.reply.lease) && SignedBy(s, s.clients[r.clientId],
        SessionProof(r.clientId, r.deviceId, r.version, r.nonce, r.iat, r.capabilities), r.signature)
  {
    hide SignedBy, ActiveSessionsRevoked, NonceFree, RequestTimeOk, NonceOk, IsBlank, GrantsIn, ReceiptsIn, OneLive;
  }

  /** The token of a successful lookup is the identifier of the session it finds. */
  lemma TokenNamesSession(s: State, header: Option<string>, now: time)
    requires SessionsOk(s)
    ensures var found := SessionFromHeaders(s, header, now).1;
      found.Ok? ==> BearerToken(header) == Some(found.value.sessionId)
  {
    hide BearerToken, AllEntitled;
  }

  /** The session is live and its client usable. */
  ghost predicate SessionUsable(s: State, id: string, now: time)
  {
    && id in s.sessions && Live(s.sessions[id], now) && s.sessions[id].clientId in s.clients
    && Unusable(s.clients[s.sessions[id].clientId], s.sessions[id].deviceId).None?
  }

  /** What a heartbeat has checked when it comes to reserving its nonce. */
  ghost predicate Renewable(s: State, now: time, id: string, r: HeartbeatRequest)
  {
    && SessionUsable(s, id, now) && s.sessions[id].clientId == r.clientId && s.sessions[id].deviceId == r.deviceId
    && NonceOk(r.nonce) && RequestTimeOk(r.iat, now)
    && SignedBy(s, s.clients[r.clientId], HeartbeatProof(id, r.clientId, r.deviceId, r.nonce, r.iat), r.signature)
  }

  /** A heartbeat that passes these checks ends in a renewal; any other one changes nothing. */
  lemma HeartbeatRenews(s: State, now: time, id: string, r: HeartbeatRequest, jti: string, x: (State, Outcome))
    requires x == Heartbeat(s, now, id, r, jti)
    ensures Renewable(s, now, id, r) ==> x == Renew(s, now, id, s.sessions[id], s.clients[r.clientId], r.nonce, jti)
    ensures !Renewable(s, now, id, r) ==>
      x.0 == s && x.1.reply.Failed? && x.1.reply != Failed(CapabilityRevoked) && x.1.reserved.None?
  {
    hide Renew, NonceOk, RequestTimeOk, SignedBy;
  }

  lemma RenewLease(s: State, now: time, id: string, r: HeartbeatRequest, jti: string, x: (State, Outcome))
    requires ClientsOk(s) && SessionsOk(s) && Renewable(s, now, id, r)
    requires x == Renew(s, now, id, s.sessions[id], s.clients[r.clientId], r.nonce, jti)
    ensures x.1.reply.LeaseIssued? ==> LeaseSound(s, x.0, now, x.1.reply.lease)
  {
  }

  lemma HeartbeatLease(s: State, now: time, id: string, r: HeartbeatRequest, jti: string, x: (State, Outcome))
    requires Inv(s, now) && x == Heartbeat(s, now, id, r, jti) && x.1.reply.LeaseIssued?
    ensures LeaseSound(s, x.0, now, x.1.reply.lease)
    ensures SignedBy(s, s.clients[r.clientId], HeartbeatProof(id, r.clientId, r.deviceId, r.nonce, r.iat), r.signature)
  {
    HeartbeatRenews(s, now, id, r, jti, x);
    RenewLease(s, now, id, r, jti, x);
  }

  lemma SignGrantSound(s: State, now: time, session: Session, r: GrantRequest, sha256: string, jti: string)
    requires Inv(s, now) && Authorized(s, session, now) && HasGrantCapabilities(session)
    requires ArtifactAllows(r.artifactId, r.action)
    ensures var (v, o) := SignGrant(s, now, session, s.clients[session.clientId], r, sha256, jti);
      o.reply.GrantIssued? ==> GrantSound(s, v, now, o.reply.grant)
  {
    hide NonceFree, GrantsIn, ReceiptsIn, OneLive, HasGrantCapabilities, ArtifactAllows;
  }

  lemma IssueGrantFrom(s: State, now: time, header: Option<string>, r: GrantRequest, jti: string)
    requires Inv(s, now)
    ensures var (t, found) := SessionFromHeaders(s, header, now);
      var x := IssueGrant(s, now, header, r, jti);
      x.1.reply.GrantIssued? || x.1.reserved.Some? ==>
        && found.Ok? && HasGrantCapabilities(found.value) && found.value.clientId in t.clients
        && ArtifactAllows(r.artifactId, r.action) && RequestTimeOk(r.iat, now)
        && exists sha256 :: x == SignGrant(t, now, found.value, t.clients[found.value.clientId], r, sha256, jti)
  {
    hide SessionFromHeaders, SignGrant, SafeFile, HasGrantCapabilities, SignedBy;
  }

  lemma IssueGrantSound(s: State, now: time, header: Option<string>, r: GrantRequest, jti: string)
    requires Inv(s, now)
    ensures var (v, o) := IssueGrant(s, now, header, r, jti);
      o.reply.GrantIssued? ==> GrantSound(s, v, now, o.reply.grant)
  {
    IssueGrantFrom(s, now, header, r, jti);
    FromHeadersAuthorizes(s, header, now);
    var found := SessionFromHeaders(s, header, now).1;
    var x := IssueGrant(s, now, header, r, jti);
    if x.1.reply.GrantIssued? {
      var sha256 :| x == SignGrant(s, now, found.value, s.clients[found.value.clientId], r, sha256, jti);
      SignGrantSound(s, now, found.value, r, sha256, jti);
    }
  }

  /** What a completed registration has checked. */
  ghost predicate MayComplete(s: State, now: time, id: string, challenge: string, signature: string)
  {
    && id in s.clients && ChallengeOpen(s, id, challenge, now)
    && SignedBy(s, s.clients[id], RegistrationProof(id, challenge), signature)
  }

  lemma CompletionIs(s: State, now: time, id: string, challenge: string, signature: string)
    ensures var (t, o) := Complete(s, now, id, challenge, signature);
      o.reply.RegistrationCompleted? ==>
        && MayComplete(s, now, id, challenge, signature)
        && var asked := s.challenges[id].version;
        t == RegistrationUpdated(s.(challenges := s.challenges - {id}), id,
          if IsBlank(asked) then s.clients[id].version else asked)
  {
  }

  lemma UpdateIs(s: State, id: string, version: string, t: State)
    requires id in s.clients && t == RegistrationUpdated(s, id, version)
    ensures id in t.clients && (!s.clients[id].revoked ==> t.clients[id].version == version)
  {
    hide RevokeSessions;
  }

  /** A registration is completed by the registered key only, over a challenge that is still open
      and is then gone; the client's sessions die, and it gets the version it asked for. */
  lemma CompletionSound(s: State, now: time, id: string, challenge: string, signature: string)
    ensures var (t, o) := Complete(s, now, id, challenge, signature);
      o.reply.RegistrationCompleted? ==>
        && MayComplete(s, now, id, challenge, signature) && id !in t.challenges && id in t.clients
        && (forall k :: k in t.sessions && t.sessions[k].clientId == id ==> t.sessions[k].revoked)
        && (!s.clients[id].revoked && !IsBlank(s.challenges[id].version) ==>
          t.clients[id].version == s.challenges[id].version)
  {
    CompletionIs(s, now, id, challenge, signature);
    var (t, o) := Complete(s, now, id, challenge, signature);
    if o.reply.RegistrationCompleted? {
      var asked := s.challenges[id].version;
      UpdateIs(s.(challenges := s.challenges - {id}), id, if IsBlank(asked) then s.clients[id].version else asked, t);
      AllRevoked(s.sessions, id, t.sessions);
    }
  }

  /** A presented grant that passes every check up to its entitlements: signed by this service, still
      running, for a live session of a usable client, and signed by the client's registered key. */
  ghost predicate GrantPresentable(s: State, now: time, p: PresentedGrant)
  {
    var g := p.claims;
    && p.intact && g in s.signedGrants && GrantClaimsOk(g, now) && ArtifactAllows(g.artifactId, g.action)
    && g.sessionId in s.sessions && Live(s.sessions[g.sessionId], now)
    && s.sessions[g.sessionId].clientId == g.clientId && s.sessions[g.sessionId].deviceId == g.deviceId
    && HasGrantCapabilities(s.sessions[g.sessionId])
    && g.clientId in s.clients && Unusable(s.clients[g.clientId], g.deviceId).None?
    && p.deviceProof.Some? && !IsBlank(p.deviceProof.value)
    && SignedBy(s, s.clients[g.clientId], GrantPayloadProof(g), p.deviceProof.value)
  }

  /** A grant that passes validation is usable, and the file is the one it names. */
  lemma ValidGrantIs(s: State, p: PresentedGrant, now: time)
    ensures var (t, checked) := ValidateGrant(s, p, now);
      checked.Ok? ==> t == s && GrantUsable(s, now, p) && checked == GrantedFile(s, p.claims)
  {
    hide GrantedFile, IsBlank, AllEntitled, HasGrantCapabilities, SignedBy, ArtifactAllows;
  }

  lemma GrantedFileIs(s: State, g: GrantClaims)
    ensures GrantedFile(s, g).Ok? ==>
      && g.artifactId in s.artifacts && s.artifacts[g.artifactId].path in s.files
      && var file := s.files[s.artifacts[g.artifactId].path];
      file.insideRoot && file.sha256 == g.sha256
  {
  }

  /** A released artifact has the hash that a usable grant names, and at most 512 KiB; it is published
      inside the artifact root. What is released is what was read last: a file that changed after
      its validation is released only if it still has the hash. */
  ghost predicate ReleaseSound(s: State, now: time, p: PresentedGrant, artifactId: string, file: File)
  {
    var g := p.claims;
    && GrantUsable(s, now, p) && g.artifactId == artifactId
    && artifactId in s.artifacts && s.artifacts[artifactId].path in s.files
    && s.files[s.artifacts[artifactId].path].insideRoot && s.files[s.artifacts[artifactId].path].sha256 == g.sha256
    && file.sha256 == g.sha256 && |file.bytes| <= MAX_EXECUTION_RELEASE_BYTES
  }

  lemma ReleaseGrantSound(s: State, now: time, p: PresentedGrant, again: Reread)
    ensures var (t, o) := ReleaseGrant(s, now, p, again);
      o.reply.ArtifactReleased? ==> ReleaseSound(s, now, p, o.reply.artifactId, o.reply.file)
  {
    ValidGrantIs(s, p, now);
    GrantedFileIs(s, p.claims);
    hide ValidateGrant, GrantUsable, GrantedFile;
  }

  lemma ConsumeGrantSound(s: State, now: time, p: PresentedGrant)
    ensures var (v, o) := ConsumeGrant(s, now, p);
      o.reply.ReceiptIssued? ==> ReceiptSound(s, v, now, o.reply.receipt, p)
  {
    ValidGrantIs(s, p, now);
    hide ValidateGrant, GrantUsable, NonceTried, NonceFree, Receipt;
  }

  /** For a grant this service signed, the client-version check of the validation never fails. */
  lemma NeverOutdated(s: State, p: PresentedGrant, now: time, clock: time)
    requires GrantsOk(s, clock)
    ensures ValidateGrant(s, p, now).1 != Err(ClientOutdated)
  {
    if p.claims in s.signedGrants {
      assert GrantOk(s, p.claims, clock);
    }
  }

  // ----------------------------------------------------------------- nonces --

  /** The reserved nonce was free, and is now in the table with the current time. */
  ghost predicate Reserves(s: State, t: State, now: time, nonce: string)
  {
    NonceFree(s, nonce, now) && t.nonces == NonceTried(s, nonce, now).nonces
  }

  /** The `iat` a request was signed with. */
  function SignedAt(r: Request): (iat: Option<time>)
  {
    match r
    case DoCreateSession(q, _, _) => Some(q.iat)
    case DoHeartbeat(_, q, _) => Some(q.iat)
    case DoIssueGrant(_, q, _) => Some(q.iat)
    case _ => None
  }

  function SignedNonce(r: Request): (nonce: Option<string>)
  {
    match r
    case DoCreateSession(q, _, _) => Some(q.nonce)
    case DoHeartbeat(_, q, _) => Some(q.nonce)
    case DoIssueGrant(_, q, _) => Some(q.nonce)
    case _ => None
  }

  lemma SignGrantReserves(t: State, now: time, session: Session, c: Client, r: GrantRequest, sha256: string,
      jti: string)
    ensures var (u, o) := SignGrant(t, now, session, c, r, sha256, jti);
      o.reserved.Some? ==> o.reserved == Some(r.nonce) && Reserves(t, u, now, r.nonce)
  {
    hide NonceTried, NonceFree;
  }

  lemma IssueGrantReserves(s: State, now: time, header: Option<string>, r: GrantRequest, jti: string)
    requires Inv(s, now)
    ensures var (v, o) := IssueGrant(s, now, header, r, jti);
      o.reserved.Some? ==> o.reserved == Some(r.nonce) && Reserves(s, v, now, r.nonce) && RequestTimeOk(r.iat, now)
  {
    hide IssueGrant, SignGrant, SessionFromHeaders, Inv, Authorized, RequestTimeOk, ArtifactAllows, Reserves,
      HasGrantCapabilities;
    IssueGrantFrom(s, now, header, r, jti);
    FromHeadersAuthorizes(s, header, now);
    var found := SessionFromHeaders(s, header, now).1;
    var x := IssueGrant(s, now, header, r, jti);
    if x.1.reserved.Some? {
      var c := s.clients[found.value.clientId];
      var sha256 :| x == SignGrant(s, now, found.value, c, r, sha256, jti);
      SignGrantReserves(s, now, found.value, c, r, sha256, jti);
    }
  }

  lemma OpenSessionReserves(s: State, now: time, r: SessionRequest, c: Client, id: string, jti: string)
    ensures var (t, o) := OpenSession(s, now, r, c, id, jti);
      o.reserved.Some? ==> o.reserved == Some(r.nonce) && Reserves(s, t, now, r.nonce)
  {
    hide AllEntitled, NonceTried, NonceFree, ActiveSessionsRevoked, Lease;
  }

  lemma CreateSessionReserves(s: State, now: time, r: SessionRequest, id: string, jti: string)
    ensures var (t, o) := CreateSession(s, now, r, id, jti);
      o.reserved.Some? ==> o.reserved == Some(r.nonce) && Reserves(s, t, now, r.nonce) && RequestTimeOk(r.iat, now)
  {
    if r.clientId in s.clients {
      OpenSessionReserves(s, now, r, s.clients[r.clientId], id, jti);
    }
    hide OpenSession, Reserves, SignedBy, Unusable, RequestTimeOk, NonceOk;
  }

  lemma RenewReserves(s: State, now: time, id: string, session: Session, c: Client, nonce: string, jti: string)
    ensures var (t, o) := Renew(s, now, id, session, c, nonce, jti);
      o.reserved.Some? ==> o.reserved == Some(nonce) && Reserves(s, t, now, nonce)
  {
  }

  lemma HeartbeatReserves(s: State, now: time, id: string, r: HeartbeatRequest, jti: string, x: (State, Outcome))
    requires x == Heartbeat(s, now, id, r, jti) && x.1.reserved.Some?
    ensures x.1.reserved == Some(r.nonce) && Reserves(s, x.0, now, r.nonce) && RequestTimeOk(r.iat, now)
  {
    HeartbeatRenews(s, now, id, r, jti, x);
    RenewReserves(s, now, id, s.sessions[id], s.clients[r.clientId], r.nonce, jti);
  }

  /** A request that reserves a nonce reserves its own, within the window of its timestamp. */
  lemma SignedRequestReserves(s: State, now: time, r: Request)
    requires Inv(s, now) && SignedNonce(r).Some?
    ensures var (t, o) := Handle(s, now, r);
      o.reserved.Some? ==>
        o.reserved == SignedNonce(r) && Reserves(s, t, now, o.reserved.value) && RequestTimeOk(SignedAt(r).value, now)
  {
    hide Inv, CreateSession, Heartbeat, IssueGrant, Reserves, RequestTimeOk;
    match r
    case DoCreateSession(q, id, jti) => CreateSessionReserves(s, now, q, id, jti);
    case DoHeartbeat(id, q, jti) =>
      if Handle(s, now, r).1.reserved.Some? {
        HeartbeatReserves(s, now, id, q, jti, Handle(s, now, r));
      }
    case DoIssueGrant(header, q, jti) => IssueGrantReserves(s, now, header, q, jti);
  }

  // -------------------------------------------------------------- refusals --

  /** The session a request uses. */
  function UsedSession(r: Request): (id: Option<string>)
  {
    match r
    case DoListCapabilities(header) => BearerToken(header)
    case DoHeartbeat(id, _, _) => Some(id)
    case DoCloseSession(header, _) => BearerToken(header)
    case DoIssueGrant(header, _, _) => BearerToken(header)
    case DoReleaseGrant(p, _) => Some(p.claims.sessionId)
    case DoConsumeGrant(p) => Some(p.claims.sessionId)
    case DoPrepare(header, _, _, _, _, _) => BearerToken(header)
    case DoServeChunk(header, _, _, _) => BearerToken(header)
    case _ => None
  }

  /** The account of the session's client is not entitled to some capability of the session. */
  ghost predicate CapabilityLost(s: State, id: string)
  {
    && id in s.sessions && s.sessions[id].clientId in s.clients
    && !AllEntitled(s, s.clients[s.sessions[id].clientId].accountId, s.sessions[id].capabilities)
  }

  /** The request passes every check that its handler makes before it looks at the entitlements. */
  ghost predicate ReachesEntitlements(s: State, now: time, r: Request)
  {
    match r
    case DoHeartbeat(id, q, _) => Renewable(s, now, id, q) && NonceFree(s, q.nonce, now)
    case DoReleaseGrant(p, _) => GrantPresentable(s, now, p)
    case DoConsumeGrant(p) => GrantPresentable(s, now, p)
    case _ => UsedSession(r).Some? && SessionUsable(s, UsedSession(r).value, now)
  }

  /** The request uses a session with a lost capability, and gets as far as noticing it. */
  ghost predicate MeetsLostCapability(s: State, now: time, r: Request)
  {
    UsedSession(r).Some? && CapabilityLost(s, UsedSession(r).value) && ReachesEntitlements(s, now, r)
  }

  function SessionKilled(sessions: map<string, Session>, id: string): (r: map<string, Session>)
    requires id in sessions
  {
    sessions[id := sessions[id].(revoked := true)]
  }

  /** A handler refuses for a lost capability, and kills the session, exactly when the request meets
      one; a session with a lost capability that is used otherwise stays as it is. */
  ghost predicate KillsExactly(s: State, now: time, r: Request, x: (State, Outcome))
  {
    && (x.1.reply == Failed(CapabilityRevoked) <==> MeetsLostCapability(s, now, r))
    && (UsedSession(r).Some? && CapabilityLost(s, UsedSession(r).value) ==>
         x.0.sessions == if ReachesEntitlements(s, now, r) then SessionKilled(s.sessions, UsedSession(r).value)
           else s.sessions)
  }

  /** A lookup refuses for a lost capability exactly when the session is live, its client usable,
      and some capability no longer entitled; the session is then revoked. */
  lemma LookupKills(s: State, header: Option<string>, now: time)
    requires SessionsOk(s)
    ensures var (t, found) := SessionFromHeaders(s, header, now);
      var id := BearerToken(header);
      && (found == Err(CapabilityRevoked) <==>
           id.Some? && SessionUsable(s, id.value, now) && CapabilityLost(s, id.value))
      && (found == Err(CapabilityRevoked) ==> t.sessions == SessionKilled(s.sessions, id.value))
      && (found != Err(CapabilityRevoked) ==> t == s)
      && (found.Ok? ==> id.Some? && !CapabilityLost(s, id.value))
  {
    hide BearerToken, AllEntitled;
  }

  /** A request that begins with a lookup, and repeats its error. */
  lemma LookupDecides(s: State, now: time, r: Request, header: Option<string>, x: (State, Outcome))
    requires SessionsOk(s) && UsedSession(r) == BearerToken(header)
    requires !r.DoHeartbeat? && !r.DoReleaseGrant? && !r.DoConsumeGrant?
    requires var (t, found) := SessionFromHeaders(s, header, now);
      if found.Err? then x == (t, Refuse(found.error)) else x.1.reply != Failed(CapabilityRevoked)
    ensures KillsExactly(s, now, r, x)
  {
    LookupKills(s, header, now);
    hide SessionFromHeaders, UsedSession, BearerToken, SessionUsable, CapabilityLost, SessionsOk;
  }

  lemma ListKills(s: State, now: time, header: Option<string>)
    requires SessionsOk(s)
    ensures KillsExactly(s, now, DoListCapabilities(header), ListCapabilities(s, now, header))
  {
    hide SessionFromHeaders, BearerToken, SessionsOk, KillsExactly;
    LookupDecides(s, now, DoListCapabilities(header), header, ListCapabilities(s, now, header));
  }

  lemma CloseKills(s: State, now: time, header: Option<string>, id: string)
    requires SessionsOk(s)
    ensures KillsExactly(s, now, DoCloseSession(header, id), CloseSession(s, now, header, id))
  {
    hide SessionFromHeaders, SessionRevokedIn, BearerToken, SessionsOk, KillsExactly;
    LookupDecides(s, now, DoCloseSession(header, id), header, CloseSession(s, now, header, id));
  }

  lemma IssueKills(s: State, now: time, header: Option<string>, q: GrantRequest, jti: string)
    requires SessionsOk(s)
    ensures KillsExactly(s, now, DoIssueGrant(header, q, jti), IssueGrant(s, now, header, q, jti))
  {
    hide SessionFromHeaders, SignGrant, SafeFile, ArtifactAllows, GrantRequestOk, SignedBy, HasGrantCapabilities;
    hide BearerToken, SessionsOk, KillsExactly;
    LookupDecides(s, now, DoIssueGrant(header, q, jti), header, IssueGrant(s, now, header, q, jti));
  }

  lemma PrepareKills(s: State, now: time, r: Request)
    requires SessionsOk(s) && r.DoPrepare?
    ensures KillsExactly(s, now, r, Handle(s, now, r))
  {
    hide SessionFromHeaders, PrepareFor, BearerToken, SessionsOk, KillsExactly;
    LookupDecides(s, now, r, r.header, Handle(s, now, r));
  }

  lemma ServeKills(s: State, now: time, r: Request)
    requires SessionsOk(s) && r.DoServeChunk?
    ensures KillsExactly(s, now, r, Handle(s, now, r))
  {
    hide SessionFromHeaders, ServeFor, BearerToken, SessionsOk, KillsExactly;
    LookupDecides(s, now, r, r.header, Handle(s, now, r));
  }

  lemma GrantedErrors(s: State, g: GrantClaims)
    ensures GrantedFile(s, g) != Err(CapabilityRevoked)
  {
  }

  lemma GrantKills(s: State, p: PresentedGrant, now: time)
    requires SessionsOk(s) && GrantsOk(s, now)
    ensures var (t, checked) := ValidateGrant(s, p, now);
      && (checked == Err(CapabilityRevoked) <==> GrantPresentable(s, now, p) && CapabilityLost(s, p.claims.sessionId))
      && (checked == Err(CapabilityRevoked) ==> t.sessions == SessionKilled(s.sessions, p.claims.sessionId))
      && (checked != Err(CapabilityRevoked) ==> t == s)
      && (checked.Ok? ==> !CapabilityLost(s, p.claims.sessionId))
  {
    hide GrantsOk, GrantClaimsOk, AllEntitled, ArtifactAllows, HasGrantCapabilities, IsBlank, SignedBy, GrantedFile;
    GrantedErrors(s, p.claims);
    NeverOutdated(s, p, now, now);
  }

  /** A request that begins with the validation of a grant, and repeats its error. */
  lemma ValidationDecides(s: State, now: time, r: Request, p: PresentedGrant, x: (State, Outcome))
    requires SessionsOk(s) && GrantsOk(s, now)
    requires UsedSession(r) == Some(p.claims.sessionId) && ReachesEntitlements(s, now, r) == GrantPresentable(s, now, p)
    requires var (t, checked) := ValidateGrant(s, p, now);
      if checked.Err? then x == (t, Refuse(checked.error)) else x.1.reply != Failed(CapabilityRevoked)
    ensures KillsExactly(s, now, r, x)
  {
    GrantKills(s, p, now);
    hide ValidateGrant, UsedSession, ReachesEntitlements, GrantPresentable, CapabilityLost, SessionsOk, GrantsOk;
  }

  lemma ReleaseKills(s: State, now: time, p: PresentedGrant, again: Reread)
    requires SessionsOk(s) && GrantsOk(s, now)
    ensures KillsExactly(s, now, DoReleaseGrant(p, again), ReleaseGrant(s, now, p, again))
  {
    hide ValidateGrant, ReleaseContents, GrantPresentable, SessionsOk, GrantsOk, KillsExactly;
    ValidationDecides(s, now, DoReleaseGrant(p, again), p, ReleaseGrant(s, now, p, again));
  }

  lemma ConsumeKills(s: State, now: time, p: PresentedGrant)
    requires SessionsOk(s) && GrantsOk(s, now)
    ensures KillsExactly(s, now, DoConsumeGrant(p), ConsumeGrant(s, now, p))
  {
    hide ValidateGrant, SignReceipt, GrantPresentable, SessionsOk, GrantsOk, KillsExactly;
    ValidationDecides(s, now, DoConsumeGrant(p), p, ConsumeGrant(s, now, p));
  }

  lemma RenewKills(s: State, now: time, id: string, c: Client, nonce: string, jti: string)
    requires id in s.sessions && s.sessions[id].clientId in s.clients && s.clients[s.sessions[id].clientId] == c
    ensures var (t, o) := Renew(s, now, id, s.sessions[id], c, nonce, jti);
      && (o.reply == Failed(CapabilityRevoked) <==> CapabilityLost(s, id) && NonceFree(s, nonce, now))
      && (CapabilityLost(s, id) ==>
           t.sessions == if NonceFree(s, nonce, now) then SessionKilled(s.sessions, id) else s.sessions)
  {
    hide NonceFree, NonceTried;
  }

  lemma HeartbeatKills(s: State, now: time, id: string, q: HeartbeatRequest, jti: string)
    ensures KillsExactly(s, now, DoHeartbeat(id, q, jti), Heartbeat(s, now, id, q, jti))
  {
    hide Heartbeat, Renew, NonceFree, NonceOk, RequestTimeOk, SignedBy, AllEntitled;
    HeartbeatRenews(s, now, id, q, jti, Heartbeat(s, now, id, q, jti));
    if Renewable(s, now, id, q) {
      RenewKills(s, now, id, s.clients[q.clientId], q.nonce, jti);
    }
  }

  lemma CreationKillsNone(s: State, now: time, q: SessionRequest, id: string, jti: string)
    ensures CreateSession(s, now, q, id, jti).1.reply != Failed(CapabilityRevoked)
  {
    hide OpenSession, SignedBy, RequestTimeOk, NonceOk;
  }

  lemma OthersKillNone(s: State, now: time, r: Request)
    requires UsedSession(r).None? && !r.DoListCapabilities? && !r.DoCloseSession? && !r.DoIssueGrant? && !r.DoPrepare?
      && !r.DoServeChunk? && !r.DoCreateSession?
    ensures Handle(s, now, r).1.reply != Failed(CapabilityRevoked)
  {
    hide Operate, RegistrationUpdated, SignedBy, ChallengeOpen, IsBlank;
  }

  lemma SessionRequestKills(s: State, now: time, r: Request)
    requires SessionsOk(s)
    requires r.DoCreateSession? || r.DoListCapabilities? || r.DoHeartbeat? || r.DoCloseSession?
    ensures KillsExactly(s, now, r, Handle(s, now, r))
  {
    hide SessionsOk, CreateSession, ListCapabilities, Heartbeat, CloseSession, CapabilityLost, ReachesEntitlements;
    match r
    case DoCreateSession(q, id, jti) => CreationKillsNone(s, now, q, id, jti);
    case DoListCapabilities(header) => ListKills(s, now, header);
    case DoHeartbeat(id, q, jti) => HeartbeatKills(s, now, id, q, jti);
    case DoCloseSession(header, id) => CloseKills(s, now, header, id);
  }

  lemma GrantRequestKills(s: State, now: time, r: Request)
    requires SessionsOk(s) && GrantsOk(s, now) && (r.DoIssueGrant? || r.DoReleaseGrant? || r.DoConsumeGrant?)
    ensures KillsExactly(s, now, r, Handle(s, now, r))
  {
    hide SessionsOk, GrantsOk, IssueGrant, ReleaseGrant, ConsumeGrant, KillsExactly;
    match r
    case DoIssueGrant(header, q, jti) => IssueKills(s, now, header, q, jti);
    case DoReleaseGrant(p, again) => ReleaseKills(s, now, p, again);
    case DoConsumeGrant(p) => ConsumeKills(s, now, p);
  }

  /** Every request refuses for a lost capability, and kills the session it uses, if and only if the
      session has lost a capability and every earlier check passes. */
  lemma LostCapabilityKills(s: State, now: time, r: Request)
    requires Inv(s, now)
    ensures KillsExactly(s, now, r, Handle(s, now, r))
  {
    hide Handle, SessionsOk, GrantsOk, CapabilityLost, ReachesEntitlements;
    if r.DoCreateSession? || r.DoListCapabilities? || r.DoHeartbeat? || r.DoCloseSession? {
      SessionRequestKills(s, now, r);
    } else if r.DoIssueGrant? || r.DoReleaseGrant? || r.DoConsumeGrant? {
      GrantRequestKills(s, now, r);
    } else if r.DoPrepare? {
      PrepareKills(s, now, r);
    } else if r.DoServeChunk? {
      ServeKills(s, now, r);
    } else {
      OthersKillNone(s, now, r);
    }
  }
}
