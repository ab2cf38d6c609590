/** Every request, whoever sends it, keeps the invariant and lets the state only evolve. */
module AuthSteps {
  import opened Bytes
  import opened AuthModel
  import opened AuthTables
  import opened AuthHandlers
  import opened AuthInvariant

  /** UUIDs are fresh, and a random nonce prefix has eight bytes. */
  ghost predicate DrawsFresh(s: State, r: Request)
  {
    match r
    case DoRegister(_, id, _) => id !in s.clients
    case DoCreateSession(_, id, _) => id !in s.sessions
    case DoIssueGrant(_, _, jti) => forall g :: g in s.signedGrants ==> g.jti != jti
    case DoPrepare(_, _, _, _, id, prefix) => id !in s.transfers && |prefix| == 8
    case _ => true
  }

  /** The pending client of an unknown device. */
  function Pending(r: RegisterRequest, id: string): (c: Client)
  {
    Client(id, "pending:" + id, r.deviceId, r.key, r.algorithm, r.version, false, false)
  }

  lemma RegisterShape(s: State, now: time, r: RegisterRequest, id: string, challenge: string)
    ensures var t := Register(s, now, r, id, challenge).0;
      SameCore(s, t) || (ClientByDevice(s, r.deviceId).None? && SameCore(WithClient(s, Pending(r, id)), t))
  {
  }

  lemma UnknownDevice(s: State, deviceId: string)
    requires ClientsOk(s) && ClientByDevice(s, deviceId).None?
    ensures deviceId !in s.devices
  {
  }

  lemma RegisterKeeps(s: State, now: time, r: RegisterRequest, id: string, challenge: string, t: State)
    requires Inv(s, now) && id !in s.clients && t == Register(s, now, r, id, challenge).0
    ensures Keeps(s, t, now)
  {
    hide Evolves, Register, SameCore, IndexOk, SessionsIn, OneLive, GrantsIn, ReceiptsIn, PublishedOk;
    var c := Pending(r, id);
    RegisterShape(s, now, r, id, challenge);
    if SameCore(s, t) {
      SameCoreKeeps(s, t, now);
    } else {
      UnknownDevice(s, r.deviceId);
      NewClientKeeps(s, c, now, WithClient(s, c));
      ThenSameCore(s, WithClient(s, c), t, now);
    }
  }

  lemma ThenSameCore(s: State, t: State, u: State, now: time)
    requires Inv(s, now) && Keeps(s, t, now) && SameCore(t, u)
    ensures Keeps(s, u, now)
  {
    hide Inv, Evolves, SameCore;
    SameCoreKeeps(t, u, now);
    KeepsTransitive(s, t, u, now);
  }

  lemma CompleteShape(s: State, now: time, id: string, challenge: string, signature: string)
    ensures var t := Complete(s, now, id, challenge, signature).0;
      t == s || exists version :: t == RegistrationUpdated(s.(challenges := s.challenges - {id}), id, version)
  {
  }

  lemma CompleteKeeps(s: State, now: time, id: string, challenge: string, signature: string, t: State)
    requires Inv(s, now) && t == Complete(s, now, id, challenge, signature).0
    ensures Keeps(s, t, now)
  {
    hide Inv, Evolves, Complete, RegistrationUpdated;
    CompleteShape(s, now, id, challenge, signature);
    if t == s {
      SameCoreKeeps(s, t, now);
    } else {
      var u := s.(challenges := s.challenges - {id});
      var version :| t == RegistrationUpdated(u, id, version);
      SameCoreKeeps(s, u, now);
      RegistrationUpdatedKeeps(u, id, version, now);
      KeepsTransitive(s, u, t, now);
    }
  }

  lemma CreateSessionShape(s: State, now: time, r: SessionRequest, id: string, jti: string, t: State)
    requires t == NonceTried(s, r.nonce, now)
    ensures var v := CreateSession(s, now, r, id, jti).0;
      || v == s || v == t
      || (&& r.clientId in s.clients
          && var c := s.clients[r.clientId];
          var u := ActiveSessionsRevoked(t, c.clientId, now);
          && v == u.(sessions := u.sessions[id := Session(id, c.clientId, c.accountId, c.deviceId, r.capabilities, jti,
               SatAdd(now, LEASE_MAX_SECS), false)]))
  {
  }

  /** A new session for a client whose other sessions have just been revoked. */
  lemma NewSessionKeeps(s: State, x: Session, now: time)
    requires Inv(s, now) && x.sessionId !in s.sessions
    requires x.clientId in s.clients && s.clients[x.clientId].deviceId == x.deviceId
    ensures var u := ActiveSessionsRevoked(s, x.clientId, now);
      Keeps(s, u.(sessions := u.sessions[x.sessionId := x]), now)
  {
    var u := ActiveSessionsRevoked(s, x.clientId, now);
    ActiveSessionsRevokedKeeps(s, x.clientId, now);
    StoredSessionKeeps(u, x, now);
    KeepsTransitive(s, u, u.(sessions := u.sessions[x.sessionId := x]), now);
  }

  lemma CreateSessionKeeps(s: State, now: time, r: SessionRequest, id: string, jti: string, v: State)
    requires Inv(s, now) && id !in s.sessions && v == CreateSession(s, now, r, id, jti).0
    ensures Keeps(s, v, now)
  {
    hide Evolves, CreateSession, NonceTried, OneLive, GrantsIn, ReceiptsIn, PublishedOk;
    var t := NonceTried(s, r.nonce, now);
    CreateSessionShape(s, now, r, id, jti, t);
    NonceTriedKeeps(s, r.nonce, now);
    if v == s {
      SameCoreKeeps(s, s, now);
    } else if v != t {
      var c := s.clients[r.clientId];
      NewSessionKeeps(t, v.sessions[id], now);
      KeepsTransitive(s, t, v, now);
    }
  }

  lemma FromHeadersShape(s: State, header: Option<string>, now: time)
    ensures var (t, found) := SessionFromHeaders(s, header, now);
      t == s || exists id :: t == SessionRevokedIn(s, id)
  {
  }

  lemma FromHeadersKeeps(s: State, header: Option<string>, now: time, t: State)
    requires Inv(s, now) && t == SessionFromHeaders(s, header, now).0
    ensures Keeps(s, t, now)
  {
    hide Inv, Evolves, SessionFromHeaders, SessionRevokedIn;
    FromHeadersShape(s, header, now);
    if t == s {
      SameCoreKeeps(s, s, now);
    } else {
      var id :| t == SessionRevokedIn(s, id);
      SessionRevokedKeeps(s, id, now);
    }
  }

  lemma HeartbeatShape(s: State, now: time, id: string, r: HeartbeatRequest, jti: string, t: State)
    requires t == NonceTried(s, r.nonce, now)
    ensures var v := Heartbeat(s, now, id, r, jti).0;
      || v == s || v == t || v == SessionRevokedIn(t, id)
      || (&& id in s.sessions && Live(s.sessions[id], now) && s.sessions[id].clientId in s.clients
          && v == t.(sessions := t.sessions[id := s.sessions[id].(jti := jti, exp := SatAdd(now, LEASE_MAX_SECS))]))
  {
  }

  lemma RenewalKeeps(s: State, id: string, jti: string, exp: time, now: time)
    requires Inv(s, now) && id in s.sessions && Live(s.sessions[id], now)
    ensures Keeps(s, s.(sessions := s.sessions[id := s.sessions[id].(jti := jti, exp := exp)]), now)
  {
    hide Evolves, IndexOk, GrantsIn, ReceiptsIn, PublishedOk;
    StoredSessionKeeps(s, s.sessions[id].(jti := jti, exp := exp), now);
  }

  lemma HeartbeatKeeps(s: State, now: time, id: string, r: HeartbeatRequest, jti: string, v: State)
    requires Inv(s, now) && v == Heartbeat(s, now, id, r, jti).0
    ensures Keeps(s, v, now)
  {
    hide Inv, Evolves, Heartbeat, NonceTried, SessionRevokedIn;
    var t := NonceTried(s, r.nonce, now);
    HeartbeatShape(s, now, id, r, jti, t);
    NonceTriedKeeps(s, r.nonce, now);
    if v == s {
      SameCoreKeeps(s, s, now);
    } else if v == SessionRevokedIn(t, id) {
      SessionRevokedKeeps(t, id, now);
      KeepsTransitive(s, t, v, now);
    } else if v != t {
      RenewalKeeps(t, id, jti, SatAdd(now, LEASE_MAX_SECS), now);
      KeepsTransitive(s, t, v, now);
    }
  }

  lemma CloseShape(s: State, now: time, header: Option<string>, id: string)
    ensures var t := SessionFromHeaders(s, header, now).0;
      var v := CloseSession(s, now, header, id).0;
      v == t || v == SessionRevokedIn(t, id)
  {
  }

  lemma CloseKeeps(s: State, now: time, header: Option<string>, id: string, v: State)
    requires Inv(s, now) && v == CloseSession(s, now, header, id).0
    ensures Keeps(s, v, now)
  {
    hide Inv, Evolves, CloseSession, SessionFromHeaders, SessionRevokedIn;
    var t := SessionFromHeaders(s, header, now).0;
    CloseShape(s, now, header, id);
    FromHeadersKeeps(s, header, now, t);
    if v != t {
      SessionRevokedKeeps(t, id, now);
      KeepsTransitive(s, t, v, now);
    }
  }

  /** What a live session found from headers guarantees. */
  ghost predicate Authorized(s: State, session: Session, now: time)
  {
    && session.sessionId in s.sessions && s.sessions[session.sessionId] == session && Live(session, now)
    && session.clientId in s.clients && Unusable(s.clients[session.clientId], session.deviceId).None?
    && AllEntitled(s, s.clients[session.clientId].accountId, session.capabilities)
  }

  lemma FromHeadersAuthorizes(s: State, header: Option<string>, now: time)
    requires Inv(s, now)
    ensures var (t, found) := SessionFromHeaders(s, header, now);
      found.Ok? ==> t == s && Authorized(s, found.value, now)
  {
  }

  lemma SignGrantKeeps(s: State, now: time, session: Session, r: GrantRequest, sha256: string, jti: string)
    requires Inv(s, now) && Authorized(s, session, now) && ArtifactAllows(r.artifactId, r.action)
    requires forall g :: g in s.signedGrants ==> g.jti != jti
    ensures Keeps(s, SignGrant(s, now, session, s.clients[session.clientId], r, sha256, jti).0, now)
  {
    var (v, o) := SignGrant(s, now, session, s.clients[session.clientId], r, sha256, jti);
    var t := NonceTried(s, r.nonce, now);
    NonceTriedKeeps(s, r.nonce, now);
    if o.reply.GrantIssued? {
      SignedGrantKeeps(t, o.reply.grant, now);
      KeepsTransitive(s, t, v, now);
    }
  }

  lemma IssueGrantShape(s: State, now: time, header: Option<string>, r: GrantRequest, jti: string)
    requires ArtifactsOk(s)
    ensures var (t, found) := SessionFromHeaders(s, header, now);
      var v := IssueGrant(s, now, header, r, jti).0;
      v == t || (found.Ok? && found.value.clientId in t.clients && ArtifactAllows(r.artifactId, r.action)
        && exists sha256 :: v == SignGrant(t, now, found.value, t.clients[found.value.clientId], r, sha256, jti).0)
  {
  }

  lemma IssueGrantKeeps(s: State, now: time, header: Option<string>, r: GrantRequest, jti: string, v: State)
    requires Inv(s, now) && forall g :: g in s.signedGrants ==> g.jti != jti
    requires v == IssueGrant(s, now, header, r, jti).0
    ensures Keeps(s, v, now)
  {
    hide Evolves, IssueGrant, SignGrant, SessionFromHeaders, IndexOk, SessionsIn, OneLive, GrantsIn, ReceiptsIn;
    var (t, found) := SessionFromHeaders(s, header, now);
    IssueGrantShape(s, now, header, r, jti);
    FromHeadersKeeps(s, header, now, t);
    if v != t {
      FromHeadersAuthorizes(s, header, now);
      var sha256 :| v == SignGrant(t, now, found.value, t.clients[found.value.clientId], r, sha256, jti).0;
      SignGrantKeeps(s, now, found.value, r, sha256, jti);
    }
  }

  lemma ValidateGrantShape(s: State, p: PresentedGrant, now: time)
    ensures var (t, checked) := ValidateGrant(s, p, now);
      && (t == s || exists id :: t == SessionRevokedIn(s, id))
      && (checked.Ok? ==> t == s && p.claims in s.signedGrants && now < p.claims.exp)
  {
  }

  lemma ValidateGrantKeeps(s: State, p: PresentedGrant, now: time, t: State)
    requires Inv(s, now) && t == ValidateGrant(s, p, now).0
    ensures Keeps(s, t, now)
  {
    hide Inv, Evolves, ValidateGrant, SessionRevokedIn;
    ValidateGrantShape(s, p, now);
    if t == s {
      SameCoreKeeps(s, s, now);
    } else {
      var id :| t == SessionRevokedIn(s, id);
      SessionRevokedKeeps(s, id, now);
    }
  }

  lemma ConsumeGrantShape(s: State, now: time, p: PresentedGrant, u: State)
    requires u == NonceTried(s, JtiReservation(p.claims.jti), now)
    ensures var (t, checked) := ValidateGrant(s, p, now);
      var v := ConsumeGrant(s, now, p).0;
      || v == t || (t == s && v == u)
      || (&& t == s && p.claims in s.signedGrants && now < p.claims.exp
          && NonceFree(s, JtiReservation(p.claims.jti), now)
          && v == u.(signedReceipts := u.signedReceipts + {Receipt(p.claims, now)}))
  {
    ValidateGrantShape(s, p, now);
  }

  lemma ConsumeGrantKeeps(s: State, now: time, p: PresentedGrant, v: State)
    requires Inv(s, now) && v == ConsumeGrant(s, now, p).0
    ensures Keeps(s, v, now)
  {
    hide Inv, Evolves, ConsumeGrant, ValidateGrant, NonceTried, Receipt;
    var t := ValidateGrant(s, p, now).0;
    var u := NonceTried(s, JtiReservation(p.claims.jti), now);
    ConsumeGrantShape(s, now, p, u);
    ValidateGrantKeeps(s, p, now, t);
    if v != t {
      NonceTriedKeeps(s, JtiReservation(p.claims.jti), now);
      if v != u {
        SignedReceiptKeeps(s, p.claims, now);
      }
    }
  }

  lemma PrepareShape(s: State, now: time, later: time, header: Option<string>, id: string, r: PrepareRequest,
      transfer: string, prefix: seq<byte>)
    ensures SameCore(SessionFromHeaders(s, header, now).0,
      PrepareArtifact(s, now, later, header, id, r, transfer, prefix).0)
  {
  }

  lemma ServeChunkShape(s: State, now: time, header: Option<string>, id: string, transfer: string, index: dword)
    ensures SameCore(SessionFromHeaders(s, header, now).0, ServeChunk(s, now, header, id, transfer, index).0)
  {
  }

  /** Requests about transfers touch the invariant through the session lookup only. */
  lemma LookupKeeps(s: State, now: time, header: Option<string>, v: State)
    requires Inv(s, now) && SameCore(SessionFromHeaders(s, header, now).0, v)
    ensures Keeps(s, v, now)
  {
    hide Inv, Evolves, SessionFromHeaders, SameCore;
    var t := SessionFromHeaders(s, header, now).0;
    FromHeadersKeeps(s, header, now, t);
    ThenSameCore(s, t, v, now);
  }

  lemma ApproveKeeps(s: State, now: time, id: string, accountId: string)
    requires Inv(s, now) && id in s.clients
    ensures Keeps(s, s.(clients := s.clients[id := s.clients[id].(accountId := accountId, approved := true)]), now)
  {
    hide Inv, Evolves;
    ClientChangeKeeps(s, id, s.clients[id].(accountId := accountId, approved := true), now);
  }

  lemma OperateApproveKeeps(s: State, now: time, id: string, account: Option<string>, t: State)
    requires Inv(s, now)
    requires t == Operate(s, match account case None => DoApprove(id) case Some(a) => DoApproveForAccount(id, a))
    ensures Keeps(s, t, now)
  {
    hide Inv, Evolves;
    if id in s.clients {
      ApproveKeeps(s, now, id, if account.Some? then account.value else s.clients[id].accountId);
    } else {
      SameCoreKeeps(s, t, now);
    }
  }

  lemma OperateKeeps(s: State, now: time, r: Request, t: State)
    requires Inv(s, now)
    requires r.DoApprove? || r.DoApproveForAccount? || r.DoRevokeClient? || r.DoGrantEntitlement?
          || r.DoRevokeEntitlement? || r.DoPublish? || r.DeviceSigns? || r.FileChanges?
    requires t == Operate(s, r)
    ensures Keeps(s, t, now)
  {
    hide Inv, Evolves, ClientRevokedIn;
    match r
    case DoRevokeClient(id) => ClientRevokedKeeps(s, id, now);
    case DoApprove(id) => OperateApproveKeeps(s, now, id, None, t);
    case DoApproveForAccount(id, account) => OperateApproveKeeps(s, now, id, Some(account), t);
    case DoPublish(a) => PublishKeeps(s, a, now);
    case _ => SameCoreKeeps(s, t, now);
  }

  lemma PrepareKeeps(s: State, now: time, r: Request, t: State)
    requires Inv(s, now) && r.DoPrepare? && t == Handle(s, now, r).0
    ensures Keeps(s, t, now)
  {
    hide Inv, Evolves, PrepareArtifact, SessionFromHeaders, SameCore;
    PrepareShape(s, now, r.later, r.header, r.artifactId, r.prepare, r.freshTransfer, r.noncePrefix);
    LookupKeeps(s, now, r.header, t);
  }

  lemma ServeChunkKeeps(s: State, now: time, r: Request, t: State)
    requires Inv(s, now) && r.DoServeChunk? && t == Handle(s, now, r).0
    ensures Keeps(s, t, now)
  {
    hide Inv, Evolves, ServeChunk, SessionFromHeaders, SameCore;
    ServeChunkShape(s, now, r.header, r.artifactId, r.transferId, r.index);
    LookupKeeps(s, now, r.header, t);
  }

  lemma ListKeeps(s: State, now: time, header: Option<string>, t: State)
    requires Inv(s, now) && t == ListCapabilities(s, now, header).0
    ensures Keeps(s, t, now)
  {
    hide Inv, Evolves, SessionFromHeaders;
    FromHeadersKeeps(s, header, now, t);
  }

  lemma ReleaseKeeps(s: State, now: time, p: PresentedGrant, again: Reread, t: State)
    requires Inv(s, now) && t == ReleaseGrant(s, now, p, again).0
    ensures Keeps(s, t, now)
  {
    hide Inv, Evolves, ValidateGrant, ReleaseContents;
    ValidateGrantKeeps(s, p, now, t);
  }

  lemma RegistrationKeeps(s: State, now: time, r: Request, t: State)
    requires Inv(s, now) && DrawsFresh(s, r) && (r.DoRegister? || r.DoComplete?) && t == Handle(s, now, r).0
    ensures Keeps(s, t, now)
  {
    hide Inv, Keeps, Register, Complete;
    match r
    case DoRegister(q, id, challenge) => RegisterKeeps(s, now, q, id, challenge, t);
    case DoComplete(id, challenge, signature) => CompleteKeeps(s, now, id, challenge, signature, t);
  }

  lemma SessionRequestKeeps(s: State, now: time, r: Request, t: State)
    requires Inv(s, now) && DrawsFresh(s, r) && t == Handle(s, now, r).0
    requires r.DoCreateSession? || r.DoListCapabilities? || r.DoHeartbeat? || r.DoCloseSession?
    ensures Keeps(s, t, now)
  {
    hide Inv, Keeps, CreateSession, ListCapabilities, Heartbeat, CloseSession;
    match r
    case DoCreateSession(q, id, jti) => CreateSessionKeeps(s, now, q, id, jti, t);
    case DoListCapabilities(header) => ListKeeps(s, now, header, t);
    case DoHeartbeat(id, q, jti) => HeartbeatKeeps(s, now, id, q, jti, t);
    case DoCloseSession(header, id) => CloseKeeps(s, now, header, id, t);
  }

  lemma GrantRequestKeeps(s: State, now: time, r: Request, t: State)
    requires Inv(s, now) && DrawsFresh(s, r) && t == Handle(s, now, r).0
    requires r.DoIssueGrant? || r.DoReleaseGrant? || r.DoConsumeGrant?
    ensures Keeps(s, t, now)
  {
    hide Inv, Keeps, IssueGrant, ReleaseGrant, ConsumeGrant;
    match r
    case DoIssueGrant(header, q, jti) => IssueGrantKeeps(s, now, header, q, jti, t);
    case DoReleaseGrant(p, again) => ReleaseKeeps(s, now, p, again, t);
    case DoConsumeGrant(p) => ConsumeGrantKeeps(s, now, p, t);
  }

  lemma OperationKeeps(s: State, now: time, r: Request, t: State)
    requires Inv(s, now) && t == Handle(s, now, r).0
    requires r.DoApprove? || r.DoApproveForAccount? || r.DoRevokeClient? || r.DoGrantEntitlement?
          || r.DoRevokeEntitlement? || r.DoPublish? || r.DeviceSigns? || r.FileChanges?
    ensures Keeps(s, t, now)
  {
    hide Inv, Keeps, Operate;
    OperateKeeps(s, now, r, t);
  }

  /** Every request keeps the invariant, and the state only evolves. */
  lemma HandleKeeps(s: State, now: time, r: Request)
    requires Inv(s, now) && DrawsFresh(s, r)
    ensures Keeps(s, Handle(s, now, r).0, now)
  {
    hide Inv, Keeps, Handle;
    var t := Handle(s, now, r).0;
    if r.DoRegister? || r.DoComplete? {
      RegistrationKeeps(s, now, r, t);
    } else if r.DoCreateSession? || r.DoListCapabilities? || r.DoHeartbeat? || r.DoCloseSession? {
      SessionRequestKeeps(s, now, r, t);
    } else if r.DoIssueGrant? || r.DoReleaseGrant? || r.DoConsumeGrant? {
      GrantRequestKeeps(s, now, r, t);
    } else if r.DoPrepare? {
      PrepareKeeps(s, now, r, t);
    } else if r.DoServeChunk? {
      ServeChunkKeeps(s, now, r, t);
    } else {
      OperationKeeps(s, now, r, t);
    }
  }
}
