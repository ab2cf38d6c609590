/** What every request keeps: the invariant of the service's state, and how one state may evolve
    into the next. Each part of both is a predicate on the tables it is about, so that a change of
    one table leaves the other parts alone. */
module AuthInvariant {
  import opened Bytes
  import opened AuthModel
  import opened AuthTables
  import opened AuthHandlers

  // -------------------------------------------------------------- invariant --

  /** The device column is a unique index of the clients table. */
  ghost predicate IndexOk(clients: map<string, Client>, devices: map<string, string>)
  {
    && (forall id :: id in clients ==>
         && clients[id].clientId == id
         && clients[id].deviceId in devices && devices[clients[id].deviceId] == id)
    && (forall d :: d in devices ==> devices[d] in clients && clients[devices[d]].deviceId == d)
  }

  ghost predicate SessionsIn(sessions: map<string, Session>, clients: map<string, Client>)
  {
    forall k :: k in sessions ==>
      && sessions[k].sessionId == k && sessions[k].clientId in clients
      && clients[sessions[k].clientId].deviceId == sessions[k].deviceId
  }

  predicate Live(x: Session, now: time)
  {
    !x.revoked && x.exp > now
  }

  /** A client has at most one session that is neither revoked nor expired. */
  ghost predicate OneLive(sessions: map<string, Session>, now: time)
  {
    forall j, k | j in sessions && k in sessions && sessions[j].clientId == sessions[k].clientId
                  && Live(sessions[j], now) && Live(sessions[k], now) :: j == k
  }

  /** A signed grant is bound to a session of its client and device, for an artifact that its
      action may run, for at most two minutes; and while the session is not revoked, the client
      still has the version the grant names. */
  ghost predicate GrantIn(g: GrantClaims, sessions: map<string, Session>, clients: map<string, Client>, now: time)
  {
    && g.sessionId in sessions
    && sessions[g.sessionId].clientId == g.clientId && sessions[g.sessionId].deviceId == g.deviceId
    && g.clientId in clients && ArtifactAllows(g.artifactId, g.action)
    && g.iat <= now && g.exp <= g.iat + EXECUTION_GRANT_TTL_SECS
    && (!sessions[g.sessionId].revoked ==> clients[g.clientId].version == g.clientVersion)
  }

  ghost predicate GrantsIn(grants: set<GrantClaims>, sessions: map<string, Session>, clients: map<string, Client>,
      now: time)
  {
    && (forall g :: g in grants ==> GrantIn(g, sessions, clients, now))
    && (forall g, h :: g in grants && h in grants && g.jti == h.jti ==> g == h)
  }

  /** The receipt authorizes exactly what the grant does, later and for no longer. */
  predicate ReceiptOf(r: ReceiptClaims, g: GrantClaims)
  {
    && r.clientId == g.clientId && r.deviceId == g.deviceId && r.sessionId == g.sessionId
    && r.clientVersion == g.clientVersion && r.artifactId == g.artifactId && r.sha256 == g.sha256
    && r.action == g.action && r.vm == g.vm && r.instance == g.instance && r.grantJti == g.jti
    && g.iat <= r.iat < r.exp <= g.exp
  }

  /** A reservation made at `at` is still in the table, or too old to matter. */
  ghost predicate Held(nonces: map<string, time>, nonce: string, at: time, now: time)
  {
    (nonce in nonces && nonces[nonce] >= at) || at + NONCE_RETENTION_SECS < now
  }

  ghost predicate ReceiptIn(r: ReceiptClaims, grants: set<GrantClaims>, nonces: map<string, time>, now: time)
  {
    && (exists g :: g in grants && ReceiptOf(r, g))
    && r.iat <= now && Held(nonces, JtiReservation(r.grantJti), r.iat, now)
  }

  ghost predicate ReceiptsIn(receipts: set<ReceiptClaims>, grants: set<GrantClaims>, nonces: map<string, time>,
      now: time)
  {
    && (forall r :: r in receipts ==> ReceiptIn(r, grants, nonces, now))
    && (forall q, r :: q in receipts && r in receipts && q.grantJti == r.grantJti ==> q == r)
  }

  /** A published artifact is stored under its own identifier. */
  ghost predicate PublishedOk(artifacts: map<string, Artifact>)
  {
    forall id :: id in artifacts ==> artifacts[id].artifactId == id
  }

  ghost predicate ClientsOk(s: State)
  {
    IndexOk(s.clients, s.devices)
  }

  ghost predicate SessionsOk(s: State)
  {
    SessionsIn(s.sessions, s.clients)
  }

  ghost predicate OneLiveSession(s: State, now: time)
  {
    OneLive(s.sessions, now)
  }

  ghost predicate GrantOk(s: State, g: GrantClaims, now: time)
  {
    GrantIn(g, s.sessions, s.clients, now)
  }

  ghost predicate GrantsOk(s: State, now: time)
  {
    GrantsIn(s.signedGrants, s.sessions, s.clients, now)
  }

  ghost predicate ReceiptOk(s: State, r: ReceiptClaims, now: time)
  {
    ReceiptIn(r, s.signedGrants, s.nonces, now)
  }

  ghost predicate ReceiptsOk(s: State, now: time)
  {
    ReceiptsIn(s.signedReceipts, s.signedGrants, s.nonces, now)
  }

  ghost predicate ArtifactsOk(s: State)
  {
    PublishedOk(s.artifacts)
  }

  ghost predicate Inv(s: State, now: time)
  {
    && now >= 0 && ArtifactsOk(s) && ClientsOk(s) && SessionsOk(s) && OneLiveSession(s, now)
    && GrantsOk(s, now) && ReceiptsOk(s, now)
  }

  // --------------------------------------------------------------- evolution --

  /** A client's device and key never change, and its revocation is permanent. */
  predicate ClientEvolves(c: Client, d: Client)
  {
    && c.clientId == d.clientId && c.deviceId == d.deviceId && c.key == d.key && c.algorithm == d.algorithm
    && (c.revoked ==> d.revoked)
  }

  /** A session's binding and capabilities never change, its revocation is permanent, and once
      expired or revoked it is never extended. */
  predicate SessionEvolves(x: Session, y: Session, now: time)
  {
    && x.sessionId == y.sessionId && x.clientId == y.clientId && x.accountId == y.accountId
    && x.deviceId == y.deviceId && x.capabilities == y.capabilities
    && (x.revoked ==> y.revoked) && (!Live(x, now) ==> x.exp == y.exp)
  }

  ghost predicate ClientsEvolve(a: map<string, Client>, b: map<string, Client>)
  {
    forall id :: id in a ==> id in b && ClientEvolves(a[id], b[id])
  }

  ghost predicate SessionsEvolve(x: map<string, Session>, y: map<string, Session>, now: time)
  {
    forall k :: k in x ==> k in y && SessionEvolves(x[k], y[k], now)
  }

  /** A client's version changes only together with the revocation of all its sessions. */
  ghost predicate VersionsEvolve(x: map<string, Session>, a: map<string, Client>, y: map<string, Session>,
      b: map<string, Client>)
  {
    forall k | k in x && k in y && !y[k].revoked && x[k].clientId in a && x[k].clientId in b ::
      b[x[k].clientId].version == a[x[k].clientId].version
  }

  /** No reservation younger than the retention time is lost. */
  ghost predicate NoncesEvolve(a: map<string, time>, b: map<string, time>, now: time)
  {
    forall n :: n in a && a[n] >= SatSub(now, NONCE_RETENTION_SECS) ==> n in b && b[n] == a[n]
  }

  ghost predicate Evolves(s: State, t: State, now: time)
  {
    && ClientsEvolve(s.clients, t.clients) && SessionsEvolve(s.sessions, t.sessions, now)
    && VersionsEvolve(s.sessions, s.clients, t.sessions, t.clients) && NoncesEvolve(s.nonces, t.nonces, now)
    && s.signedGrants <= t.signedGrants && s.signedReceipts <= t.signedReceipts
  }

  /** One part of a request: the state evolves and the invariant is kept. */
  ghost predicate Keeps(s: State, t: State, now: time)
  {
    Evolves(s, t, now) && Inv(t, now)
  }

  lemma SessionsTransitive(x: map<string, Session>, y: map<string, Session>, z: map<string, Session>, now: time)
    requires SessionsEvolve(x, y, now) && SessionsEvolve(y, z, now)
    ensures SessionsEvolve(x, z, now)
  {
    forall k | k in x
      ensures k in z && SessionEvolves(x[k], z[k], now)
    {
      assert SessionEvolves(x[k], y[k], now) && SessionEvolves(y[k], z[k], now);
    }
  }

  lemma ClientsTransitive(a: map<string, Client>, b: map<string, Client>, c: map<string, Client>)
    requires ClientsEvolve(a, b) && ClientsEvolve(b, c)
    ensures ClientsEvolve(a, c)
  {
    forall id | id in a
      ensures id in c && ClientEvolves(a[id], c[id])
    {
      assert ClientEvolves(a[id], b[id]) && ClientEvolves(b[id], c[id]);
    }
  }

  lemma VersionsTransitive(s: State, t: State, u: State, now: time)
    requires SessionsIn(s.sessions, s.clients)
    requires ClientsEvolve(s.clients, t.clients)
    requires SessionsEvolve(s.sessions, t.sessions, now) && SessionsEvolve(t.sessions, u.sessions, now)
    requires VersionsEvolve(s.sessions, s.clients, t.sessions, t.clients)
    requires VersionsEvolve(t.sessions, t.clients, u.sessions, u.clients)
    ensures VersionsEvolve(s.sessions, s.clients, u.sessions, u.clients)
  {
    forall k | k in s.sessions && k in u.sessions && !u.sessions[k].revoked && s.sessions[k].clientId in u.clients
      ensures u.clients[s.sessions[k].clientId].version == s.clients[s.sessions[k].clientId].version
    {
      assert SessionEvolves(s.sessions[k], t.sessions[k], now) && SessionEvolves(t.sessions[k], u.sessions[k], now);
    }
  }

  lemma KeepsTransitive(s: State, t: State, u: State, now: time)
    requires Inv(s, now) && Keeps(s, t, now) && Keeps(t, u, now)
    ensures Keeps(s, u, now)
  {
    hide IndexOk, SessionsIn, OneLive, GrantsIn, ReceiptsIn, PublishedOk;
    hide ClientsEvolve, SessionsEvolve, VersionsEvolve;
    SessionsTransitive(s.sessions, t.sessions, u.sessions, now);
    ClientsTransitive(s.clients, t.clients, u.clients);
    VersionsTransitive(s, t, u, now);
  }

  lemma GrantsInTime(s: State, now: time, later: time)
    requires GrantsOk(s, now) && now <= later
    ensures GrantsOk(s, later)
  {
  }

  lemma ReceiptsInTime(s: State, now: time, later: time)
    requires ReceiptsOk(s, now) && now <= later
    ensures ReceiptsOk(s, later)
  {
    forall r | r in s.signedReceipts
      ensures ReceiptIn(r, s.signedGrants, s.nonces, later)
    {
      assert ReceiptIn(r, s.signedGrants, s.nonces, now);
    }
  }

  lemma OneLiveInTime(sessions: map<string, Session>, now: time, later: time)
    requires OneLive(sessions, now) && now <= later
    ensures OneLive(sessions, later)
  {
  }

  /** Waiting keeps the invariant. */
  lemma TimePasses(s: State, now: time, later: time)
    requires Inv(s, now) && now <= later
    ensures Inv(s, later)
  {
    hide GrantsOk, ReceiptsOk, OneLive, ClientsOk, SessionsOk, ArtifactsOk;
    GrantsInTime(s, now, later);
    ReceiptsInTime(s, now, later);
    OneLiveInTime(s.sessions, now, later);
  }

  // ------------------------------------------------- tables left as they are --

  lemma SameTables(s: State, now: time)
    ensures ClientsEvolve(s.clients, s.clients) && SessionsEvolve(s.sessions, s.sessions, now)
    ensures VersionsEvolve(s.sessions, s.clients, s.sessions, s.clients) && NoncesEvolve(s.nonces, s.nonces, now)
  {
  }

  predicate SameCore(s: State, t: State)
  {
    && s.clients == t.clients && s.devices == t.devices && s.nonces == t.nonces && s.sessions == t.sessions
    && s.signedGrants == t.signedGrants && s.signedReceipts == t.signedReceipts
    && s.artifacts == t.artifacts
  }

  /** Challenges, entitlements, transfers, device signatures and files are outside the invariant. */
  lemma SameCoreKeeps(s: State, t: State, now: time)
    requires Inv(s, now) && SameCore(s, t)
    ensures Keeps(s, t, now)
  {
    hide IndexOk, SessionsIn, OneLive, GrantsIn, ReceiptsIn, PublishedOk;
    hide ClientsEvolve, SessionsEvolve, VersionsEvolve, NoncesEvolve;
    SameTables(s, now);
  }

  lemma Published(artifacts: map<string, Artifact>, a: Artifact)
    requires PublishedOk(artifacts)
    ensures PublishedOk(artifacts[a.artifactId := a])
  {
  }

  lemma PublishKeeps(s: State, a: Artifact, now: time)
    requires Inv(s, now)
    ensures Keeps(s, s.(artifacts := s.artifacts[a.artifactId := a]), now)
  {
    hide IndexOk, SessionsIn, OneLive, GrantsIn, ReceiptsIn, PublishedOk;
    hide ClientsEvolve, SessionsEvolve, VersionsEvolve, NoncesEvolve;
    SameTables(s, now);
    Published(s.artifacts, a);
  }

  // ------------------------------------------------------ store operations --

  lemma NoncesTried(s: State, nonce: string, now: time, nonces: map<string, time>)
    requires nonces == NonceTried(s, nonce, now).nonces
    ensures NoncesEvolve(s.nonces, nonces, now)
  {
  }

  lemma ReceiptsTried(s: State, nonce: string, now: time, nonces: map<string, time>)
    requires ReceiptsOk(s, now) && NoncesEvolve(s.nonces, nonces, now) && now >= 0
    ensures ReceiptsIn(s.signedReceipts, s.signedGrants, nonces, now)
  {
    forall r | r in s.signedReceipts
      ensures ReceiptIn(r, s.signedGrants, nonces, now)
    {
      assert ReceiptIn(r, s.signedGrants, s.nonces, now);
    }
  }

  lemma NonceTriedKeeps(s: State, nonce: string, now: time)
    requires Inv(s, now)
    ensures Keeps(s, NonceTried(s, nonce, now), now)
  {
    hide NonceTried, IndexOk, SessionsIn, OneLive, GrantsIn, ReceiptsIn, PublishedOk;
    hide ClientsEvolve, SessionsEvolve, VersionsEvolve, NoncesEvolve;
    SameTables(s, now);
    NoncesTried(s, nonce, now, NonceTried(s, nonce, now).nonces);
    ReceiptsTried(s, nonce, now, NonceTried(s, nonce, now).nonces);
  }

  /** Grants survive any evolution of clients and sessions. */
  lemma GrantsCarry(s: State, t: State, now: time)
    requires GrantsOk(s, now) && t.signedGrants == s.signedGrants
    requires ClientsEvolve(s.clients, t.clients) && SessionsEvolve(s.sessions, t.sessions, now)
    requires VersionsEvolve(s.sessions, s.clients, t.sessions, t.clients)
    ensures GrantsOk(t, now)
  {
    forall g | g in t.signedGrants
      ensures GrantIn(g, t.sessions, t.clients, now)
    {
      assert GrantIn(g, s.sessions, s.clients, now);
      assert SessionEvolves(s.sessions[g.sessionId], t.sessions[g.sessionId], now);
    }
  }

  /** `y` is `x` with some sessions revoked. */
  ghost predicate Dying(x: map<string, Session>, y: map<string, Session>)
  {
    y.Keys == x.Keys && forall k :: k in x ==> y[k] == x[k] || y[k] == x[k].(revoked := true)
  }

  lemma DyingTables(s: State, y: map<string, Session>, now: time)
    requires Inv(s, now) && Dying(s.sessions, y)
    ensures SessionsEvolve(s.sessions, y, now) && VersionsEvolve(s.sessions, s.clients, y, s.clients)
    ensures SessionsIn(y, s.clients) && OneLive(y, now)
  {
    hide IndexOk, GrantsIn, ReceiptsIn, PublishedOk;
  }

  lemma SessionsOnlyDie(s: State, t: State, now: time)
    requires Inv(s, now) && t == s.(sessions := t.sessions) && Dying(s.sessions, t.sessions)
    ensures Keeps(s, t, now)
  {
    hide IndexOk, SessionsIn, OneLive, GrantsIn, ReceiptsIn, PublishedOk, Dying;
    hide ClientsEvolve, SessionsEvolve, VersionsEvolve, NoncesEvolve;
    SameTables(s, now);
    DyingTables(s, t.sessions, now);
    GrantsCarry(s, t, now);
  }

  lemma SessionRevokedKeeps(s: State, sessionId: string, now: time)
    requires Inv(s, now)
    ensures Keeps(s, SessionRevokedIn(s, sessionId), now)
  {
    hide Inv, Evolves;
    var t := SessionRevokedIn(s, sessionId);
    if sessionId in s.sessions {
      assert t.sessions.Keys == s.sessions.Keys;
      SessionsOnlyDie(s, t, now);
    } else {
      SameCoreKeeps(s, t, now);
    }
  }

  lemma RevokedSessionsDie(sessions: map<string, Session>, clientId: string, after: Option<time>)
    ensures Dying(sessions, RevokeSessions(sessions, clientId, after))
  {
    var y := RevokeSessions(sessions, clientId, after);
    forall k | k in sessions
      ensures y[k] == sessions[k] || y[k] == sessions[k].(revoked := true)
    {
      assert y[k] == Killed(sessions[k], clientId, after);
    }
  }

  lemma ActiveSessionsRevokedKeeps(s: State, clientId: string, now: time)
    requires Inv(s, now)
    ensures Keeps(s, ActiveSessionsRevoked(s, clientId, now), now)
  {
    RevokedSessionsDie(s.sessions, clientId, Some(now));
    hide Inv, Evolves, RevokeSessions, Dying;
    SessionsOnlyDie(s, ActiveSessionsRevoked(s, clientId, now), now);
  }

  lemma ChangedClientTables(s: State, id: string, d: Client, now: time)
    requires Inv(s, now) && id in s.clients && ClientEvolves(s.clients[id], d)
    requires d.version == s.clients[id].version
      || forall k :: k in s.sessions && s.sessions[k].clientId == id ==> s.sessions[k].revoked
    ensures var b := s.clients[id := d];
      && ClientsEvolve(s.clients, b) && VersionsEvolve(s.sessions, s.clients, s.sessions, b)
      && IndexOk(b, s.devices) && SessionsIn(s.sessions, b)
  {
    hide OneLive, GrantsIn, ReceiptsIn, PublishedOk;
  }

  /** Changing one client, all of whose sessions are revoked if its version changes. */
  lemma ClientChangeKeeps(s: State, id: string, d: Client, now: time)
    requires Inv(s, now) && id in s.clients && ClientEvolves(s.clients[id], d)
    requires d.version == s.clients[id].version
      || forall k :: k in s.sessions && s.sessions[k].clientId == id ==> s.sessions[k].revoked
    ensures Keeps(s, s.(clients := s.clients[id := d]), now)
  {
    hide IndexOk, SessionsIn, OneLive, GrantsIn, ReceiptsIn, PublishedOk, ClientEvolves;
    hide ClientsEvolve, SessionsEvolve, VersionsEvolve, NoncesEvolve;
    SameTables(s, now);
    ChangedClientTables(s, id, d, now);
    GrantsCarry(s, s.(clients := s.clients[id := d]), now);
  }

  lemma AllRevoked(sessions: map<string, Session>, id: string, killed: map<string, Session>)
    requires killed == RevokeSessions(sessions, id, None)
    ensures forall k :: k in killed && killed[k].clientId == id ==> killed[k].revoked
  {
    forall k | k in killed && killed[k].clientId == id
      ensures killed[k].revoked
    {
      assert killed[k] == Killed(sessions[k], id, None);
    }
  }

  /** Revoking all sessions of a client, and then changing the client. */
  lemma RevokeAndChangeKeeps(s: State, id: string, d: Client, now: time)
    requires Inv(s, now) && id in s.clients && ClientEvolves(s.clients[id], d)
    ensures Keeps(s, s.(sessions := RevokeSessions(s.sessions, id, None), clients := s.clients[id := d]), now)
  {
    var killed := RevokeSessions(s.sessions, id, None);
    var t := s.(sessions := killed);
    RevokedSessionsDie(s.sessions, id, None);
    AllRevoked(s.sessions, id, killed);
    hide Inv, Evolves, RevokeSessions, Dying, ClientEvolves;
    SessionsOnlyDie(s, t, now);
    ClientChangeKeeps(t, id, d, now);
    KeepsTransitive(s, t, t.(clients := t.clients[id := d]), now);
  }

  lemma RevokeAllKeeps(s: State, id: string, now: time)
    requires Inv(s, now)
    ensures Keeps(s, s.(sessions := RevokeSessions(s.sessions, id, None)), now)
  {
    RevokedSessionsDie(s.sessions, id, None);
    hide Inv, Evolves, RevokeSessions, Dying;
    SessionsOnlyDie(s, s.(sessions := RevokeSessions(s.sessions, id, None)), now);
  }

  lemma RegistrationUpdatedKeeps(s: State, id: string, version: string, now: time)
    requires Inv(s, now)
    ensures Keeps(s, RegistrationUpdated(s, id, version), now)
  {
    hide Inv, Evolves, RevokeSessions;
    RevokeAllKeeps(s, id, now);
    if id in s.clients && !s.clients[id].revoked {
      RevokeAndChangeKeeps(s, id, s.clients[id].(version := version), now);
    }
  }

  lemma ClientRevokedKeeps(s: State, id: string, now: time)
    requires Inv(s, now)
    ensures Keeps(s, ClientRevokedIn(s, id), now)
  {
    hide Inv, Evolves, RevokeSessions;
    RevokeAllKeeps(s, id, now);
    if id in s.clients {
      RevokeAndChangeKeeps(s, id, s.clients[id].(revoked := true), now);
    }
  }

  lemma NewClientTables(s: State, c: Client, now: time)
    requires Inv(s, now) && c.clientId !in s.clients && c.deviceId !in s.devices
    ensures var b := s.clients[c.clientId := c];
      && ClientsEvolve(s.clients, b) && VersionsEvolve(s.sessions, s.clients, s.sessions, b)
      && IndexOk(b, s.devices[c.deviceId := c.clientId]) && SessionsIn(s.sessions, b)
  {
    hide OneLive, GrantsIn, ReceiptsIn, PublishedOk;
  }

  lemma NewClientKeeps(s: State, c: Client, now: time, t: State)
    requires Inv(s, now) && c.clientId !in s.clients && c.deviceId !in s.devices
    requires t == s.(clients := s.clients[c.clientId := c], devices := s.devices[c.deviceId := c.clientId])
    ensures Keeps(s, t, now)
  {
    hide IndexOk, SessionsIn, OneLive, GrantsIn, ReceiptsIn, PublishedOk;
    hide ClientsEvolve, SessionsEvolve, VersionsEvolve, NoncesEvolve;
    SameTables(s, now);
    NewClientTables(s, c, now);
    GrantsCarry(s, t, now);
  }

  /** A session that is new, or the live one renewed, when no other session of the client is live. */
  ghost predicate Storable(s: State, x: Session, now: time)
  {
    && x.clientId in s.clients && s.clients[x.clientId].deviceId == x.deviceId
    && (x.sessionId in s.sessions ==>
         Live(s.sessions[x.sessionId], now) && SessionEvolves(s.sessions[x.sessionId], x, now))
    && forall k :: k in s.sessions && s.sessions[k].clientId == x.clientId && Live(s.sessions[k], now) ==>
      k == x.sessionId
  }

  lemma StoredSessionTables(s: State, x: Session, now: time)
    requires Inv(s, now) && Storable(s, x, now)
    ensures var y := s.sessions[x.sessionId := x];
      && SessionsEvolve(s.sessions, y, now) && VersionsEvolve(s.sessions, s.clients, y, s.clients)
      && SessionsIn(y, s.clients) && OneLive(y, now)
  {
    hide IndexOk, GrantsIn, ReceiptsIn, PublishedOk;
  }

  lemma StoredSessionKeeps(s: State, x: Session, now: time)
    requires Inv(s, now) && Storable(s, x, now)
    ensures Keeps(s, s.(sessions := s.sessions[x.sessionId := x]), now)
  {
    hide IndexOk, SessionsIn, OneLive, GrantsIn, ReceiptsIn, PublishedOk, Storable;
    hide ClientsEvolve, SessionsEvolve, VersionsEvolve, NoncesEvolve;
    SameTables(s, now);
    StoredSessionTables(s, x, now);
    GrantsCarry(s, s.(sessions := s.sessions[x.sessionId := x]), now);
  }

  lemma GrantsGrow(s: State, g: GrantClaims, now: time)
    requires GrantsOk(s, now) && GrantOk(s, g, now)
    requires forall h :: h in s.signedGrants ==> h.jti != g.jti
    ensures GrantsIn(s.signedGrants + {g}, s.sessions, s.clients, now)
  {
    hide GrantIn;
  }

  lemma ReceiptsUnderGrants(s: State, grants: set<GrantClaims>, now: time)
    requires ReceiptsOk(s, now) && s.signedGrants <= grants
    ensures ReceiptsIn(s.signedReceipts, grants, s.nonces, now)
  {
    forall r | r in s.signedReceipts
      ensures ReceiptIn(r, grants, s.nonces, now)
    {
      assert ReceiptIn(r, s.signedGrants, s.nonces, now);
    }
  }

  lemma SignedGrantKeeps(s: State, g: GrantClaims, now: time)
    requires Inv(s, now) && GrantOk(s, g, now)
    requires forall h :: h in s.signedGrants ==> h.jti != g.jti
    ensures Keeps(s, s.(signedGrants := s.signedGrants + {g}), now)
  {
    hide IndexOk, SessionsIn, OneLive, GrantsIn, ReceiptsIn, PublishedOk, GrantOk;
    hide ClientsEvolve, SessionsEvolve, VersionsEvolve, NoncesEvolve;
    SameTables(s, now);
    GrantsGrow(s, g, now);
    ReceiptsUnderGrants(s, s.signedGrants + {g}, now);
  }

  /** A fresh reservation means that the grant has no receipt yet. */
  lemma NoReceiptYet(s: State, g: GrantClaims, q: ReceiptClaims, now: time)
    requires Inv(s, now) && g in s.signedGrants && now < g.exp
    requires NonceFree(s, JtiReservation(g.jti), now)
    requires q in s.signedReceipts
    ensures q.grantJti != g.jti
  {
    hide IndexOk, SessionsIn, OneLive, PublishedOk;
    assert ReceiptIn(q, s.signedGrants, s.nonces, now) && GrantIn(g, s.sessions, s.clients, now);
    var h :| h in s.signedGrants && ReceiptOf(q, h);
    assert q.grantJti == g.jti ==> h == g;
    assert Held(s.nonces, JtiReservation(q.grantJti), q.iat, now);
  }

  lemma SignedReceiptKeeps(s: State, g: GrantClaims, now: time)
    requires Inv(s, now) && g in s.signedGrants && now < g.exp
    requires NonceFree(s, JtiReservation(g.jti), now)
    ensures var t := NonceTried(s, JtiReservation(g.jti), now);
      Keeps(s, t.(signedReceipts := t.signedReceipts + {Receipt(g, now)}), now)
  {
    var t := NonceTried(s, JtiReservation(g.jti), now);
    assert JtiReservation(g.jti) in t.nonces && t.nonces[JtiReservation(g.jti)] == now;
    hide Inv, Evolves, NonceTried, NonceFree, Receipt;
    NonceTriedKeeps(s, JtiReservation(g.jti), now);
    forall q | q in s.signedReceipts
      ensures q.grantJti != g.jti
    {
      NoReceiptYet(s, g, q, now);
    }
    AddedReceiptKeeps(t, g, now);
    KeepsTransitive(s, t, t.(signedReceipts := t.signedReceipts + {Receipt(g, now)}), now);
  }

  lemma NewReceiptIn(t: State, g: GrantClaims, now: time)
    requires GrantsOk(t, now) && g in t.signedGrants && now < g.exp && now >= 0
    requires JtiReservation(g.jti) in t.nonces && t.nonces[JtiReservation(g.jti)] >= now
    ensures ReceiptIn(Receipt(g, now), t.signedGrants, t.nonces, now)
  {
    assert GrantIn(g, t.sessions, t.clients, now);
    assert ReceiptOf(Receipt(g, now), g);
  }

  lemma ReceiptsGrow(t: State, q: ReceiptClaims, now: time)
    requires ReceiptsOk(t, now) && ReceiptIn(q, t.signedGrants, t.nonces, now)
    requires forall r :: r in t.signedReceipts ==> r.grantJti != q.grantJti
    ensures ReceiptsIn(t.signedReceipts + {q}, t.signedGrants, t.nonces, now)
  {
    hide ReceiptIn;
  }

  lemma AddedReceiptKeeps(t: State, g: GrantClaims, now: time)
    requires Inv(t, now) && g in t.signedGrants && now < g.exp
    requires JtiReservation(g.jti) in t.nonces && t.nonces[JtiReservation(g.jti)] >= now
    requires forall q :: q in t.signedReceipts ==> q.grantJti != g.jti
    ensures Keeps(t, t.(signedReceipts := t.signedReceipts + {Receipt(g, now)}), now)
  {
    hide IndexOk, SessionsIn, OneLive, GrantsIn, ReceiptsIn, ReceiptIn, PublishedOk;
    hide ClientsEvolve, SessionsEvolve, VersionsEvolve, NoncesEvolve;
    SameTables(t, now);
    NewReceiptIn(t, g, now);
    assert Receipt(g, now).grantJti == g.jti;
    ReceiptsGrow(t, Receipt(g, now), now);
  }
}
