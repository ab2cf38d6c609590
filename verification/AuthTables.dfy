/** The store's operations on its tables. */
module AuthTables {
  import opened Bytes
  import opened AuthModel

  function ClientOf(s: State, clientId: string): (r: Option<Client>)
  {
    if clientId in s.clients then Some(s.clients[clientId]) else None
  }

  function ClientByDevice(s: State, deviceId: string): (r: Option<Client>)
  {
    if deviceId in s.devices && s.devices[deviceId] in s.clients then Some(s.clients[s.devices[deviceId]]) else None
  }

  function SessionOf(s: State, sessionId: string): (r: Option<Session>)
  {
    if sessionId in s.sessions then Some(s.sessions[sessionId]) else None
  }

  function ArtifactOf(s: State, artifactId: string): (r: Option<Artifact>)
  {
    if artifactId in s.artifacts then Some(s.artifacts[artifactId]) else None
  }

  predicate Entitled(s: State, accountId: string, c: Capability)
  {
    (accountId, c) in s.entitlements && s.entitlements[(accountId, c)]
  }

  predicate AllEntitled(s: State, accountId: string, cs: seq<Capability>)
  {
    forall i :: 0 <= i < |cs| ==> Entitled(s, accountId, cs[i])
  }

  /** Entries that survive the pruning at `now`. */
  function Unpruned(nonces: map<string, time>, now: time): (r: map<string, time>)
  {
    map n | n in nonces && nonces[n] >= SatSub(now, NONCE_RETENTION_SECS) :: nonces[n]
  }

  /** Whether reserving `nonce` succeeds: no unpruned entry holds it. */
  predicate NonceFree(s: State, nonce: string, now: time)
  {
    nonce !in Unpruned(s.nonces, now)
  }

  /** The table after an attempt to reserve `nonce`: pruned, and holding `nonce`, at the time it
      already had if it was still there. */
  function NonceTried(s: State, nonce: string, now: time): (t: State)
    ensures t == s.(nonces := t.nonces)
  {
    var kept := Unpruned(s.nonces, now);
    s.(nonces := if nonce in kept then kept else kept[nonce := now])
  }

  /** `x` with `revoked` set if it belongs to the client (and, when `after` says so, only if it
      expires after that time). */
  function Killed(x: Session, clientId: string, after: Option<time>): (r: Session)
  {
    if x.clientId == clientId && (after.None? || x.exp > after.value) then x.(revoked := true) else x
  }

  function RevokeSessions(sessions: map<string, Session>, clientId: string,
      after: Option<time>): (r: map<string, Session>)
    ensures r.Keys == sessions.Keys
    ensures forall k :: k in sessions ==> r[k] == Killed(sessions[k], clientId, after)
  {
    map k | k in sessions :: Killed(sessions[k], clientId, after)
  }

  function SessionRevokedIn(s: State, sessionId: string): (t: State)
  {
    if sessionId in s.sessions then
      s.(sessions := s.sessions[sessionId := s.sessions[sessionId].(revoked := true)])
    else s
  }

  function ActiveSessionsRevoked(s: State, clientId: string, now: time): (t: State)
    ensures t == s.(sessions := t.sessions)
  {
    s.(sessions := RevokeSessions(s.sessions, clientId, Some(now)))
  }

  /** Every session of the client dies; the version changes unless the client is revoked. */
  function RegistrationUpdated(s: State, clientId: string, version: string): (t: State)
    ensures t.sessions == RevokeSessions(s.sessions, clientId, None) && t.challenges == s.challenges
  {
    var t := s.(sessions := RevokeSessions(s.sessions, clientId, None));
    if clientId in s.clients && !s.clients[clientId].revoked then
      t.(clients := s.clients[clientId := s.clients[clientId].(version := version)])
    else t
  }

  function ClientRevokedIn(s: State, clientId: string): (t: State)
  {
    var t := s.(sessions := RevokeSessions(s.sessions, clientId, None));
    if clientId in s.clients then
      t.(clients := s.clients[clientId := s.clients[clientId].(revoked := true)])
    else t
  }

  function TransfersPruned(s: State, now: time): (t: State)
  {
    s.(transfers := map k | k in s.transfers && s.transfers[k].manifest.expiresAt > now :: s.transfers[k])
  }
}
