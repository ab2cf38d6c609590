/** How a session ends: what is refused to it and its client for the rest of every run, and when the
    loss of a capability is such an end. */
module AuthEndings {
  import opened Bytes
  import opened AuthModel
  import opened AuthTables
  import opened AuthHandlers
  import opened AuthInvariant
  import opened AuthSteps
  import opened AuthFacts
  import opened AuthRuns

  /** The session a lease, a grant or a receipt is for. */
  function ProducedFor(r: Reply): (id: Option<string>)
  {
    match r
    case LeaseIssued(l) => Some(l.sessionId)
    case GrantIssued(g) => Some(g.sessionId)
    case ReceiptIssued(q) => Some(q.sessionId)
    case ManifestIssued(m) => Some(m.sessionId)
    case _ => None
  }

  function ProducedForClient(r: Reply): (id: Option<string>)
  {
    match r
    case LeaseIssued(l) => Some(l.clientId)
    case GrantIssued(g) => Some(g.clientId)
    case ReceiptIssued(q) => Some(q.clientId)
    case _ => None
  }

  /** The session is revoked or expired, or its client is revoked. */
  ghost predicate Ended(s: State, id: string, now: time)
  {
    && id in s.sessions && s.sessions[id].clientId in s.clients
    && (!Live(s.sessions[id], now) || s.clients[s.sessions[id].clientId].revoked)
  }

  /** Nothing comes of step `k` for the session: no lease, grant, receipt or manifest is for it, and a
      request that uses it is refused. */
  predicate Silent(run: Run, k: nat, id: string)
    requires k < |run.steps| == |run.outcomes|
  {
    && ProducedFor(run.ReplyOf(k)) != Some(id)
    && (UsedSession(run.steps[k].request) == Some(id) ==> run.ReplyOf(k).Failed?)
  }

  // ------------------------------------------------------------- ended for good --

  lemma LookupRefuses(s: State, header: Option<string>, now: time, id: string)
    requires Ended(s, id, now) && BearerToken(header) == Some(id)
    ensures SessionFromHeaders(s, header, now).1.Err?
  {
    hide BearerToken, AllEntitled;
  }

  lemma HeaderRefuses(s: State, now: time, r: Request, id: string)
    requires r.DoListCapabilities? || r.DoCloseSession? || r.DoIssueGrant? || r.DoPrepare? || r.DoServeChunk?
    requires Ended(s, id, now) && BearerToken(r.header) == Some(id)
    ensures Handle(s, now, r).1.reply.Failed?
  {
    LookupRefuses(s, r.header, now, id);
    hide SessionFromHeaders, BearerToken, Ended, SignGrant, PrepareFor, ServeFor, SessionRevokedIn;
  }

  lemma PresentedRefuses(s: State, now: time, p: PresentedGrant)
    requires Ended(s, p.claims.sessionId, now)
    ensures ValidateGrant(s, p, now).1.Err?
  {
    hide GrantClaimsOk, ArtifactAllows, HasGrantCapabilities, SignedBy, AllEntitled, GrantedFile;
  }

  /** A request that uses a session that has ended is refused. */
  lemma EndedRefuses(s: State, now: time, r: Request, id: string)
    requires Ended(s, id, now) && UsedSession(r) == Some(id)
    ensures Handle(s, now, r).1.reply.Failed?
  {
    hide BearerToken, Heartbeat, ValidateGrant, ReleaseContents, SignReceipt, Ended;
    hide ListCapabilities, CloseSession, IssueGrant, PrepareArtifact, ServeChunk;
    match r
    case DoHeartbeat(_, q, jti) => HeartbeatRefuses(s, now, id, q, jti);
    case DoReleaseGrant(p, _) => PresentedRefuses(s, now, p);
    case DoConsumeGrant(p) => PresentedRefuses(s, now, p);
    case _ => HeaderRefuses(s, now, r, id);
  }

  lemma HeartbeatRefuses(s: State, now: time, id: string, q: HeartbeatRequest, jti: string)
    requires Ended(s, id, now)
    ensures Heartbeat(s, now, id, q, jti).1.reply.Failed?
  {
    HeartbeatRenews(s, now, id, q, jti, Heartbeat(s, now, id, q, jti));
    hide Heartbeat;
  }

  lemma PreparedForUsed(s: State, now: time, r: Request)
    requires Inv(s, now) && r.DoPrepare?
    ensures var y := Handle(s, now, r).1.reply; y.ManifestIssued? ==> UsedSession(r) == Some(y.manifest.sessionId)
  {
    TokenNamesSession(s, r.header, now);
    var (t, found) := SessionFromHeaders(s, r.header, now);
    if found.Ok? {
      PreparedIsFor(t, r.later, found.value, r.artifactId, r.prepare, r.freshTransfer, r.noncePrefix);
    }
    hide SessionFromHeaders, BearerToken, Inv, PrepareFor;
  }

  lemma PreparedIsFor(t: State, later: time, session: Session, id: string, r: PrepareRequest, transfer: string,
      prefix: seq<byte>)
    ensures var y := PrepareFor(t, later, session, id, r, transfer, prefix).1.reply;
      y.ManifestIssued? ==> y.manifest.sessionId == session.sessionId
  {
    hide SafeFile, ChunkCount, TransfersPruned;
  }

  lemma {:induction false} EndedStays(run: Run, i: nat, j: nat, id: string)
    requires run.Valid() && i <= j <= |run.steps| && Ended(run.states[i], id, run.ClockBefore(i))
    ensures Ended(run.states[j], id, run.ClockBefore(j))
  {
    hide Inv, Handle, DrawsFresh, Initial;
    if i < j {
      EndedStays(run, i, j - 1, id);
      StepKeeps(run, j - 1);
      assert run.StepOk(j - 1);
      assert SessionEvolves(run.states[j - 1].sessions[id], run.states[j].sessions[id], run.steps[j - 1].now);
    }
  }

  lemma ProducedForLive(run: Run, k: nat)
    requires run.Valid() && k < |run.steps|
    ensures ProducedForClient(run.ReplyOf(k)).Some? ==>
      && ProducedFor(run.ReplyOf(k)).Some?
      && var id, c, s := ProducedFor(run.ReplyOf(k)).value, ProducedForClient(run.ReplyOf(k)).value, run.states[k];
      && (id in s.sessions ==> Live(s.sessions[id], run.steps[k].now) && s.sessions[id].clientId == c)
      && c in s.clients && !s.clients[c].revoked
  {
    hide Handle, DrawsFresh, Initial, Inv, AllEntitled, SignedBy, HasGrantCapabilities, ArtifactAllows;
    match run.ReplyOf(k)
    case LeaseIssued(l) =>
      LeaseAt(run, k);
      StepKeeps(run, k);
      assert l.sessionId in run.states[k].sessions ==>
        SessionEvolves(run.states[k].sessions[l.sessionId], run.states[k + 1].sessions[l.sessionId], run.steps[k].now);
    case GrantIssued(_) => GrantAt(run, k);
    case ReceiptIssued(_) => ReceiptAt(run, k);
    case _ =>
  }

  lemma ManifestIsUsed(run: Run, k: nat)
    requires run.Valid() && k < |run.steps| && run.ReplyOf(k).ManifestIssued?
    ensures UsedSession(run.steps[k].request) == Some(run.ReplyOf(k).manifest.sessionId)
  {
    hide PrepareArtifact, Inv, Evolves, Initial, UsedSession, DrawsFresh;
    StepKeeps(run, k);
    StepIsOwn(run, k);
    assert run.StepOk(k);
    PreparedForUsed(run.states[k], run.steps[k].now, run.steps[k].request);
  }

  /** A session that has ended gets nothing any more. */
  lemma EndedIsSilent(run: Run, i: nat, k: nat, id: string)
    requires run.Valid() && i <= k < |run.steps| && Ended(run.states[i], id, run.ClockBefore(i))
    ensures Silent(run, k, id)
  {
    hide Handle, Inv, Initial, DrawsFresh, UsedSession;
    EndedStays(run, i, k, id);
    ProducedForLive(run, k);
    assert run.StepOk(k);
    if run.ReplyOf(k).ManifestIssued? {
      ManifestIsUsed(run, k);
    }
    if UsedSession(run.steps[k].request) == Some(id) {
      EndedRefuses(run.states[k], run.steps[k].now, run.steps[k].request, id);
    }
  }

  /** Once a session is revoked, nothing is ever produced for it again, and every use is refused. */
  lemma RevokedSessionStaysDead(run: Run, i: nat, k: nat, id: string)
    requires run.Valid() && i <= k < |run.steps| && id in run.states[i].sessions && run.states[i].sessions[id].revoked
    ensures Silent(run, k, id)
  {
    InvAt(run, i);
    EndedIsSilent(run, i, k, id);
  }

  /** Once a client is revoked, no lease, grant or receipt is ever produced for it again. */
  lemma RevokedClientStaysDead(run: Run, i: nat, k: nat, id: string)
    requires run.Valid() && i <= k < |run.steps| && id in run.states[i].clients && run.states[i].clients[id].revoked
    ensures ProducedForClient(run.ReplyOf(k)) != Some(id)
  {
    ClientBindingFixed(run, i, k, id);
    ProducedForLive(run, k);
  }
}
