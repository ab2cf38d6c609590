/** What the loss of a capability means for the session that holds it. It is the end of the session
    if some request meets it, and exactly then: every run in which no request has met it can be
    continued so that the session gets a new lease. */
module AuthCapabilities {
  import opened Bytes
  import opened Text
  import opened AuthModel
  import opened AuthTables
  import opened AuthHandlers
  import opened AuthInvariant
  import opened AuthSteps
  import opened AuthFacts
  import opened AuthAnswers
  import opened AuthRuns
  import opened AuthEndings

  // ----------------------------------------------------------- lost for good --

  /** A session that was used while one of its capabilities was not entitled, by a request that passed
      every earlier check, never produces anything again, even if the entitlement is granted anew. */
  lemma LostCapabilityIsFinal(run: Run, i: nat, k: nat)
    requires run.Valid() && i < k < |run.steps|
    requires MeetsLostCapability(run.states[i], run.steps[i].now, run.steps[i].request)
    ensures Silent(run, k, UsedSession(run.steps[i].request).value)
    ensures run.ReplyOf(i) == Failed(CapabilityRevoked)
  {
    hide Handle, Inv, Initial, DrawsFresh, ReachesEntitlements, CapabilityLost, Silent;
    StepKills(run, i);
    RevokedSessionStaysDead(run, i + 1, k, UsedSession(run.steps[i].request).value);
  }

  lemma StepKills(run: Run, i: nat)
    requires run.Valid() && i < |run.steps|
    ensures KillsExactly(run.states[i], run.steps[i].now, run.steps[i].request, (run.states[i + 1], run.outcomes[i]))
  {
    hide Handle, Initial, DrawsFresh, KillsExactly;
    StepKeeps(run, i);
    assert run.StepOk(i);
    LostCapabilityKills(run.states[i], run.steps[i].now, run.steps[i].request);
  }

  /** A heartbeat that fails one of its checks changes nothing, whatever the entitlements are. */
  lemma RefusedHeartbeatChangesNothing(s: State, now: time, id: string, q: HeartbeatRequest, jti: string)
    requires !Renewable(s, now, id, q)
    ensures Heartbeat(s, now, id, q, jti).0 == s
  {
    HeartbeatRenews(s, now, id, q, jti, Heartbeat(s, now, id, q, jti));
  }

  // ----------------------------------------------------------- continued runs --

  ghost predicate Continues(run: Run, more: Run)
  {
    && |run.steps| <= |more.steps| && |run.states| <= |more.states| && |run.outcomes| <= |more.outcomes|
    && more.steps[..|run.steps|] == run.steps && more.states[..|run.states|] == run.states
    && more.outcomes[..|run.outcomes|] == run.outcomes
  }

  function Last(run: Run): (s: State)
    requires |run.states| == |run.steps| + 1
  {
    run.states[|run.steps|]
  }

  /** The run after one more request, at the time it has reached. */
  function Then(run: Run, r: Request): (more: Run)
    requires |run.states| == |run.steps| + 1
    ensures |more.states| == |more.steps| + 1 && |more.steps| == |run.steps| + 1
  {
    var (t, o) := Handle(Last(run), run.ClockBefore(|run.steps|), r);
    Run(run.states + [t], run.steps + [Step(run.ClockBefore(|run.steps|), r)], run.outcomes + [o])
  }

  lemma ThenValid(run: Run, r: Request)
    requires run.Valid() && !r.DoPrepare? && DrawsFresh(Last(run), r)
    ensures Then(run, r).Valid() && Continues(run, Then(run, r))
    ensures Then(run, r).ClockBefore(|run.steps| + 1) == run.ClockBefore(|run.steps|)
  {
    hide Handle, DrawsFresh, Initial;
    var more := Then(run, r);
    forall i | 0 <= i < |more.steps|
      ensures more.StepOk(i)
    {
      if i < |run.steps| {
        assert run.StepOk(i);
        assert more.ClockBefore(i) == run.ClockBefore(i);
      }
    }
  }

  lemma ContinuesOn(run: Run, more: Run, most: Run)
    requires Continues(run, more) && Continues(more, most)
    ensures Continues(run, most)
  {
    assert most.steps[..|run.steps|] == more.steps[..|run.steps|];
    assert most.states[..|run.states|] == more.states[..|run.states|];
    assert most.outcomes[..|run.outcomes|] == more.outcomes[..|run.outcomes|];
  }

  // ---------------------------------------------------------------- revival --

  /** What the operator and the device do to bring a session back: the client is approved, its
      account is entitled to everything, and its key has signed a heartbeat. */
  function Restored(s: State, id: string, nonce: string, now: time): (t: State)
    requires id in s.sessions && s.sessions[id].clientId in s.clients
  {
    var c := s.clients[s.sessions[id].clientId];
    var proof := HeartbeatProof(id, s.sessions[id].clientId, s.sessions[id].deviceId, nonce, now);
    s.(clients := s.clients[s.sessions[id].clientId := c.(approved := true)],
       entitlements := s.entitlements[(c.accountId, ProtectedPreset) := true][(c.accountId, ProtectedArtifact) := true]
         [(c.accountId, ProtectedAlgorithm) := true],
       deviceSigned := s.deviceSigned + {DeviceSignature(c.algorithm, c.key, proof, "signature")})
  }

  function Revival(s: State, id: string, nonce: string, now: time): (q: HeartbeatRequest)
    requires id in s.sessions
  {
    HeartbeatRequest(s.sessions[id].clientId, s.sessions[id].deviceId, nonce, now, "signature")
  }

  lemma RestoredIsEntitled(s: State, id: string, nonce: string, now: time)
    requires id in s.sessions && s.sessions[id].clientId in s.clients
    ensures !CapabilityLost(Restored(s, id, nonce, now), id)
  {
    var t := Restored(s, id, nonce, now);
    var account := t.clients[t.sessions[id].clientId].accountId;
    forall c: Capability
      ensures Entitled(t, account, c)
    {
      match c
      case ProtectedPreset =>
      case ProtectedArtifact =>
      case ProtectedAlgorithm =>
    }
  }

  /** A live session of a client that is not revoked gets a lease, if all that is restored. */
  lemma RestoredRenews(s: State, id: string, nonce: string, now: time, t: State)
    requires Inv(s, now) && id in s.sessions && Live(s.sessions[id], now)
    requires !s.clients[s.sessions[id].clientId].revoked
    requires NonceOk(nonce) && NonceFree(s, nonce, now) && t == Restored(s, id, nonce, now)
    ensures Heartbeat(t, now, id, Revival(s, id, nonce, now), "jti").1.reply.LeaseIssued?
    ensures Heartbeat(t, now, id, Revival(s, id, nonce, now), "jti").1.reply.lease.sessionId == id
  {
    RestoredIsEntitled(s, id, nonce, now);
    assert Renewable(t, now, id, Revival(s, id, nonce, now));
    HeartbeatRenews(t, now, id, Revival(s, id, nonce, now), "jti",
      Heartbeat(t, now, id, Revival(s, id, nonce, now), "jti"));
    hide Heartbeat, Inv, NonceOk;
  }

  /** The run in which the operator and the device do all that. */
  lemma Restore(run: Run, id: string, nonce: string) returns (more: Run)
    requires run.Valid() && id in Last(run).sessions && Last(run).sessions[id].clientId in Last(run).clients
    ensures more.Valid() && Continues(run, more) && |more.steps| > |run.steps|
    ensures more.ClockBefore(|more.steps|) == run.ClockBefore(|run.steps|)
    ensures Last(more) == Restored(Last(run), id, nonce, run.ClockBefore(|run.steps|))
  {
    hide Handle, Initial, DrawsFresh;
    var s, now := Last(run), run.ClockBefore(|run.steps|);
    var client := s.sessions[id].clientId;
    var c := s.clients[client];
    var proof := HeartbeatProof(id, client, s.sessions[id].deviceId, nonce, now);
    more := OperatorStep(run, DoApprove(client));
    more := OperatorThen(run, more, DoGrantEntitlement(c.accountId, ProtectedPreset));
    more := OperatorThen(run, more, DoGrantEntitlement(c.accountId, ProtectedArtifact));
    more := OperatorThen(run, more, DoGrantEntitlement(c.accountId, ProtectedAlgorithm));
    more := OperatorThen(run, more, DeviceSigns(DeviceSignature(c.algorithm, c.key, proof, "signature")));
  }

  predicate IsOperation(r: Request)
  {
    r.DoApprove? || r.DoApproveForAccount? || r.DoGrantEntitlement? || r.DoRevokeEntitlement? || r.DeviceSigns?
  }

  lemma OperatorStep(run: Run, r: Request) returns (more: Run)
    requires run.Valid() && IsOperation(r)
    ensures more.Valid() && Continues(run, more) && |more.steps| > |run.steps|
    ensures Last(more) == Operate(Last(run), r)
    ensures more.ClockBefore(|more.steps|) == run.ClockBefore(|run.steps|)
  {
    hide Handle, Operate, Initial;
    HandlesOperation(Last(run), run.ClockBefore(|run.steps|), r);
    more := Then(run, r);
    ThenValid(run, r);
  }

  lemma HandlesOperation(s: State, now: time, r: Request)
    requires IsOperation(r)
    ensures Handle(s, now, r).0 == Operate(s, r) && DrawsFresh(s, r)
  {
    hide Operate;
  }

  lemma OperatorThen(run: Run, sofar: Run, r: Request) returns (more: Run)
    requires sofar.Valid() && Continues(run, sofar) && |sofar.steps| > |run.steps| && IsOperation(r)
    ensures more.Valid() && Continues(run, more) && |more.steps| > |run.steps|
    ensures Last(more) == Operate(Last(sofar), r)
    ensures more.ClockBefore(|more.steps|) == sofar.ClockBefore(|sofar.steps|)
  {
    more := OperatorStep(sofar, r);
    ContinuesOn(run, sofar, more);
  }

  /** Any run that ends with a live session of a client that is not revoked can be continued so
      that the session gets a lease, whatever was lost before. */
  lemma LiveSessionRevives(run: Run, id: string, nonce: string) returns (more: Run)
    requires run.Valid() && id in Last(run).sessions && !Ended(Last(run), id, run.ClockBefore(|run.steps|))
    requires NonceOk(nonce) && NonceFree(Last(run), nonce, run.ClockBefore(|run.steps|))
    ensures more.Valid() && Continues(run, more) && |more.steps| > |run.steps|
    ensures ProducedFor(more.ReplyOf(|more.steps| - 1)) == Some(id)
  {
    hide Handle, Inv, Initial, NonceOk, NonceFree, Restored, OneLive, GrantsIn, ReceiptsIn;
    InvAt(run, |run.steps|);
    var s, now := Last(run), run.ClockBefore(|run.steps|);
    SessionHasClient(s, now, id);
    var restored := Restore(run, id, nonce);
    RestoredRenews(s, id, nonce, now, Last(restored));
    var r := DoHeartbeat(id, Revival(s, id, nonce, now), "jti");
    more := Then(restored, r);
    ThenValid(restored, r);
    ContinuesOn(run, restored, more);
    HandlesHeartbeat(Last(restored), now, r);
  }

  lemma SessionHasClient(s: State, now: time, id: string)
    requires Inv(s, now) && id in s.sessions
    ensures s.sessions[id].clientId in s.clients
  {
  }

  lemma HandlesHeartbeat(s: State, now: time, r: Request)
    requires r.DoHeartbeat?
    ensures Handle(s, now, r) == Heartbeat(s, now, r.sessionId, r.heartbeat, r.freshJti)
  {
  }

  // ------------------------------------------------------------ exactly when --

  lemma UseLeavesClients(s: State, now: time, r: Request)
    requires UsedSession(r).Some?
    ensures Handle(s, now, r).0.clients == s.clients
  {
    hide ListCapabilities, Heartbeat, CloseSession, IssueGrant, ReleaseGrant, ConsumeGrant, PrepareArtifact, ServeChunk;
    hide Register, Complete, CreateSession, BearerToken;
  }

  /** Whether a session has ended after a request used it while a capability was lost. */
  lemma UseEnds(run: Run, id: string)
    requires run.Valid() && |run.steps| > 0
    requires var i := |run.steps| - 1;
      UsedSession(run.steps[i].request) == Some(id) && CapabilityLost(run.states[i], id)
    ensures var i := |run.steps| - 1;
      Ended(Last(run), id, run.ClockBefore(i + 1)) <==>
        ReachesEntitlements(run.states[i], run.steps[i].now, run.steps[i].request)
        || Ended(run.states[i], id, run.ClockBefore(i + 1))
  {
    hide Handle, Initial, DrawsFresh, ReachesEntitlements, UsedSession;
    var i := |run.steps| - 1;
    StepKills(run, i);
    assert run.StepOk(i);
    UseLeavesClients(run.states[i], run.steps[i].now, run.steps[i].request);
  }

  /** A use of a session while one of its capabilities is lost is the last thing that ever comes of
      the session, in every continuation of the run, if and only if the request passed every check
      before the entitlements, or the session had ended anyway. The one exception could be a service
      that has reserved every nonce there is. */
  lemma LostCapabilityExact(run: Run, id: string, nonce: string)
    requires run.Valid() && |run.steps| > 0
    requires var i := |run.steps| - 1;
      UsedSession(run.steps[i].request) == Some(id) && CapabilityLost(run.states[i], id)
    requires NonceOk(nonce) && NonceFree(Last(run), nonce, run.ClockBefore(|run.steps|))
    ensures var i := |run.steps| - 1;
      ReachesEntitlements(run.states[i], run.steps[i].now, run.steps[i].request)
      || Ended(run.states[i], id, run.ClockBefore(i + 1))
      <==> forall more: Run, k | more.Valid() && Continues(run, more) && |run.steps| <= k < |more.steps| ::
             Silent(more, k, id)
  {
    hide Handle, Initial, DrawsFresh, ReachesEntitlements, UsedSession, NonceOk, NonceFree, Silent, Ended,
      CapabilityLost;
    UseEnds(run, id);
    var n := |run.steps|;
    if Ended(Last(run), id, run.ClockBefore(n)) {
      forall more: Run, k | more.Valid() && Continues(run, more) && n <= k < |more.steps|
        ensures Silent(more, k, id)
      {
        SameSoFar(run, more);
        EndedIsSilent(more, n, k, id);
      }
    } else {
      UsedExists(run, id);
      var more := LiveSessionRevives(run, id, nonce);
      Speaks(more, |more.steps| - 1, id);
    }
  }

  lemma SameSoFar(run: Run, more: Run)
    requires run.Valid() && more.Valid() && Continues(run, more)
    ensures more.states[|run.steps|] == Last(run) && more.ClockBefore(|run.steps|) == run.ClockBefore(|run.steps|)
  {
    hide Handle, Initial, DrawsFresh;
    assert more.states[|run.steps|] == more.states[..|run.states|][|run.steps|];
    if |run.steps| > 0 {
      assert more.steps[|run.steps| - 1] == more.steps[..|run.steps|][|run.steps| - 1];
    }
  }

  lemma Speaks(run: Run, k: nat, id: string)
    requires k < |run.steps| == |run.outcomes| && ProducedFor(run.ReplyOf(k)) == Some(id)
    ensures !Silent(run, k, id)
  {
  }

  lemma UsedExists(run: Run, id: string)
    requires run.Valid() && |run.steps| > 0 && CapabilityLost(run.states[|run.steps| - 1], id)
    ensures id in Last(run).sessions
  {
    hide Handle, Initial, DrawsFresh;
    SessionFixed(run, |run.steps| - 1, |run.steps|, id);
  }

  // ------------------------------------------------------------- an instance --

  /** The service before the first request, when the client's device has signed its session request. */
  function Beginning(): (s: State)
  {
    State(map[], map[], map[], map[], map[], map[], map[], map[], 1, {}, {},
      {DeviceSignature(Ed25519DpapiV1, "key", OpeningProof(), "signature")}, map[])
  }

  function OpeningProof(): (p: Proof)
  {
    SessionProof("client", "device", "1.0", "first", 0, [ProtectedPreset])
  }

  function AfterRegister(): (s: State)
  {
    var c := Client("client", "pending:" + "client", "device", "key", Ed25519DpapiV1, "1.0", false, false);
    Beginning().(clients := map["client" := c], devices := map["device" := "client"],
      challenges := map["client" := Challenge("challenge", "1.0", 300)])
  }

  function AfterApprove(): (s: State)
  {
    var c := Client("client", "account", "device", "key", Ed25519DpapiV1, "1.0", true, false);
    AfterRegister().(clients := map["client" := c])
  }

  function AfterGrant(): (s: State)
  {
    AfterApprove().(entitlements := map[("account", ProtectedPreset) := true])
  }

  function AfterSession(): (s: State)
  {
    AfterGrant().(nonces := map["first" := 0],
      sessions := map["session" :=
        Session("session", "client", "account", "device", [ProtectedPreset], "jti", 900, false)])
  }

  function AfterLoss(): (s: State)
  {
    AfterSession().(entitlements := map[("account", ProtectedPreset) := false])
  }

  lemma NotBlank(s: string)
    requires s != [] && !IsWhite(s[0])
    ensures !IsBlank(s)
  {
  }

  function Registration(): (q: RegisterRequest)
  {
    RegisterRequest("install", "device", "1.0", "linux", "key", true, Ed25519DpapiV1, "rdc")
  }

  lemma Registers()
    ensures Register(Beginning(), 0, Registration(), "client", "challenge").0 == AfterRegister()
  {
    NotBlank("install");
    NotBlank("device");
    NotBlank("1.0");
    NotBlank("linux");
    NotBlank("rdc");
    hide IsBlank, SatAdd;
    assert SatAdd(0, CHALLENGE_TTL_SECS) == 300;
  }

  lemma ShortNonce(s: string)
    requires |s| <= 64 && s != [] && !IsWhite(s[0])
    ensures NonceOk(s)
  {
    NotBlank(s);
    ShortLength(s);
  }

  lemma {:induction false} ShortLength(s: string)
    ensures Utf8Length(s) <= 4 * |s|
  {
    if s != [] {
      ShortLength(s[1..]);
    }
  }

  function Opening(): (q: SessionRequest)
  {
    SessionRequest("client", "device", "1.0", "first", 0, [ProtectedPreset], "signature")
  }

  lemma FirstSession(s: State, now: time, q: SessionRequest, id: string, jti: string)
    requires MayOpen(s, now, q) && s.sessions == map[]
    ensures var t, c := CreateSession(s, now, q, id, jti).0, s.clients[q.clientId];
      t == s.(nonces := NonceTried(s, q.nonce, now).nonces, sessions := map[id :=
        Session(id, c.clientId, c.accountId, c.deviceId, q.capabilities, jti, SatAdd(now, LEASE_MAX_SECS), false)])
  {
    hide IsBlank, SatAdd, NonceOk, RequestTimeOk, Unusable, NonceFree;
    assert RevokeSessions(map[], s.clients[q.clientId].clientId, Some(now)) == map[];
  }

  lemma MayOpenFirst()
    ensures MayOpen(AfterGrant(), 0, Opening())
  {
    NotBlank("client");
    NotBlank("device");
    NotBlank("1.0");
    ShortNonce("first");
    assert NonceFree(AfterGrant(), "first", 0) && RequestTimeOk(0, 0);
    hide IsBlank, NonceOk, NonceFree, RequestTimeOk;
  }

  lemma OpensSession()
    ensures CreateSession(AfterGrant(), 0, Opening(), "session", "jti").0 == AfterSession()
  {
    assert SatAdd(0, LEASE_MAX_SECS) == 900;
    assert NonceTried(AfterGrant(), "first", 0).nonces == map["first" := 0];
    hide MayOpen, NonceTried, CreateSession, SatAdd;
    MayOpenFirst();
    FirstSession(AfterGrant(), 0, Opening(), "session", "jti");
  }

  lemma Operations()
    ensures Operate(AfterRegister(), DoApproveForAccount("client", "account")) == AfterApprove()
    ensures Operate(AfterApprove(), DoGrantEntitlement("account", ProtectedPreset)) == AfterGrant()
    ensures Operate(AfterSession(), DoRevokeEntitlement("account", ProtectedPreset)) == AfterLoss()
  {
  }

  lemma LosesCapability()
    ensures CapabilityLost(AfterLoss(), "session")
  {
    assert !Entitled(AfterLoss(), "account", [ProtectedPreset][0]);
  }

  lemma StaleHeartbeat()
    ensures Heartbeat(AfterLoss(), 0, "session", Stale(), "jti").0 == AfterLoss()
  {
    assert !RequestTimeOk(1000, 0);
    RefusedHeartbeatChangesNothing(AfterLoss(), 0, "session", Stale(), "jti");
  }

  function Stale(): (q: HeartbeatRequest)
  {
    HeartbeatRequest("client", "device", "second", 1000, "signature")
  }

  /** The run until the client may open a session. */
  lemma RunToGrant() returns (run: Run)
    ensures run.Valid() && Last(run) == AfterGrant() && run.ClockBefore(|run.steps|) == 0
  {
    var start := Run([Beginning()], [], []);
    var register := DoRegister(Registration(), "client", "challenge");
    assert start.Valid() && DrawsFresh(Beginning(), register);
    Registers();
    Operations();
    assert Handle(Beginning(), 0, register).0 == AfterRegister();
    hide Handle, Operate, Initial, DrawsFresh, Beginning, AfterRegister, AfterApprove, AfterGrant;
    ThenValid(start, register);
    run := OperatorStep(Then(start, register), DoApproveForAccount("client", "account"));
    run := OperatorStep(run, DoGrantEntitlement("account", ProtectedPreset));
  }

  lemma HandlesOpening(s: State, now: time, r: Request)
    requires r.DoCreateSession?
    ensures Handle(s, now, r) == CreateSession(s, now, r.session, r.freshSession, r.freshJti)
  {
  }

  /** The run up to the loss of the capability. */
  lemma RunToLoss() returns (run: Run)
    ensures run.Valid() && Last(run) == AfterLoss() && run.ClockBefore(|run.steps|) == 0
  {
    var open := DoCreateSession(Opening(), "session", "jti");
    OpensSession();
    Operations();
    HandlesOpening(AfterGrant(), 0, open);
    assert DrawsFresh(AfterGrant(), open);
    hide Handle, CreateSession, Operate, Initial, DrawsFresh, AfterGrant, AfterSession, AfterLoss;
    run := RunToGrant();
    ThenValid(run, open);
    run := OperatorStep(Then(run, open), DoRevokeEntitlement("account", ProtectedPreset));
  }

  lemma LossFacts()
    ensures var s := AfterLoss();
      && CapabilityLost(s, "session") && "session" in s.sessions && Live(s.sessions["session"], 0)
      && !Ended(s, "session", 0) && NonceFree(s, "second", 0) && NonceOk("second")
  {
    LosesCapability();
    ShortNonce("second");
  }

  /** The run up to a stale heartbeat, which changes nothing. */
  lemma RunToStale() returns (run: Run, i: nat)
    ensures run.Valid() && |run.steps| == i + 1 && run.states[i] == Last(run) == AfterLoss()
    ensures run.steps[i] == Step(0, DoHeartbeat("session", Stale(), "jti")) && run.ClockBefore(i + 1) == 0
  {
    var stale := DoHeartbeat("session", Stale(), "jti");
    StaleHeartbeat();
    HandlesHeartbeat(AfterLoss(), 0, stale);
    hide Handle, Heartbeat, Initial, AfterLoss;
    run := RunToLoss();
    i := |run.steps|;
    ThenValid(run, stale);
    run := Then(run, stale);
  }

  /** The promise that a session is dead once it was used while a capability was lost does not hold of
      every use: here a heartbeat with a stale timestamp uses such a session, which is live, and the
      run ends with a new lease for it. */
  lemma StaleHeartbeatIsSurvived() returns (run: Run, i: nat)
    ensures run.Valid() && i < |run.steps| - 1
    ensures UsedSession(run.steps[i].request) == Some("session") && CapabilityLost(run.states[i], "session")
    ensures "session" in run.states[i].sessions && Live(run.states[i].sessions["session"], run.steps[i].now)
    ensures ProducedFor(run.ReplyOf(|run.steps| - 1)) == Some("session")
  {
    LossFacts();
    hide Handle, Initial, DrawsFresh, AfterLoss, Ended, Live, CapabilityLost, NonceOk, NonceFree;
    var stale: Run;
    stale, i := RunToStale();
    run := LiveSessionRevives(stale, "session", "second");
    SameStep(stale, run, i);
  }

  lemma SameStep(run: Run, more: Run, i: nat)
    requires run.Valid() && Continues(run, more) && i < |run.steps|
    ensures more.steps[i] == run.steps[i] && more.states[i] == run.states[i]
  {
    hide Handle, Initial, DrawsFresh;
    assert more.steps[i] == more.steps[..|run.steps|][i] && more.states[i] == more.states[..|run.states|][i];
  }
}
