/** Theorems over whole runs of the service: any sequence of requests, by anyone, handled one at a
    time under a clock that never runs backwards. */
module AuthRuns {
  import opened Bytes
  import opened AuthModel
  import opened AuthTables
  import opened AuthHandlers
  import opened AuthInvariant
  import opened AuthSteps
  import opened AuthFacts
  import opened AuthAnswers

  datatype Step = Step(now: time, request: Request) {
    /** The last clock reading of the step. */
    function End(): (t: time) {
      if request.DoPrepare? then request.later else now
    }
  }

  ghost predicate Initial(s: State)
  {
    && s.clients == map[] && s.devices == map[] && s.challenges == map[] && s.nonces == map[]
    && s.sessions == map[] && s.entitlements == map[] && s.artifacts == map[] && s.transfers == map[]
    && s.signedGrants == {} && s.signedReceipts == {} && s.maxTransfers >= 1
  }

  datatype Run = Run(states: seq<State>, steps: seq<Step>, outcomes: seq<Outcome>) {
    function ClockBefore(i: nat): (t: time)
      requires i <= |steps|
    {
      if i == 0 then 0 else steps[i - 1].End()
    }

    ghost predicate StepOk(i: nat)
      requires i < |steps| && |states| == |steps| + 1 && |outcomes| == |steps|
    {
      && ClockBefore(i) <= steps[i].now <= steps[i].End()
      && DrawsFresh(states[i], steps[i].request)
      && Handle(states[i], steps[i].now, steps[i].request) == (states[i + 1], outcomes[i])
    }

    ghost predicate Valid() {
      && |states| == |steps| + 1 && |outcomes| == |steps| && Initial(states[0])
      && forall i :: 0 <= i < |steps| ==> StepOk(i)
    }

    function ReplyOf(i: nat): (r: Reply)
      requires i < |outcomes|
    {
      outcomes[i].reply
    }
  }

  // ---------------------------------------------------------------- general --

  lemma {:induction false} InvAt(run: Run, i: nat)
    requires run.Valid() && i <= |run.steps|
    ensures Inv(run.states[i], run.ClockBefore(i))
    decreases i, 0
  {
    if i > 0 {
      StepKeeps(run, i - 1);
    }
  }

  /** Each step starts in a state that satisfies the invariant at the step's time, and keeps it. */
  lemma {:induction false} StepKeeps(run: Run, i: nat)
    requires run.Valid() && i < |run.steps|
    ensures Inv(run.states[i], run.steps[i].now)
    ensures Evolves(run.states[i], run.states[i + 1], run.steps[i].now)
    ensures Inv(run.states[i + 1], run.ClockBefore(i + 1))
    decreases i, 1
  {
    InvAt(run, i);
    assert run.StepOk(i);
    TimePasses(run.states[i], run.ClockBefore(i), run.steps[i].now);
    HandleKeeps(run.states[i], run.steps[i].now, run.steps[i].request);
    TimePasses(run.states[i + 1], run.steps[i].now, run.steps[i].End());
  }

  lemma {:induction false} ClockGrows(run: Run, i: nat, j: nat)
    requires run.Valid() && i <= j < |run.steps|
    ensures run.steps[i].now <= run.steps[j].now
  {
    assert run.StepOk(j);
    if i < j {
      assert run.StepOk(j - 1);
      ClockGrows(run, i, j - 1);
    }
  }

  lemma {:induction false} SignedStays(run: Run, i: nat, j: nat)
    requires run.Valid() && i <= j <= |run.steps|
    ensures run.states[i].signedGrants <= run.states[j].signedGrants
    ensures run.states[i].signedReceipts <= run.states[j].signedReceipts
  {
    hide Inv, Handle, DrawsFresh, Initial;
    if i < j {
      SignedStays(run, i, j - 1);
      StepKeeps(run, j - 1);
    }
  }

  // --------------------------------------------------------------- bindings --

  /** A client keeps its device, key and algorithm for ever, and stays revoked. */
  lemma {:induction false} ClientBindingFixed(run: Run, i: nat, j: nat, id: string)
    requires run.Valid() && i <= j <= |run.steps| && id in run.states[i].clients
    ensures id in run.states[j].clients && ClientEvolves(run.states[i].clients[id], run.states[j].clients[id])
  {
    hide Inv, Handle, DrawsFresh, Initial;
    if i < j {
      ClientBindingFixed(run, i, j - 1, id);
      StepKeeps(run, j - 1);
    }
  }

  /** A device, once registered, names the same client with the same key in every later state. */
  lemma DeviceBindingFixed(run: Run, i: nat, j: nat, device: string)
    requires run.Valid() && i <= j <= |run.steps| && ClientByDevice(run.states[i], device).Some?
    ensures ClientByDevice(run.states[j], device).Some?
    ensures var c, d := ClientByDevice(run.states[i], device).value, ClientByDevice(run.states[j], device).value;
      c.clientId == d.clientId && c.key == d.key && c.algorithm == d.algorithm
  {
    InvAt(run, i);
    InvAt(run, j);
    ClientBindingFixed(run, i, j, run.states[i].devices[device]);
  }

  /** A session's client, device and capabilities never change, and a revoked session stays so. */
  lemma {:induction false} SessionFixed(run: Run, i: nat, j: nat, id: string)
    requires run.Valid() && i <= j <= |run.steps| && id in run.states[i].sessions
    ensures id in run.states[j].sessions
    ensures var x, y := run.states[i].sessions[id], run.states[j].sessions[id];
      x.clientId == y.clientId && x.deviceId == y.deviceId && x.capabilities == y.capabilities
      && (x.revoked ==> y.revoked)
  {
    hide Inv, Handle, DrawsFresh, Initial;
    if i < j {
      SessionFixed(run, i, j - 1, id);
      StepKeeps(run, j - 1);
      assert SessionEvolves(run.states[j - 1].sessions[id], run.states[j].sessions[id], run.steps[j - 1].now);
    }
  }

  /** At no time does a client have two sessions that are neither revoked nor expired. */
  lemma AtMostOneLiveSession(run: Run, i: nat, a: string, b: string)
    requires run.Valid() && i < |run.steps| && a in run.states[i].sessions && b in run.states[i].sessions
    requires run.states[i].sessions[a].clientId == run.states[i].sessions[b].clientId
    requires Live(run.states[i].sessions[a], run.steps[i].now) && Live(run.states[i].sessions[b], run.steps[i].now)
    ensures a == b
  {
    StepKeeps(run, i);
  }

  // ------------------------------------------------- what each reply implies --

  lemma LeaseAt(run: Run, i: nat)
    requires run.Valid() && i < |run.steps| && run.ReplyOf(i).LeaseIssued?
    ensures LeaseSound(run.states[i], run.states[i + 1], run.steps[i].now, run.ReplyOf(i).lease)
  {
    StepKeeps(run, i);
    assert run.StepOk(i);
    LeaseRequest(run.states[i], run.steps[i].now, run.steps[i].request);
  }

  lemma LeaseRequest(s: State, now: time, r: Request)
    requires Inv(s, now) && DrawsFresh(s, r)
    ensures var (t, o) := Handle(s, now, r);
      o.reply.LeaseIssued? ==> (r.DoCreateSession? || r.DoHeartbeat?) && LeaseSound(s, t, now, o.reply.lease)
  {
    hide Inv, CreateSession, Heartbeat, LeaseSound;
    if r.DoCreateSession? {
      CreateSessionLease(s, now, r.session, r.freshSession, r.freshJti);
    } else if r.DoHeartbeat? {
      var x := Handle(s, now, r);
      if x.1.reply.LeaseIssued? {
        HeartbeatLease(s, now, r.sessionId, r.heartbeat, r.freshJti, x);
      }
    } else {
      OnlyOwnReplies(s, now, r, Handle(s, now, r));
    }
  }

  /** Each kind of reply comes from the requests that are meant to give it. */
  ghost predicate OwnReply(r: Request, y: Reply)
  {
    match y
    case Registered(_, _) => r.DoRegister?
    case RegistrationCompleted(_) => r.DoComplete?
    case LeaseIssued(_) => r.DoCreateSession? || r.DoHeartbeat?
    case CapabilitiesListed(_) => r.DoListCapabilities?
    case SessionClosed => r.DoCloseSession?
    case GrantIssued(_) => r.DoIssueGrant?
    case ArtifactReleased(_, _) => r.DoReleaseGrant?
    case ReceiptIssued(_) => r.DoConsumeGrant?
    case ManifestIssued(_) => r.DoPrepare?
    case ChunkServed(_, _, _) => r.DoServeChunk?
    case AdminDone | Failed(_) => true
  }

  lemma OnlyOwnReplies(s: State, now: time, r: Request, x: (State, Outcome))
    requires x == Handle(s, now, r)
    ensures OwnReply(r, x.1.reply)
  {
    hide Register, Complete, CreateSession, ListCapabilities, Heartbeat, CloseSession, IssueGrant, ReleaseGrant;
    hide ConsumeGrant, PrepareArtifact, ServeChunk, Operate;
  }

  /** Each table is changed only by the requests that are meant to change it. */
  lemma OnlyOwnTables(s: State, now: time, r: Request, x: (State, Outcome))
    requires x == Handle(s, now, r)
    ensures !r.DoIssueGrant? ==> x.0.signedGrants == s.signedGrants
    ensures !r.DoConsumeGrant? ==> x.0.signedReceipts == s.signedReceipts
    ensures !r.DoPrepare? && !r.DoServeChunk? ==> x.0.transfers == s.transfers
    ensures !r.DoRegister? && !r.DoComplete? ==> x.0.challenges == s.challenges
    ensures x.0.maxTransfers == s.maxTransfers
  {
    hide Register, Complete, CreateSession, ListCapabilities, Heartbeat, CloseSession, IssueGrant, ReleaseGrant;
    hide ConsumeGrant, PrepareArtifact, ServeChunk, Operate;
  }

  lemma StepIsOwn(run: Run, i: nat)
    requires run.Valid() && i < |run.steps|
    ensures OwnReply(run.steps[i].request, run.ReplyOf(i))
    ensures !run.steps[i].request.DoIssueGrant? ==> run.states[i + 1].signedGrants == run.states[i].signedGrants
    ensures !run.steps[i].request.DoConsumeGrant? ==> run.states[i + 1].signedReceipts == run.states[i].signedReceipts
    ensures !run.steps[i].request.DoRegister? && !run.steps[i].request.DoComplete? ==>
      run.states[i + 1].challenges == run.states[i].challenges
  {
    assert run.StepOk(i);
    hide Handle, DrawsFresh, OwnReply;
    OnlyOwnReplies(run.states[i], run.steps[i].now, run.steps[i].request, (run.states[i + 1], run.outcomes[i]));
    OnlyOwnTables(run.states[i], run.steps[i].now, run.steps[i].request, (run.states[i + 1], run.outcomes[i]));
  }

  lemma GrantAt(run: Run, i: nat)
    requires run.Valid() && i < |run.steps| && run.ReplyOf(i).GrantIssued?
    ensures GrantSound(run.states[i], run.states[i + 1], run.steps[i].now, run.ReplyOf(i).grant)
    ensures forall g :: g in run.states[i].signedGrants ==> g.jti != run.ReplyOf(i).grant.jti
  {
    hide Inv, GrantSound, Evolves, IssueGrant;
    StepKeeps(run, i);
    StepIsOwn(run, i);
    assert run.StepOk(i);
    var r := run.steps[i].request;
    IssueGrantSound(run.states[i], run.steps[i].now, r.header, r.grantRequest, r.freshJti);
    IssueGrantJti(run.states[i], run.steps[i].now, r.header, r.grantRequest, r.freshJti);
  }

  /** Every grant answers a request of the session for which it is: same artifact, action, VM, instance and
      nonce, the hash of the published file; and the device had signed that request. */
  lemma GrantWasAsked(run: Run, i: nat)
    requires run.Valid() && i < |run.steps| && run.ReplyOf(i).GrantIssued?
    ensures run.steps[i].request.DoIssueGrant?
    ensures var s, r, g := run.states[i], run.steps[i].request.grantRequest, run.ReplyOf(i).grant;
      GrantAnswers(s, run.steps[i].now, g.sessionId, r, g) && AskedFor(s, g.clientId, r)
  {
    hide Inv, Evolves, IssueGrant, AskedFor, MayIssue;
    StepKeeps(run, i);
    StepIsOwn(run, i);
    assert run.StepOk(i);
    var r := run.steps[i].request;
    IssueGrantExact(run.states[i], run.steps[i].now, r.header, r.grantRequest, r.freshJti);
  }

  lemma ReceiptIsFor(run: Run, i: nat)
    requires run.Valid() && i < |run.steps| && run.ReplyOf(i).ReceiptIssued?
    ensures run.steps[i].request.DoConsumeGrant?
    ensures ReceiptAnswers(run.steps[i].now, run.steps[i].request.presented.claims, run.ReplyOf(i).receipt)
    ensures GrantClaimsOk(run.steps[i].request.presented.claims, run.steps[i].now)
  {
    hide Inv, Evolves, ConsumeGrant, ReceiptAnswers, GrantClaimsOk, CapabilityLost, IsPublished;
    StepKeeps(run, i);
    StepIsOwn(run, i);
    assert run.StepOk(i);
    ConsumeExact(run.states[i], run.steps[i].now, run.steps[i].request.presented);
  }

  lemma IssueGrantJti(s: State, now: time, header: Option<string>, r: GrantRequest, jti: string)
    ensures var (v, o) := IssueGrant(s, now, header, r, jti);
      if o.reply.GrantIssued? then o.reply.grant.jti == jti && v.signedGrants == s.signedGrants + {o.reply.grant}
      else v.signedGrants == s.signedGrants
  {
    hide SessionFromHeaders, SafeFile, ArtifactAllows, GrantRequestOk, SignedBy, HasGrantCapabilities, NonceFree,
      NonceTried;
  }

  lemma ReceiptAt(run: Run, i: nat)
    requires run.Valid() && i < |run.steps| && run.ReplyOf(i).ReceiptIssued?
    ensures run.steps[i].request.DoConsumeGrant?
    ensures ReceiptSound(run.states[i], run.states[i + 1], run.steps[i].now, run.ReplyOf(i).receipt,
      run.steps[i].request.presented)
  {
    hide ConsumeGrant, ReceiptSound;
    StepIsOwn(run, i);
    assert run.StepOk(i);
    ConsumeGrantSound(run.states[i], run.steps[i].now, run.steps[i].request.presented);
  }

  // ---------------------------------------------------- one receipt per grant --

  /** No run yields two receipts for one grant, although reservations are pruned. */
  lemma OneReceiptPerGrant(run: Run, i: nat, j: nat)
    requires run.Valid() && i < j < |run.steps|
    requires run.ReplyOf(i).ReceiptIssued? && run.ReplyOf(j).ReceiptIssued?
    ensures run.ReplyOf(i).receipt.grantJti != run.ReplyOf(j).receipt.grantJti
  {
    hide Inv, Handle, DrawsFresh, Evolves, NonceFree;
    ReceiptAt(run, i);
    ReceiptAt(run, j);
    SignedStays(run, i + 1, j);
    StepKeeps(run, j);
    NoReceiptYet(run.states[j], run.steps[j].request.presented.claims, run.ReplyOf(i).receipt, run.steps[j].now);
  }

  lemma GrantsAfter(run: Run, i: nat, g: GrantClaims)
    requires run.Valid() && i < |run.steps| && g in run.states[i + 1].signedGrants && g !in run.states[i].signedGrants
    ensures run.ReplyOf(i) == GrantIssued(g)
  {
    hide IssueGrant;
    StepIsOwn(run, i);
    assert run.StepOk(i);
    var r := run.steps[i].request;
    IssueGrantJti(run.states[i], run.steps[i].now, r.header, r.grantRequest, r.freshJti);
  }

  lemma {:induction false} SignedWasIssued(run: Run, j: nat, g: GrantClaims) returns (i: nat)
    requires run.Valid() && j <= |run.steps| && g in run.states[j].signedGrants
    ensures i < j && run.ReplyOf(i) == GrantIssued(g)
  {
    if j == 0 {
      assert false;
    } else if g in run.states[j - 1].signedGrants {
      i := SignedWasIssued(run, j - 1, g);
    } else {
      i := j - 1;
      GrantsAfter(run, i, g);
    }
  }

  lemma ConsumeSigns(s: State, now: time, p: PresentedGrant)
    ensures var (v, o) := ConsumeGrant(s, now, p);
      v.signedReceipts == if o.reply.ReceiptIssued? then s.signedReceipts + {o.reply.receipt} else s.signedReceipts
  {
    hide ValidateGrant, NonceFree, NonceTried, Receipt;
  }

  lemma ReceiptsAfter(run: Run, i: nat, q: ReceiptClaims)
    requires run.Valid() && i < |run.steps| && q in run.states[i + 1].signedReceipts
      && q !in run.states[i].signedReceipts
    ensures run.ReplyOf(i) == ReceiptIssued(q)
  {
    hide ConsumeGrant;
    StepIsOwn(run, i);
    assert run.StepOk(i);
    ConsumeSigns(run.states[i], run.steps[i].now, run.steps[i].request.presented);
  }

  lemma {:induction false} ReceiptWasIssued(run: Run, j: nat, q: ReceiptClaims) returns (i: nat)
    requires run.Valid() && j <= |run.steps| && q in run.states[j].signedReceipts
    ensures i < j && run.ReplyOf(i) == ReceiptIssued(q)
  {
    if j == 0 {
      assert false;
    } else if q in run.states[j - 1].signedReceipts {
      i := ReceiptWasIssued(run, j - 1, q);
    } else {
      i := j - 1;
      ReceiptsAfter(run, i, q);
    }
  }

  /** No two grants of a run carry the same JTI. */
  lemma GrantJtisDiffer(run: Run, i: nat, j: nat)
    requires run.Valid() && i < j < |run.steps| && run.ReplyOf(i).GrantIssued? && run.ReplyOf(j).GrantIssued?
    ensures run.ReplyOf(i).grant.jti != run.ReplyOf(j).grant.jti
  {
    GrantAt(run, i);
    GrantAt(run, j);
    SignedStays(run, i + 1, j);
  }

  /** Every receipt traces back to exactly one earlier grant, with the same client, device,
      session, version, artifact, hash, action, VM and instance; it expires with the grant or
      before, and the grant with the session, as it was at issue, or before. The receipt is issued by
      the service for the gate; and the client's device had signed a request for this very artifact,
      action, VM and instance. */
  lemma ReceiptTracesBack(run: Run, j: nat) returns (i: nat)
    requires run.Valid() && j < |run.steps| && run.ReplyOf(j).ReceiptIssued?
    ensures i < j && run.ReplyOf(i).GrantIssued?
    ensures var g := run.ReplyOf(i).grant;
      && ReceiptOf(run.ReplyOf(j).receipt, g)
      && g.sessionId in run.states[i].sessions && g.exp <= run.states[i].sessions[g.sessionId].exp
      && ReceiptAnswers(run.steps[j].now, g, run.ReplyOf(j).receipt)
    ensures run.steps[i].request.DoIssueGrant?
    ensures var s, r, g := run.states[i], run.steps[i].request.grantRequest, run.ReplyOf(i).grant;
      GrantAnswers(s, run.steps[i].now, g.sessionId, r, g) && AskedFor(s, g.clientId, r)
    ensures forall k | 0 <= k < |run.steps| && run.ReplyOf(k).GrantIssued? ::
      run.ReplyOf(k).grant.jti == run.ReplyOf(j).receipt.grantJti ==> k == i
  {
    hide Handle, DrawsFresh, Initial, GrantAnswers, AskedFor, ReceiptAnswers, Inv;
    ReceiptAt(run, j);
    ReceiptIsFor(run, j);
    StepKeeps(run, j);
    var g := run.steps[j].request.presented.claims;
    i := SignedWasIssued(run, j, g);
    GrantAt(run, i);
    GrantWasAsked(run, i);
    NewReceiptIsOf(run.states[j], g, run.steps[j].now);
    OnlyGrantOfItsJti(run, i);
  }

  lemma NewReceiptIsOf(s: State, g: GrantClaims, now: time)
    requires Inv(s, now) && g in s.signedGrants && now < g.exp
    ensures ReceiptOf(Receipt(g, now), g)
  {
    hide ReceiptsIn, OneLive, SessionsIn, IndexOk;
    assert GrantOk(s, g, now);
  }

  lemma OnlyGrantOfItsJti(run: Run, i: nat)
    requires run.Valid() && i < |run.steps| && run.ReplyOf(i).GrantIssued?
    ensures forall k | 0 <= k < |run.steps| && run.ReplyOf(k).GrantIssued? ::
      run.ReplyOf(k).grant.jti == run.ReplyOf(i).grant.jti ==> k == i
  {
    hide Handle, DrawsFresh, Initial;
    var jti := run.ReplyOf(i).grant.jti;
    forall k | 0 <= k < |run.steps| && run.ReplyOf(k).GrantIssued? && run.ReplyOf(k).grant.jti == jti
      ensures k == i
    {
      if k < i {
        GrantJtisDiffer(run, k, i);
      } else if i < k {
        GrantJtisDiffer(run, i, k);
      }
    }
  }

  lemma ReleaseAt(run: Run, j: nat)
    requires run.Valid() && j < |run.steps| && run.ReplyOf(j).ArtifactReleased?
    ensures run.steps[j].request.DoReleaseGrant?
    ensures ReleaseSound(run.states[j], run.steps[j].now, run.steps[j].request.presented,
      run.ReplyOf(j).artifactId, run.ReplyOf(j).file)
  {
    hide ReleaseGrant, ReleaseSound;
    StepIsOwn(run, j);
    assert run.StepOk(j);
    ReleaseGrantSound(run.states[j], run.steps[j].now, run.steps[j].request.presented, run.steps[j].request.again);
  }

  /** Every released artifact belongs to a grant that the run issued earlier and that has not
      expired: same artifact, and the hash of what is released is the one the grant names. */
  lemma ReleaseTracesBack(run: Run, j: nat) returns (i: nat)
    requires run.Valid() && j < |run.steps| && run.ReplyOf(j).ArtifactReleased?
    ensures i < j && run.ReplyOf(i).GrantIssued? && run.steps[j].request.DoReleaseGrant?
    ensures run.ReplyOf(i).grant == run.steps[j].request.presented.claims && run.steps[i].request.DoIssueGrant?
    ensures var s, r, g := run.states[i], run.steps[i].request.grantRequest, run.ReplyOf(i).grant;
      GrantAnswers(s, run.steps[i].now, g.sessionId, r, g) && AskedFor(s, g.clientId, r)
    ensures ReleaseSound(run.states[j], run.steps[j].now, run.steps[j].request.presented,
      run.ReplyOf(j).artifactId, run.ReplyOf(j).file)
  {
    ReleaseAt(run, j);
    i := SignedWasIssued(run, j, run.steps[j].request.presented.claims);
    GrantWasAsked(run, i);
  }

  // ------------------------------------------------------------ registration --

  /** The challenge that a step answers a registration with, and for which client. */
  predicate Challenges(y: Reply, id: string)
  {
    y.Registered? && y.clientId == id
  }

  lemma RegisterChallenges(s: State, now: time, q: RegisterRequest, client: string, challenge: string)
    ensures var (t, o) := Register(s, now, q, client, challenge);
      if o.reply.Registered? then
        && o.reply.challenge == challenge
        && t.challenges == s.challenges[
             o.reply.clientId := Challenge(challenge, q.version, SatAdd(now, CHALLENGE_TTL_SECS))]
      else t.challenges == s.challenges
  {
  }

  lemma CompleteChallenges(s: State, now: time, id: string, challenge: string, signature: string)
    ensures var (t, o) := Complete(s, now, id, challenge, signature);
      t.challenges == if o.reply.RegistrationCompleted? then s.challenges - {id} else s.challenges
    ensures var (t, o) := Complete(s, now, id, challenge, signature);
      o.reply.RegistrationCompleted? ==> o.reply.clientId == id
  {
    hide RegistrationUpdated, SignedBy;
  }

  /** An open challenge of a client after a step is one that the step issued, or was open before
      and has not been answered. */
  lemma ChallengeStep(run: Run, i: nat, id: string)
    requires run.Valid() && i < |run.steps| && id in run.states[i + 1].challenges
    ensures if Challenges(run.ReplyOf(i), id) then
        && run.steps[i].request.DoRegister? && run.ReplyOf(i).challenge == run.steps[i].request.freshChallenge
        && run.states[i + 1].challenges[id].text == run.ReplyOf(i).challenge
        && run.states[i + 1].challenges[id].expiresAt == SatAdd(run.steps[i].now, CHALLENGE_TTL_SECS)
      else
        && run.ReplyOf(i) != RegistrationCompleted(id)
        && id in run.states[i].challenges && run.states[i].challenges[id] == run.states[i + 1].challenges[id]
  {
    hide Register, Complete, SatAdd;
    StepIsOwn(run, i);
    assert run.StepOk(i);
    var s, now, r := run.states[i], run.steps[i].now, run.steps[i].request;
    if r.DoRegister? {
      RegisterChallenges(s, now, r.register, r.freshClient, r.freshChallenge);
    } else if r.DoComplete? {
      CompleteChallenges(s, now, r.clientId, r.challenge, r.signature);
    }
  }

  /** Step `i` issued to the client the challenge that it has at step `j`, and nothing between the
      two steps replaced or answered it. */
  ghost predicate IssuedAt(run: Run, i: nat, j: nat, id: string, challenge: string)
    requires |run.outcomes| == |run.steps|
  {
    && i < j <= |run.steps| && run.steps[i].request.DoRegister? && run.steps[i].request.freshChallenge == challenge
    && run.ReplyOf(i) == Registered(id, challenge)
    && forall k | i < k < j :: !Challenges(run.ReplyOf(k), id) && run.ReplyOf(k) != RegistrationCompleted(id)
  }

  lemma {:induction false} ChallengeWasIssued(run: Run, j: nat, id: string) returns (i: nat)
    requires run.Valid() && j <= |run.steps| && id in run.states[j].challenges
    ensures IssuedAt(run, i, j, id, run.states[j].challenges[id].text)
    ensures run.states[j].challenges[id].expiresAt == SatAdd(run.steps[i].now, CHALLENGE_TTL_SECS)
  {
    if j == 0 {
      assert false;
    } else {
      ChallengeStep(run, j - 1, id);
      if Challenges(run.ReplyOf(j - 1), id) {
        i := j - 1;
      } else {
        i := ChallengeWasIssued(run, j - 1, id);
      }
    }
  }

  lemma CompletionAt(run: Run, j: nat)
    requires run.Valid() && j < |run.steps| && run.ReplyOf(j).RegistrationCompleted?
    ensures run.steps[j].request.DoComplete? && run.steps[j].request.clientId == run.ReplyOf(j).clientId
    ensures var r := run.steps[j].request;
      MayComplete(run.states[j], run.steps[j].now, r.clientId, r.challenge, r.signature)
  {
    hide Complete, MayComplete;
    StepIsOwn(run, j);
    assert run.StepOk(j);
    var s, now, r := run.states[j], run.steps[j].now, run.steps[j].request;
    CompletionSound(s, now, r.clientId, r.challenge, r.signature);
    CompleteChallenges(s, now, r.clientId, r.challenge, r.signature);
  }

  /** Every completed registration answers the challenge that an earlier register request drew for
      that client, less than five minutes ago, that no step since has replaced or answered, and that
      the key registered for the client has signed. */
  lemma CompletionTracesBack(run: Run, j: nat) returns (i: nat)
    requires run.Valid() && j < |run.steps| && run.ReplyOf(j).RegistrationCompleted?
    ensures run.steps[j].request.DoComplete? && run.steps[j].request.clientId == run.ReplyOf(j).clientId
    ensures IssuedAt(run, i, j, run.ReplyOf(j).clientId, run.steps[j].request.challenge)
    ensures run.steps[j].now < SatAdd(run.steps[i].now, CHALLENGE_TTL_SECS)
    ensures var id, s := run.ReplyOf(j).clientId, run.states[j];
      id in s.clients && SignedBy(s, s.clients[id],
        RegistrationProof(id, run.steps[j].request.challenge), run.steps[j].request.signature)
  {
    CompletionAt(run, j);
    i := ChallengeWasIssued(run, j, run.ReplyOf(j).clientId);
  }

  /** Random challenges: no two register requests draw the same. */
  ghost predicate ChallengesDiffer(run: Run)
  {
    forall i, j | 0 <= i < j < |run.steps| && run.steps[i].request.DoRegister? && run.steps[j].request.DoRegister? ::
      run.steps[i].request.freshChallenge != run.steps[j].request.freshChallenge
  }

  /** No challenge completes a registration twice, for whichever clients. */
  lemma NoChallengeCompletesTwice(run: Run, j: nat, k: nat)
    requires run.Valid() && ChallengesDiffer(run) && j < k < |run.steps|
    requires run.ReplyOf(j).RegistrationCompleted? && run.ReplyOf(k).RegistrationCompleted?
    ensures run.steps[j].request.DoComplete? && run.steps[k].request.DoComplete?
    ensures run.steps[j].request.challenge != run.steps[k].request.challenge
  {
    var i := CompletionTracesBack(run, j);
    var m := CompletionTracesBack(run, k);
    assert run.steps[i].request.freshChallenge == run.steps[m].request.freshChallenge ==> i == m;
  }

  // ------------------------------------------------------------------ replay --

  lemma HeldCarries(s: State, t: State, nonce: string, at: time, before: time, now: time, end: time)
    requires Held(s.nonces, nonce, at, before) && 0 <= before <= now <= end && NoncesEvolve(s.nonces, t.nonces, now)
    ensures Held(t.nonces, nonce, at, end)
  {
  }

  lemma StepNonces(run: Run, i: nat)
    requires run.Valid() && i < |run.steps|
    ensures NoncesEvolve(run.states[i].nonces, run.states[i + 1].nonces, run.steps[i].now)
    ensures 0 <= run.ClockBefore(i) <= run.steps[i].now <= run.ClockBefore(i + 1)
  {
    StepKeeps(run, i);
    InvAt(run, i);
    assert run.StepOk(i);
  }

  lemma {:induction false} ReservationHeld(run: Run, i: nat, j: nat, nonce: string)
    requires run.Valid() && i < j <= |run.steps|
    requires Reserves(run.states[i], run.states[i + 1], run.steps[i].now, nonce)
    ensures Held(run.states[j].nonces, nonce, run.steps[i].now, run.ClockBefore(j))
  {
    hide Handle, Initial, DrawsFresh, Inv;
    StepNonces(run, j - 1);
    if j > i + 1 {
      ReservationHeld(run, i, j - 1, nonce);
      HeldCarries(run.states[j - 1], run.states[j], nonce, run.steps[i].now,
        run.ClockBefore(j - 1), run.steps[j - 1].now, run.ClockBefore(j));
    }
  }

  lemma SignedStep(run: Run, i: nat)
    requires run.Valid() && i < |run.steps| && SignedNonce(run.steps[i].request).Some? && run.outcomes[i].reserved.Some?
    ensures Reserves(run.states[i], run.states[i + 1], run.steps[i].now, run.outcomes[i].reserved.value)
    ensures RequestTimeOk(SignedAt(run.steps[i].request).value, run.steps[i].now)
  {
    StepKeeps(run, i);
    assert run.StepOk(i);
    SignedRequestReserves(run.states[i], run.steps[i].now, run.steps[i].request);
  }

  /** A reservation that is gone belongs to a request older than any the window now admits. */
  lemma PrunedIsTooOld(s: State, nonce: string, first: time, iat: time, clock: time, again: time, iat': time)
    requires Held(s.nonces, nonce, first, clock) && 0 <= first <= clock <= again && NonceFree(s, nonce, again)
    requires RequestTimeOk(iat, first) && RequestTimeOk(iat', again)
    ensures iat < iat'
  {
  }

  /** A signed session, heartbeat or grant request never reserves its nonce twice: two requests
      of a run that reserve the same nonce were signed at different times, the later one later. */
  lemma NoReplay(run: Run, i: nat, j: nat)
    requires run.Valid() && i < j < |run.steps|
    requires SignedNonce(run.steps[i].request).Some? && SignedNonce(run.steps[j].request).Some?
    requires run.outcomes[i].reserved.Some? && run.outcomes[i].reserved == run.outcomes[j].reserved
    ensures SignedAt(run.steps[i].request).value < SignedAt(run.steps[j].request).value
  {
    hide Inv, Handle, DrawsFresh, Reserves, Held, RequestTimeOk;
    SignedStep(run, i);
    SignedStep(run, j);
    ReservationHeld(run, i, j, run.outcomes[i].reserved.value);
    ClockGrows(run, i, j - 1);
    StepNonces(run, i);
    StepNonces(run, j - 1);
    StepNonces(run, j);
    PrunedIsTooOld(run.states[j], run.outcomes[i].reserved.value, run.steps[i].now,
      SignedAt(run.steps[i].request).value,
      run.ClockBefore(j), run.steps[j].now, SignedAt(run.steps[j].request).value);
  }

  /** The retention time is exactly what the request window needs: some request would be accepted
      again after its reservation was pruned if and only if the retention were shorter. */
  lemma RetentionIsTight(retention: nat)
    ensures retention >= NONCE_RETENTION_SECS <==>
      forall iat: time, first: time, again: time ::
        0 <= first <= again && RequestTimeOk(iat, first) && RequestTimeOk(iat, again) ==> first >= again - retention
  {
    if retention < NONCE_RETENTION_SECS {
      assert RequestTimeOk(600, 300) && RequestTimeOk(600, 900);
    }
  }

  // -------------------------------------------------------- session discipline --

  /** While a session is not revoked, its client still has the registered version that every
      lease of the session names. */
  lemma {:induction false} VersionBound(run: Run, i: nat, j: nat)
    requires run.Valid() && i < j <= |run.steps| && run.ReplyOf(i).LeaseIssued?
    ensures var l := run.ReplyOf(i).lease;
      && l.sessionId in run.states[j].sessions && l.clientId in run.states[j].clients
      && run.states[j].sessions[l.sessionId].clientId == l.clientId
      && (!run.states[j].sessions[l.sessionId].revoked ==> run.states[j].clients[l.clientId].version == l.clientVersion)
  {
    hide Inv, Handle, DrawsFresh, Initial, AllEntitled;
    var l := run.ReplyOf(i).lease;
    if j == i + 1 {
      LeaseAt(run, i);
    } else {
      VersionBound(run, i, j - 1);
      StepKeeps(run, j - 1);
      assert SessionEvolves(run.states[j - 1].sessions[l.sessionId], run.states[j].sessions[l.sessionId],
        run.steps[j - 1].now);
    }
  }

  lemma RequestNeverOutdated(s: State, now: time, r: Request, clock: time)
    requires GrantsOk(s, clock) && (r.DoReleaseGrant? || r.DoConsumeGrant?)
    ensures Handle(s, now, r).1.reply != Failed(ClientOutdated)
  {
    hide GrantsOk, ValidateGrant, NonceTried, NonceFree, Receipt;
    NeverOutdated(s, r.presented, now, clock);
  }

  /** In no run is a grant refused because its client version is outdated. */
  lemma OutdatedGrantUnreachable(run: Run, i: nat)
    requires run.Valid() && i < |run.steps|
    requires run.steps[i].request.DoReleaseGrant? || run.steps[i].request.DoConsumeGrant?
    ensures run.ReplyOf(i) != Failed(ClientOutdated)
  {
    InvAt(run, i);
    assert run.StepOk(i);
    RequestNeverOutdated(run.states[i], run.steps[i].now, run.steps[i].request, run.ClockBefore(i));
  }

}
