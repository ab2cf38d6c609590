/** The command line's side of the authorization protocol: what `redroid create` checks before it
    starts a container, and its ledger of receipts already used on this host. */
module CliGate {
  import opened Bytes
  import opened Text
  import opened AuthModel
  import opened AuthTables
  import opened AuthHandlers
  import opened AuthInvariant
  import opened AuthFacts
  import opened AuthAnswers
  import opened AuthRuns

  const GRANT_MAX_REQUEST_AGE_SECS: time := 5 * 60
  const MAX_FIELD_BYTES := 256

  datatype GateError =
    | GrantUnreadable | GrantProofMissing | GrantUntrusted | GrantIssuer | GrantIncomplete | GrantExpired
    | GrantOtherTarget
    | AuthorizationPath | OtherArgument | PreflightFailed
    | ReceiptUnreadable | ReceiptUntrusted | ReceiptIssuer | ReceiptIncomplete | ReceiptExpired | ReceiptOtherGrant
    | JtiInvalid | AlreadyConsumed | LedgerUnwritable

  /** The grant file: `readable` when it is a regular file of at most 64 KiB that parses, `intact`
      when its key is in the ring and its signature verifies. The keys of the ring are the
      service's, so the claims of an intact file are claims the service signed. */
  datatype GrantFile = GrantFile(readable: bool, deviceProof: Option<string>, claims: GrantClaims, intact: bool)

  /** The receipt the guest holds, likewise. */
  datatype ReceiptFile = ReceiptFile(readable: bool, claims: ReceiptClaims, intact: bool)

  /** One `redroid create`: what it is given, the clock readings of its two checks, whether its
      remaining arguments are accepted, what the guest answers, and whether the ledger is writable. */
  datatype Attempt = Attempt(
    grant: GrantFile, vm: string, instance: string, authorizationPath: string, otherArgumentsOk: bool,
    receipt: Option<ReceiptFile>, grantClock: time, receiptClock: time, ledgerWritable: bool)

  // ----------------------------------------------------------------- checks --

  predicate GrantComplete(g: GrantClaims)
  {
    && g.clientId != "" && g.deviceId != "" && g.sessionId != "" && g.clientVersion != "" && g.artifactId != ""
    && g.action != "" && g.vm != "" && g.instance != ""
    && g.jti != "" && Utf8Length(g.jti) <= MAX_FIELD_BYTES && g.nonce != "" && Utf8Length(g.nonce) <= MAX_FIELD_BYTES
    && IsSha256(g.sha256)
  }

  function VerifyGrant(signed: set<GrantClaims>, f: GrantFile, vm: string, instance: string,
      now: time): (r: Result<GrantClaims, GateError>)
  {
    var g := f.claims;
    if !f.readable then Err(GrantUnreadable)
    else if f.deviceProof.None? || f.deviceProof.value == "" then Err(GrantProofMissing)
    else if !f.intact || g !in signed then Err(GrantUntrusted)
    else if g.iss != "rdc-auth" || g.aud != "rdc-guest-runner" then Err(GrantIssuer)
    else if !GrantComplete(g) then Err(GrantIncomplete)
    else if g.exp <= now || g.iat < SatSub(now, GRANT_MAX_REQUEST_AGE_SECS) || g.iat > SatAdd(now, 300)
      || g.exp <= g.iat
    then Err(GrantExpired)
    else if g.action != "preset_apply" || g.vm != vm || g.instance != instance then Err(GrantOtherTarget)
    else Ok(g)
  }

  predicate ReceiptComplete(r: ReceiptClaims)
  {
    && r.clientId != "" && r.deviceId != "" && r.sessionId != "" && r.clientVersion != "" && r.artifactId != ""
    && r.action != "" && r.vm != "" && r.instance != "" && r.grantJti != "" && IsSha256(r.sha256)
  }

  predicate EqualIgnoringCase(a: string, b: string)
  {
    |a| == |b| && forall i :: 0 <= i < |a| ==> LowerChar(a[i]) == LowerChar(b[i])
  }

  /** The receipt is for this very grant, field by field. */
  predicate BoundTo(r: ReceiptClaims, g: GrantClaims)
  {
    && r.clientId == g.clientId && r.deviceId == g.deviceId && r.sessionId == g.sessionId
    && r.clientVersion == g.clientVersion && r.artifactId == g.artifactId && EqualIgnoringCase(r.sha256, g.sha256)
    && r.action == g.action && r.vm == g.vm && r.instance == g.instance && r.grantJti == g.jti
  }

  function VerifyReceipt(signed: set<ReceiptClaims>, f: ReceiptFile, g: GrantClaims,
      now: time): (r: Result<ReceiptClaims, GateError>)
  {
    var q := f.claims;
    if !f.readable then Err(ReceiptUnreadable)
    else if !f.intact || q !in signed then Err(ReceiptUntrusted)
    else if q.iss != "rdc-auth" || q.aud != "rdc-qemu-center" then Err(ReceiptIssuer)
    else if !ReceiptComplete(q) then Err(ReceiptIncomplete)
    else if q.exp <= now || q.iat > SatAdd(now, 300) || q.exp <= q.iat then Err(ReceiptExpired)
    else if !BoundTo(q, g) then Err(ReceiptOtherGrant)
    else Ok(q)
  }

  predicate HasDotDot(path: string)
  {
    exists i :: 0 <= i < |path| - 1 && path[i] == '.' && path[i + 1] == '.'
  }

  predicate AuthorizationPathOk(path: string)
  {
    && "/run/rdc-presets/" <= path && !HasDotDot(path)
    && '\n' !in path && '\r' !in path && '\0' !in path && path[|path| - 1] != '/'
  }

  predicate JtiOk(jti: string)
  {
    !IsBlank(jti) && Utf8Length(jti) <= 256 && '\0' !in jti && '\n' !in jti && '\r' !in jti
  }

  /** The ledger holds one file per JTI, named injectively; a file is created only if none of that
      name exists. */
  function ConsumeOnce(ledger: set<string>, jti: string, writable: bool): (x: (set<string>, Result<string, GateError>))
  {
    if !JtiOk(jti) then (ledger, Err(JtiInvalid))
    else if jti in ledger then (ledger, Err(if writable then AlreadyConsumed else LedgerUnwritable))
    else if !writable then (ledger, Err(LedgerUnwritable))
    else (ledger + {jti}, Ok(jti))
  }

  /** The whole gate: the ledger afterwards, and the grant that opened it. */
  function Gate(ledger: set<string>, s: State, a: Attempt): (x: (set<string>, Result<GrantClaims, GateError>))
  {
    match VerifyGrant(s.signedGrants, a.grant, a.vm, a.instance, a.grantClock)
    case Err(e) => (ledger, Err(e))
    case Ok(g) =>
      if !AuthorizationPathOk(a.authorizationPath) then (ledger, Err(AuthorizationPath))
      else if !a.otherArgumentsOk then (ledger, Err(OtherArgument))
      else if a.receipt.None? then (ledger, Err(PreflightFailed))
      else
        match VerifyReceipt(s.signedReceipts, a.receipt.value, g, a.receiptClock)
        case Err(e) => (ledger, Err(e))
        case Ok(_) =>
          var (after, used) := ConsumeOnce(ledger, g.jti, a.ledgerWritable);
          (after, if used.Err? then Err(used.error) else Ok(g))
  }

  /** The state directory of one host, with the ledger updated in place. */
  class Host {
    var ledger: set<string>

    constructor ()
      ensures ledger == {}
    {
      ledger := {};
    }

    method ConsumeReceiptOnce(jti: string, writable: bool) returns (r: Result<string, GateError>)
      modifies this
      ensures (ledger, r) == ConsumeOnce(old(ledger), jti, writable)
    {
      if IsBlank(jti) || Utf8Length(jti) > 256 || '\0' in jti || '\n' in jti || '\r' in jti {
        return Err(JtiInvalid);
      }
      if !writable {
        return Err(LedgerUnwritable);
      }
      if jti in ledger {
        return Err(AlreadyConsumed);
      }
      ledger := ledger + {jti};
      r := Ok(jti);
    }

    method Authorize(s: State, a: Attempt) returns (r: Result<GrantClaims, GateError>)
      modifies this
      ensures (ledger, r) == Gate(old(ledger), s, a)
    {
      var grant := VerifyGrant(s.signedGrants, a.grant, a.vm, a.instance, a.grantClock);
      if grant.Err? {
        return Err(grant.error);
      }
      if !AuthorizationPathOk(a.authorizationPath) {
        return Err(AuthorizationPath);
      }
      if !a.otherArgumentsOk {
        return Err(OtherArgument);
      }
      if a.receipt.None? {
        return Err(PreflightFailed);
      }
      var receipt := VerifyReceipt(s.signedReceipts, a.receipt.value, grant.value, a.receiptClock);
      if receipt.Err? {
        return Err(receipt.error);
      }
      var used := ConsumeReceiptOnce(grant.value.jti, a.ledgerWritable);
      if used.Err? {
        return Err(used.error);
      }
      r := grant;
    }
  }

  // --------------------------------------------- runs of service and host --

  /** A run of the service, and the attempts on one host, each made after some step of that run.
      The host's clock is not the service's, and may show anything. */
  datatype Joint = Joint(
    service: Run, attempts: seq<Attempt>, after: seq<nat>,
    ledgers: seq<set<string>>, results: seq<Result<GrantClaims, GateError>>)
  {
    ghost predicate Valid() {
      && service.Valid() && |after| == |attempts| == |results| && |ledgers| == |attempts| + 1
      && (forall i :: 0 <= i < |after| ==> after[i] <= |service.steps|)
      && forall i :: 0 <= i < |attempts| ==> AttemptOk(i)
    }

    ghost predicate AttemptOk(i: nat)
      requires |after| == |attempts| == |results| && |ledgers| == |attempts| + 1 && i < |attempts|
      requires |service.states| == |service.steps| + 1 && after[i] <= |service.steps|
    {
      Gate(ledgers[i], service.states[after[i]], attempts[i]) == (ledgers[i + 1], results[i])
    }

    predicate Passes(i: nat) {
      i < |results| && results[i].Ok?
    }
  }

  lemma GatePasses(ledger: set<string>, s: State, a: Attempt, after: set<string>, g: GrantClaims)
    requires Gate(ledger, s, a) == (after, Ok(g))
    ensures g.jti !in ledger && after == ledger + {g.jti}
    ensures g == a.grant.claims && g in s.signedGrants && g.action == "preset_apply" && g.vm == a.vm
      && g.instance == a.instance
    ensures a.receipt.Some?
    ensures var q := a.receipt.value.claims;
      q in s.signedReceipts && BoundTo(q, g) && a.receiptClock < q.exp && q.iat <= SatAdd(a.receiptClock, 300)
  {
  }

  /** Every check of the gate, in terms of the files, the clocks, the arguments and the ledger. */
  ghost predicate MayPass(ledger: set<string>, s: State, a: Attempt)
  {
    var g := a.grant.claims;
    && a.grant.readable && a.grant.deviceProof.Some? && a.grant.deviceProof.value != "" && a.grant.intact
    && g in s.signedGrants && g.iss == "rdc-auth" && g.aud == "rdc-guest-runner" && GrantComplete(g)
    && GrantTimely(g, a.grantClock) && g.action == "preset_apply" && g.vm == a.vm && g.instance == a.instance
    && AuthorizationPathOk(a.authorizationPath) && a.otherArgumentsOk && a.receipt.Some?
    && var q := a.receipt.value.claims;
    && a.receipt.value.readable && a.receipt.value.intact && q in s.signedReceipts
    && q.iss == "rdc-auth" && q.aud == "rdc-qemu-center" && ReceiptComplete(q) && ReceiptTimely(q, a.receiptClock)
    && BoundTo(q, g) && JtiOk(g.jti) && g.jti !in ledger && a.ledgerWritable
  }

  /** Not expired, and issued at most five minutes before or after the clock. */
  predicate GrantTimely(g: GrantClaims, clock: time)
  {
    clock < g.exp && SatSub(clock, 300) <= g.iat <= SatAdd(clock, 300) && g.iat < g.exp
  }

  predicate ReceiptTimely(q: ReceiptClaims, clock: time)
  {
    clock < q.exp && q.iat <= SatAdd(clock, 300) && q.iat < q.exp
  }

  /** An accepted authorization path names something in the directory of the presets, and climbs out of no
      directory. */
  lemma PathStaysInside(before: string, after: string)
    ensures !AuthorizationPathOk(before + ".." + after)
    ensures AuthorizationPathOk(before) ==> exists rest :: rest != "" && before == "/run/rdc-presets/" + rest
  {
    if AuthorizationPathOk(before) {
      assert before == "/run/rdc-presets/" + before[17..];
    }
    var path := before + ".." + after;
    assert path[|before|] == '.' && path[|before| + 1] == '.';
  }

  lemma VerifyGrantExact(signed: set<GrantClaims>, f: GrantFile, vm: string, instance: string, now: time)
    ensures var r, g := VerifyGrant(signed, f, vm, instance, now), f.claims;
      && (r.Ok? <==>
           && f.readable && f.deviceProof.Some? && f.deviceProof.value != "" && f.intact && g in signed
           && g.iss == "rdc-auth" && g.aud == "rdc-guest-runner" && GrantComplete(g) && GrantTimely(g, now)
           && g.action == "preset_apply" && g.vm == vm && g.instance == instance)
      && (r.Ok? ==> r.value == g)
  {
    hide GrantComplete;
  }

  lemma VerifyReceiptExact(signed: set<ReceiptClaims>, f: ReceiptFile, g: GrantClaims, now: time)
    ensures VerifyReceipt(signed, f, g, now).Ok? <==>
      && f.readable && f.intact && f.claims in signed && f.claims.iss == "rdc-auth" && f.claims.aud == "rdc-qemu-center"
      && ReceiptComplete(f.claims) && ReceiptTimely(f.claims, now) && BoundTo(f.claims, g)
  {
    hide ReceiptComplete, BoundTo;
  }

  /** The gate opens if and only if every check passes; then, and only then, the JTI enters the ledger. */
  lemma GateExact(ledger: set<string>, s: State, a: Attempt)
    ensures var (after, r) := Gate(ledger, s, a);
      && (r.Ok? <==> MayPass(ledger, s, a))
      && (r.Ok? ==> r.value == a.grant.claims && after == ledger + {r.value.jti})
      && (r.Err? ==> after == ledger)
  {
    VerifyGrantExact(s.signedGrants, a.grant, a.vm, a.instance, a.grantClock);
    if a.receipt.Some? {
      VerifyReceiptExact(s.signedReceipts, a.receipt.value, a.grant.claims, a.receiptClock);
    }
    hide VerifyGrant, VerifyReceipt, GrantComplete, ReceiptComplete, BoundTo, GrantTimely, ReceiptTimely, JtiOk;
    hide AuthorizationPathOk;
  }

  /** Why the gate stays closed: the first check that fails. */
  lemma GateRefuses(ledger: set<string>, s: State, a: Attempt)
    requires Gate(ledger, s, a).1.Err?
    ensures var g := a.grant.claims;
      match Gate(ledger, s, a).1.error
      case GrantUnreadable => !a.grant.readable
      case GrantProofMissing => a.grant.deviceProof.None? || a.grant.deviceProof.value == ""
      case GrantUntrusted => !a.grant.intact || g !in s.signedGrants
      case GrantIssuer => g.iss != "rdc-auth" || g.aud != "rdc-guest-runner"
      case GrantIncomplete => !GrantComplete(g)
      case GrantExpired => !GrantTimely(g, a.grantClock)
      case GrantOtherTarget => g.action != "preset_apply" || g.vm != a.vm || g.instance != a.instance
      case AuthorizationPath => !AuthorizationPathOk(a.authorizationPath)
      case OtherArgument => !a.otherArgumentsOk
      case PreflightFailed => a.receipt.None?
      case JtiInvalid => !JtiOk(g.jti)
      case AlreadyConsumed => g.jti in ledger
      case LedgerUnwritable => !a.ledgerWritable
      case e =>
        && a.receipt.Some?
        && var f, q := a.receipt.value, a.receipt.value.claims;
        match e
        case ReceiptUnreadable => !f.readable
        case ReceiptUntrusted => !f.intact || q !in s.signedReceipts
        case ReceiptIssuer => q.iss != "rdc-auth" || q.aud != "rdc-qemu-center"
        case ReceiptIncomplete => !ReceiptComplete(q)
        case ReceiptExpired => !ReceiptTimely(q, a.receiptClock)
        case _ => !BoundTo(q, g)
  {
    hide GrantComplete, ReceiptComplete, BoundTo, JtiOk, AuthorizationPathOk;
  }

  /** An attempt that would pass but for a ledger that holds its JTI is refused for exactly that reason. */
  lemma RepeatIsRefused(ledger: set<string>, s: State, a: Attempt)
    requires MayPass({}, s, a) && a.grant.claims.jti in ledger
    ensures Gate(ledger, s, a) == (ledger, Err(AlreadyConsumed))
  {
    VerifyGrantExact(s.signedGrants, a.grant, a.vm, a.instance, a.grantClock);
    VerifyReceiptExact(s.signedReceipts, a.receipt.value, a.grant.claims, a.receiptClock);
    hide VerifyGrant, VerifyReceipt, GrantComplete, ReceiptComplete, BoundTo, GrantTimely, ReceiptTimely, JtiOk;
    hide AuthorizationPathOk;
  }

  lemma GateOnlyAdds(ledger: set<string>, s: State, a: Attempt)
    ensures ledger <= Gate(ledger, s, a).0
  {
  }

  lemma {:induction false} LedgerGrows(j: Joint, i: nat, k: nat)
    requires j.Valid() && i <= k <= |j.attempts|
    ensures j.ledgers[i] <= j.ledgers[k]
  {
    if i < k {
      LedgerGrows(j, i, k - 1);
      assert j.AttemptOk(k - 1);
      GateOnlyAdds(j.ledgers[k - 1], j.service.states[j.after[k - 1]], j.attempts[k - 1]);
    }
  }

  lemma PassAt(j: Joint, i: nat)
    requires j.Valid() && j.Passes(i)
    ensures var g, s, a := j.results[i].value, j.service.states[j.after[i]], j.attempts[i];
      && g.jti !in j.ledgers[i] && j.ledgers[i + 1] == j.ledgers[i] + {g.jti}
      && g == a.grant.claims && g in s.signedGrants && g.action == "preset_apply" && g.vm == a.vm
      && g.instance == a.instance
      && a.receipt.Some? && a.receipt.value.claims in s.signedReceipts && BoundTo(a.receipt.value.claims, g)
      && a.receiptClock < a.receipt.value.claims.exp
  {
    assert j.AttemptOk(i);
    GatePasses(j.ledgers[i], j.service.states[j.after[i]], j.attempts[i], j.ledgers[i + 1], j.results[i].value);
  }

  /** Once an attempt has passed with a JTI, no later attempt on the same state directory passes
      with it, whatever the clocks say. */
  lemma OnePassPerJti(j: Joint, i: nat, k: nat)
    requires j.Valid() && j.Passes(i) && j.Passes(k) && i < k
    ensures j.results[i].value.jti != j.results[k].value.jti
  {
    PassAt(j, i);
    PassAt(j, k);
    LedgerGrows(j, i + 1, k);
  }

  /** What the gate implies about the service's past: at step `issued` the service issued this very
      grant, and at the later step `consumed` it consumed it and returned this very receipt. */
  ghost predicate Authorized(run: Run, a: Attempt, g: GrantClaims, issued: nat, consumed: nat)
  {
    && run.Valid() && issued < consumed < |run.steps|
    && run.ReplyOf(issued) == GrantIssued(g)
    && a.receipt.Some? && run.ReplyOf(consumed) == ReceiptIssued(a.receipt.value.claims)
    && run.steps[consumed].request.DoConsumeGrant? && run.steps[consumed].request.presented.claims == g
  }

  /** If the gate opens for a VM and an instance, the service consumed this grant earlier, for that
      VM and instance; the client's device had signed a request for this very VM and instance, and
      later the grant, its session was live and entitled;
      and the artifact is the guest script, although the gate checks only the action. */
  lemma PassWasConsumed(j: Joint, i: nat) returns (issued: nat, consumed: nat)
    requires j.Valid() && j.Passes(i)
    ensures consumed < j.after[i] && Authorized(j.service, j.attempts[i], j.results[i].value, issued, consumed)
    ensures var g := j.results[i].value;
      && g.vm == j.attempts[i].vm && g.instance == j.attempts[i].instance
      && g.artifactId == "qemu-guest-script" && j.attempts[i].receiptClock < g.exp
    ensures ReceiptSound(j.service.states[consumed], j.service.states[consumed + 1], j.service.steps[consumed].now,
      j.attempts[i].receipt.value.claims, j.service.steps[consumed].request.presented)
    ensures j.service.steps[issued].request.DoIssueGrant?
    ensures var s, r := j.service.states[issued], j.service.steps[issued].request.grantRequest;
      AskedFor(s, j.results[i].value.clientId, r) && r.vm == j.attempts[i].vm && r.instance == j.attempts[i].instance
  {
    hide Handle, Initial, Gate;
    PassAt(j, i);
    var run, g, q := j.service, j.results[i].value, j.attempts[i].receipt.value.claims;
    consumed := ReceiptWasIssued(run, j.after[i], q);
    ReceiptAt(run, consumed);
    issued := ReceiptTracesBack(run, consumed);
    var h := run.ReplyOf(issued).grant;
    SignedTogether(run, issued, consumed, j.after[i], g, h);
  }

  /** A grant signed at some point of the run with the JTI of one issued earlier is that one, and
      so is the grant the receipt was made from. */
  lemma SignedTogether(run: Run, issued: nat, consumed: nat, later: nat, g: GrantClaims, h: GrantClaims)
    requires run.Valid() && issued < consumed < later <= |run.steps|
    requires run.ReplyOf(issued) == GrantIssued(h) && run.steps[consumed].request.DoConsumeGrant?
    requires run.steps[consumed].request.presented.claims in run.states[consumed].signedGrants
    requires run.steps[consumed].request.presented.claims.jti == h.jti == g.jti && g in run.states[later].signedGrants
    ensures g == h == run.steps[consumed].request.presented.claims
    ensures ArtifactAllows(g.artifactId, g.action)
  {
    hide Handle, Initial, ReceiptsIn, SessionsIn, IndexOk, OneLive;
    GrantAt(run, issued);
    SignedStays(run, issued + 1, later);
    SignedStays(run, consumed, later);
    InvAt(run, later);
    assert GrantOk(run.states[later], g, run.ClockBefore(later));
  }

  /** What is left to check for a grant that the service has consumed, and its receipt. */
  predicate OpensFor(ledger: set<string>, a: Attempt, g: GrantClaims, q: ReceiptClaims)
  {
    && a.grant.deviceProof.Some? && a.grant.deviceProof.value != "" && g.action == "preset_apply"
    && g.vm == a.vm && g.instance == a.instance
    && a.grantClock < g.exp && SatSub(a.grantClock, 300) <= g.iat <= SatAdd(a.grantClock, 300)
    && a.receiptClock < q.exp && q.iat <= SatAdd(a.receiptClock, 300)
    && AuthorizationPathOk(a.authorizationPath) && a.otherArgumentsOk && a.ledgerWritable
    && g.jti !in ledger && '\0' !in g.jti && '\n' !in g.jti && '\r' !in g.jti
  }

  lemma ConsumedIsComplete(g: GrantClaims, q: ReceiptClaims, now: time)
    requires GrantClaimsOk(g, now) && ReceiptAnswers(now, g, q)
    ensures g.iss == "rdc-auth" && g.aud == "rdc-guest-runner" && GrantComplete(g) && g.iat < g.exp
    ensures q.iss == "rdc-auth" && q.aud == "rdc-qemu-center" && ReceiptComplete(q) && BoundTo(q, g)
    ensures JtiOk(g.jti) <==> '\0' !in g.jti && '\n' !in g.jti && '\r' !in g.jti
  {
    hide IsSha256, Utf8Length, LowerChar;
  }

  /** What a consumption leaves behind for good. */
  ghost predicate Settled(s: State, g: GrantClaims, q: ReceiptClaims)
  {
    && g in s.signedGrants && q in s.signedReceipts && g.iat < g.exp && q.iat < q.exp
    && g.iss == "rdc-auth" && g.aud == "rdc-guest-runner" && GrantComplete(g)
    && q.iss == "rdc-auth" && q.aud == "rdc-qemu-center" && ReceiptComplete(q) && BoundTo(q, g)
    && (JtiOk(g.jti) <==> '\0' !in g.jti && '\n' !in g.jti && '\r' !in g.jti)
  }

  lemma ConsumedIsSettled(run: Run, k: nat, later: nat)
    requires run.Valid() && k < later <= |run.steps| && run.ReplyOf(k).ReceiptIssued?
    requires run.steps[k].request.DoConsumeGrant?
    ensures Settled(run.states[later], run.steps[k].request.presented.claims, run.ReplyOf(k).receipt)
  {
    var g, q := run.steps[k].request.presented.claims, run.ReplyOf(k).receipt;
    hide Handle, Initial, Inv, GrantUsable, GrantClaimsOk, ReceiptAnswers, Receipt, GrantComplete, ReceiptComplete;
    hide BoundTo, JtiOk;
    ReceiptAt(run, k);
    ReceiptIsFor(run, k);
    SignedStays(run, k + 1, later);
    SignedStays(run, k, later);
    StepKeeps(run, k);
    GrantRuns(run.states[k], run.steps[k].now, run.steps[k].request.presented);
    NewReceiptIsOf(run.states[k], g, run.steps[k].now);
    ConsumedIsComplete(g, q, run.steps[k].now);
  }

  lemma OpensExactly(ledger: set<string>, s: State, a: Attempt, g: GrantClaims, q: ReceiptClaims)
    requires Settled(s, g, q) && a.grant.readable && a.grant.intact && a.grant.claims == g
    requires a.receipt == Some(ReceiptFile(true, q, true))
    ensures MayPass(ledger, s, a) <==> OpensFor(ledger, a, g, q)
  {
    hide GrantComplete, ReceiptComplete, BoundTo, JtiOk, AuthorizationPathOk;
  }

  /** Whoever presents a grant that the service has consumed together with its receipt passes the gate if
      and only if what is left agrees: the target, the clocks, the arguments, and a ledger that can be
      written and does not hold the JTI. */
  lemma ReceiptOpensGate(j: Joint, i: nat, k: nat)
    requires j.Valid() && i < |j.attempts| && k < j.after[i] && j.service.ReplyOf(k).ReceiptIssued?
    requires j.service.steps[k].request.DoConsumeGrant?
    requires var a, g, q := j.attempts[i], j.service.steps[k].request.presented.claims, j.service.ReplyOf(k).receipt;
      && a.grant.readable && a.grant.intact && a.grant.claims == g
      && a.receipt == Some(ReceiptFile(true, q, true))
    ensures var a, g, q := j.attempts[i], j.service.steps[k].request.presented.claims, j.service.ReplyOf(k).receipt;
      && (j.Passes(i) <==> OpensFor(j.ledgers[i], a, g, q))
      && (j.Passes(i) ==> j.results[i] == Ok(g))
  {
    var run, a := j.service, j.attempts[i];
    var g, q := run.steps[k].request.presented.claims, run.ReplyOf(k).receipt;
    hide Handle, Initial, Gate, Settled, OpensFor, MayPass;
    ConsumedIsSettled(run, k, j.after[i]);
    assert j.AttemptOk(i);
    GateExact(j.ledgers[i], run.states[j.after[i]], a);
    OpensExactly(j.ledgers[i], run.states[j.after[i]], a, g, q);
  }

  lemma GrantRuns(s: State, now: time, p: PresentedGrant)
    requires GrantUsable(s, now, p)
    ensures p.claims in s.signedGrants && now < p.claims.exp
  {
  }

  /** Different attempts that pass rest on different consumptions: a receipt opens the gate of one
      host at most once, and there are no more passes than receipts. */
  lemma PassesRestOnDifferentReceipts(j: Joint, i: nat, k: nat)
    requires j.Valid() && j.Passes(i) && j.Passes(k) && i < k
    ensures exists m, n, m', n' ::
      && Authorized(j.service, j.attempts[i], j.results[i].value, m, n)
      && Authorized(j.service, j.attempts[k], j.results[k].value, m', n') && m != m' && n != n'
  {
    var m, n := PassWasConsumed(j, i);
    var m', n' := PassWasConsumed(j, k);
    OnePassPerJti(j, i, k);
  }

  /** For a grant and a receipt that the service signed, comparing the JTI alone would decide what
      the gate decides by comparing ten fields. */
  lemma JtiDecides(run: Run, at: nat, g: GrantClaims, q: ReceiptClaims)
    requires run.Valid() && at <= |run.steps|
    requires g in run.states[at].signedGrants && q in run.states[at].signedReceipts
    ensures BoundTo(q, g) <==> q.grantJti == g.jti
  {
    InvAt(run, at);
    var s, now := run.states[at], run.ClockBefore(at);
    assert ReceiptOk(s, q, now);
    var h :| h in s.signedGrants && ReceiptOf(q, h);
    if q.grantJti == g.jti {
      assert h == g;
    }
  }
}
