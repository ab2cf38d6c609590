/** Chunked transfers over whole runs: who receives a chunk, how many transfers are open, and what
    the chunks add up to. */
module AuthTransfers {
  import opened Bytes
  import opened AuthModel
  import opened AuthTables
  import opened AuthHandlers
  import opened AuthInvariant
  import opened AuthSteps
  import opened AuthFacts
  import opened AuthRuns

  // ------------------------------------------------------------- arithmetic --

  /** A file gets a manifest only if the saturating addition in its chunk count did not saturate;
      the count is then the number of started chunks, and fits 32 bits. */
  lemma ChunkCountExact(size: nat)
    ensures ChunkCount(size) <= U32_MAX <==> size <= U32_MAX * ARTIFACT_CHUNK_SIZE
    ensures ChunkCount(size) <= U32_MAX ==> ChunkCount(size) == DivCeil(size, ARTIFACT_CHUNK_SIZE)
  {
  }

  lemma CountCovers(size: nat, n: nat)
    requires n == ChunkCount(size) <= U32_MAX
    ensures size <= n * ARTIFACT_CHUNK_SIZE
  {
  }

  function ChunkOf(file: seq<byte>, index: nat): (c: seq<byte>)
    requires index * ARTIFACT_CHUNK_SIZE <= |file|
  {
    var from := index * ARTIFACT_CHUNK_SIZE;
    if |file| - from < ARTIFACT_CHUNK_SIZE then file[from..] else file[from..from + ARTIFACT_CHUNK_SIZE]
  }

  function Joined(parts: seq<seq<byte>>): (s: seq<byte>)
  {
    if parts == [] then [] else Joined(parts[..|parts| - 1]) + parts[|parts| - 1]
  }

  ghost predicate AreChunks(parts: seq<seq<byte>>, file: seq<byte>)
  {
    forall i | 0 <= i < |parts| :: i * ARTIFACT_CHUNK_SIZE < |file| && parts[i] == ChunkOf(file, i)
  }

  lemma NextChunk(file: seq<byte>, n: nat, chunk: seq<byte>)
    requires n * ARTIFACT_CHUNK_SIZE < |file| && chunk == ChunkOf(file, n)
    ensures var start, end := n * ARTIFACT_CHUNK_SIZE, (n + 1) * ARTIFACT_CHUNK_SIZE;
      file[..start] + chunk == if end <= |file| then file[..end] else file
  {
  }

  lemma {:induction false} JoinedIsPrefix(parts: seq<seq<byte>>, file: seq<byte>)
    requires AreChunks(parts, file)
    ensures var end := |parts| * ARTIFACT_CHUNK_SIZE;
      Joined(parts) == if end <= |file| then file[..end] else file
  {
    if parts != [] {
      var n := |parts| - 1;
      var before, chunk := parts[..n], parts[n];
      assert chunk == ChunkOf(file, n);
      JoinedIsPrefix(before, file);
      NextChunk(file, n, chunk);
    }
  }

  /** As many chunks as the manifest counts are the whole file. */
  lemma ChunksJoin(parts: seq<seq<byte>>, file: seq<byte>)
    requires |parts| == ChunkCount(|file|) <= U32_MAX && AreChunks(parts, file)
    ensures Joined(parts) == file
  {
    JoinedIsPrefix(parts, file);
    CountCovers(|file|, |parts|);
    assert file[..|file|] == file;
  }

  /** Chunks of one transfer have different 12-byte nonces, as section 2.8 of RFC 8439 needs. */
  lemma NoncesDiffer(prefix: seq<byte>, i: dword, j: dword)
    requires |prefix| == 8 && i != j
    ensures |ArtifactNonce(prefix, i)| == 12 && ArtifactNonce(prefix, i) != ArtifactNonce(prefix, j)
  {
    var a, b := ArtifactNonce(prefix, i), ArtifactNonce(prefix, j);
    if a == b {
      assert a[8] == b[8] && a[9] == b[9] && a[10] == b[10] && a[11] == b[11];
      SameBytes(i, j);
    }
  }

  lemma SameBytes(i: dword, j: dword)
    requires Be32(i)[0] == Be32(j)[0] && Be32(i)[1] == Be32(j)[1] && Be32(i)[2] == Be32(j)[2]
      && Be32(i)[3] == Be32(j)[3]
    ensures i == j
  {
    var a, b := i / 0x100, j / 0x100;
    var c, d := a / 0x100, b / 0x100;
    assert i == 0x100 * a + i % 0x100 && a == 0x100 * c + a % 0x100 && c == 0x100 * (c / 0x100) + c % 0x100;
    assert j == 0x100 * b + j % 0x100 && b == 0x100 * d + b % 0x100 && d == 0x100 * (d / 0x100) + d % 0x100;
  }

  // --------------------------------------------------------------- one step --

  ghost predicate Within(t: map<string, Transfer>, s: map<string, Transfer>)
  {
    forall id :: id in t ==> id in s && t[id] == s[id]
  }

  lemma WithinIsSmaller(t: map<string, Transfer>, s: map<string, Transfer>)
    requires Within(t, s)
    ensures |t| <= |s|
  {
    assert s.Keys == t.Keys + (s.Keys - t.Keys);
  }

  /** The row a prepared manifest is stored in. */
  ghost predicate IsRowOf(row: Transfer, m: Manifest)
  {
    row.manifest == m && row.artifactId == m.artifactId && row.sessionId == m.sessionId && row.deviceId == m.deviceId
  }

  /** A manifest describes the file that its row points to, for a session that holds the artifact
      capability, and does not outlive that session. */
  ghost predicate Opens(s: State, t: State, m: Manifest)
  {
    && m.transferId in t.transfers && IsRowOf(t.transfers[m.transferId], m)
    && m.sessionId in s.sessions && s.sessions[m.sessionId].deviceId == m.deviceId
    && ProtectedArtifact in s.sessions[m.sessionId].capabilities && m.expiresAt <= s.sessions[m.sessionId].exp
    && var path := t.transfers[m.transferId].path;
    && path in s.files && s.files[path].insideRoot
    && m.size == |s.files[path].bytes| && m.sha256 == s.files[path].sha256
    && m.chunkSize == ARTIFACT_CHUNK_SIZE && m.chunkCount == ChunkCount(m.size) <= U32_MAX
    && |m.noncePrefix| == 8
    && Within(t.transfers - {m.transferId}, s.transfers)
  }

  lemma OpenTransferFits(t: State, later: time, session: Session, a: Artifact, file: File, id: string,
      prefix: seq<byte>)
    requires |t.transfers| <= t.maxTransfers
    ensures var x := OpenTransfer(t, later, session, a, file, id, prefix);
      x.0.maxTransfers == t.maxTransfers && |x.0.transfers| <= t.maxTransfers
  {
    WithinIsSmaller(TransfersPruned(t, later).transfers, t.transfers);
  }

  lemma OpenTransferOpens(t: State, later: time, session: Session, a: Artifact, file: File, id: string,
      prefix: seq<byte>)
    requires session.sessionId in t.sessions && t.sessions[session.sessionId] == session
    requires ProtectedArtifact in session.capabilities
    requires a.path in t.files && t.files[a.path] == file && file.insideRoot && ChunkCount(|file.bytes|) <= U32_MAX
    requires |prefix| == 8
    ensures var x := OpenTransfer(t, later, session, a, file, id, prefix);
      if x.1.reply.ManifestIssued? then x.1.reply.manifest.transferId == id && Opens(t, x.0, x.1.reply.manifest)
      else Within(x.0.transfers, t.transfers)
  {
  }

  lemma PrepareForOpens(t: State, later: time, session: Session, artifactId: string, r: PrepareRequest, id: string,
      prefix: seq<byte>)
    requires session.sessionId in t.sessions && t.sessions[session.sessionId] == session
    requires |prefix| == 8 && |t.transfers| <= t.maxTransfers
    ensures var x := PrepareFor(t, later, session, artifactId, r, id, prefix);
      && x.0.maxTransfers == t.maxTransfers && |x.0.transfers| <= t.maxTransfers
      && if x.1.reply.ManifestIssued? then x.1.reply.manifest.transferId == id && Opens(t, x.0, x.1.reply.manifest)
         else Within(x.0.transfers, t.transfers)
  {
    hide OpenTransfer, Opens, ChunkCount;
    if ArtifactOf(t, artifactId).Some? && ProtectedArtifact in session.capabilities {
      var a := ArtifactOf(t, artifactId).value;
      var f := SafeFile(t, a);
      if f.Ok? && ChunkCount(|f.value.bytes|) <= U32_MAX {
        OpenTransferFits(t, later, session, a, f.value, id, prefix);
        OpenTransferOpens(t, later, session, a, f.value, id, prefix);
      }
    }
  }

  /** What a step does to the transfers. */
  ghost predicate TransferStep(s: State, r: Request, x: (State, Outcome))
  {
    && x.0.maxTransfers == s.maxTransfers && |x.0.transfers| <= s.maxTransfers
    && if x.1.reply.ManifestIssued? then
         r.DoPrepare? && x.1.reply.manifest.transferId == r.freshTransfer && Opens(s, x.0, x.1.reply.manifest)
       else Within(x.0.transfers, s.transfers)
  }

  lemma LookupLeavesTransfers(s: State, header: Option<string>, now: time)
    ensures var (t, found) := SessionFromHeaders(s, header, now);
      t.transfers == s.transfers && t.maxTransfers == s.maxTransfers && t.files == s.files
  {
  }

  lemma PrepareIs(s: State, now: time, r: Request, x: (State, Outcome))
    requires r.DoPrepare? && x == Handle(s, now, r)
    ensures var (t, found) := SessionFromHeaders(s, r.header, now);
      x == match found
        case Err(e) => (t, Refuse(e))
        case Ok(session) => PrepareFor(t, r.later, session, r.artifactId, r.prepare, r.freshTransfer, r.noncePrefix)
  {
  }

  lemma PrepareStep(s: State, now: time, r: Request, x: (State, Outcome))
    requires Inv(s, now) && r.DoPrepare? && DrawsFresh(s, r) && |s.transfers| <= s.maxTransfers
      && x == Handle(s, now, r)
    ensures TransferStep(s, r, x)
  {
    hide Handle, Inv, PrepareFor, Opens;
    PrepareIs(s, now, r, x);
    LookupLeavesTransfers(s, r.header, now);
    FromHeadersAuthorizes(s, r.header, now);
    var found := SessionFromHeaders(s, r.header, now).1;
    if found.Ok? {
      PrepareForOpens(s, r.later, found.value, r.artifactId, r.prepare, r.freshTransfer, r.noncePrefix);
    }
  }

  /** A served chunk is read for the session that the transfer belongs to, before the manifest
      expires, while the session is live and entitled. */
  ghost predicate Serves(s: State, now: time, r: Request, o: Outcome)
  {
    && r.DoServeChunk? && r.transferId in s.transfers
    && var row := s.transfers[r.transferId];
    && row.artifactId == r.artifactId && row.manifest.expiresAt > now && BearerToken(r.header) == Some(row.sessionId)
    && row.sessionId in s.sessions
    && var session := s.sessions[row.sessionId];
    && session.deviceId == row.deviceId && Live(session, now)
    && session.clientId in s.clients && Unusable(s.clients[session.clientId], session.deviceId).None?
    && AllEntitled(s, s.clients[session.clientId].accountId, session.capabilities)
    && o == ReadChunk(s, row, r.index)
  }

  lemma ServeForStep(s: State, now: time, session: Session, r: Request, x: (State, Outcome))
    requires r.DoServeChunk? && x == ServeFor(s, now, session, r.artifactId, r.transferId, r.index)
    ensures x.0.maxTransfers == s.maxTransfers && Within(x.0.transfers, s.transfers)
    ensures !x.1.reply.ManifestIssued?
    ensures x.1.reply.ChunkServed? ==>
      && r.transferId in s.transfers
      && var row := s.transfers[r.transferId];
      && row.artifactId == r.artifactId && row.manifest.expiresAt > now && row.sessionId == session.sessionId
      && row.deviceId == session.deviceId && x.1 == ReadChunk(s, row, r.index)
  {
  }

  lemma ServeIs(s: State, now: time, r: Request, x: (State, Outcome))
    requires r.DoServeChunk? && x == Handle(s, now, r)
    ensures var (t, found) := SessionFromHeaders(s, r.header, now);
      x == match found
        case Err(e) => (t, Refuse(e))
        case Ok(session) => ServeFor(t, now, session, r.artifactId, r.transferId, r.index)
  {
  }

  lemma ServeStep(s: State, now: time, r: Request, x: (State, Outcome))
    requires Inv(s, now) && r.DoServeChunk? && |s.transfers| <= s.maxTransfers && x == Handle(s, now, r)
    ensures TransferStep(s, r, x)
    ensures x.1.reply.ChunkServed? ==> Serves(s, now, r, x.1)
  {
    ServeIs(s, now, r, x);
    LookupLeavesTransfers(s, r.header, now);
    FromHeadersAuthorizes(s, r.header, now);
    TokenNamesSession(s, r.header, now);
    var found := SessionFromHeaders(s, r.header, now).1;
    if found.Ok? {
      ServeForStep(s, now, found.value, r, x);
    }
    WithinIsSmaller(x.0.transfers, s.transfers);
  }

  lemma AnyStep(s: State, now: time, r: Request, x: (State, Outcome))
    requires Inv(s, now) && DrawsFresh(s, r) && |s.transfers| <= s.maxTransfers && x == Handle(s, now, r)
    ensures TransferStep(s, r, x)
    ensures x.1.reply.ChunkServed? ==> Serves(s, now, r, x.1)
  {
    hide Handle, Inv, Opens, Serves;
    OnlyOwnReplies(s, now, r, x);
    OnlyOwnTables(s, now, r, x);
    if r.DoPrepare? {
      PrepareStep(s, now, r, x);
    } else if r.DoServeChunk? {
      ServeStep(s, now, r, x);
    }
  }

  // -------------------------------------------------------------- whole runs --

  /** In no state of a run are more transfers open than the limit allows. */
  lemma {:induction false} TransfersBounded(run: Run, i: nat)
    requires run.Valid() && i <= |run.steps|
    ensures run.states[i].maxTransfers == run.states[0].maxTransfers
    ensures |run.states[i].transfers| <= run.states[i].maxTransfers
  {
    if i > 0 {
      TransfersBounded(run, i - 1);
      RunStep(run, i - 1);
    }
  }

  lemma RunStep(run: Run, i: nat)
    requires run.Valid() && i < |run.steps| && |run.states[i].transfers| <= run.states[i].maxTransfers
    ensures TransferStep(run.states[i], run.steps[i].request, (run.states[i + 1], run.outcomes[i]))
    ensures run.ReplyOf(i).ChunkServed? ==>
      Serves(run.states[i], run.steps[i].now, run.steps[i].request, run.outcomes[i])
  {
    StepKeeps(run, i);
    assert run.StepOk(i);
    AnyStep(run.states[i], run.steps[i].now, run.steps[i].request, (run.states[i + 1], run.outcomes[i]));
  }

  /** Every open transfer was opened by an earlier prepare request, with the manifest it returned. */
  lemma {:induction false} RowWasOpened(run: Run, j: nat, id: string) returns (p: nat)
    requires run.Valid() && j <= |run.steps| && id in run.states[j].transfers
    ensures p < j && run.ReplyOf(p).ManifestIssued? && run.ReplyOf(p).manifest.transferId == id
    ensures Opens(run.states[p], run.states[p + 1], run.ReplyOf(p).manifest)
    ensures run.states[p + 1].transfers[id] == run.states[j].transfers[id]
    ensures run.steps[p].request.DoPrepare? && run.steps[p].request.freshTransfer == id
  {
    hide Handle, DrawsFresh, Opens;
    if j == 0 {
      assert false;
    } else {
      TransfersBounded(run, j - 1);
      RunStep(run, j - 1);
      if run.ReplyOf(j - 1).ManifestIssued? && run.ReplyOf(j - 1).manifest.transferId == id {
        p := j - 1;
      } else {
        StillOpen(run.states[j - 1], run.steps[j - 1].request, (run.states[j], run.outcomes[j - 1]), id);
        p := RowWasOpened(run, j - 1, id);
      }
    }
  }

  lemma StillOpen(s: State, r: Request, x: (State, Outcome), id: string)
    requires TransferStep(s, r, x) && id in x.0.transfers
    requires x.1.reply.ManifestIssued? ==> x.1.reply.manifest.transferId != id
    ensures id in s.transfers && x.0.transfers[id] == s.transfers[id]
  {
    if x.1.reply.ManifestIssued? {
      assert id in x.0.transfers - {x.1.reply.manifest.transferId};
    }
  }

  /** Every served chunk belongs to a manifest that an earlier prepare request issued to the very
      session that now receives it; the session is live, holds the artifact capability, and its
      account is entitled to it now; and the manifest has not expired. */
  lemma ChunkTracesBack(run: Run, k: nat) returns (p: nat)
    requires run.Valid() && k < |run.steps| && run.ReplyOf(k).ChunkServed?
    ensures run.steps[k].request.DoServeChunk?
    ensures p < k && run.ReplyOf(p).ManifestIssued?
    ensures var m, r, s := run.ReplyOf(p).manifest, run.steps[k].request, run.states[k];
      && m.transferId == r.transferId && m.artifactId == r.artifactId && BearerToken(r.header) == Some(m.sessionId)
      && run.steps[k].now < m.expiresAt && m.sessionId in s.sessions && Live(s.sessions[m.sessionId], run.steps[k].now)
      && s.sessions[m.sessionId].deviceId == m.deviceId && s.sessions[m.sessionId].clientId in s.clients
      && Entitled(s, s.clients[s.sessions[m.sessionId].clientId].accountId, ProtectedArtifact)
    ensures Opens(run.states[p], run.states[p + 1], run.ReplyOf(p).manifest)
    ensures run.steps[p].request.DoPrepare? && run.steps[p].request.freshTransfer == run.steps[k].request.transferId
    ensures run.outcomes[k] == ReadChunk(run.states[k],
      run.states[p + 1].transfers[run.ReplyOf(p).manifest.transferId], run.steps[k].request.index)
  {
    TransfersBounded(run, k);
    RunStep(run, k);
    p := RowWasOpened(run, k, run.steps[k].request.transferId);
    SessionFixed(run, p, k, run.ReplyOf(p).manifest.sessionId);
  }

  /** UUIDs: no two prepare requests draw the same transfer identifier. */
  ghost predicate TransferIdsDiffer(run: Run)
  {
    forall i, j | 0 <= i < j < |run.steps| && run.steps[i].request.DoPrepare? && run.steps[j].request.DoPrepare? ::
      run.steps[i].request.freshTransfer != run.steps[j].request.freshTransfer
  }

  lemma ReadChunkIs(s: State, row: Transfer, index: dword, file: seq<byte>)
    requires row.path in s.files && s.files[row.path].bytes == file
    requires row.manifest.size == |file| && row.manifest.chunkSize == ARTIFACT_CHUNK_SIZE
    requires row.manifest.chunkCount == ChunkCount(|file|) <= U32_MAX
    ensures ReadChunk(s, row, index).reply.ChunkServed?
      <==> (index < row.manifest.chunkCount && |row.manifest.noncePrefix| == 8)
    ensures ReadChunk(s, row, index).reply.ChunkServed? ==>
      && index * ARTIFACT_CHUNK_SIZE < |file| && ChunkOf(file, index) != []
      && ReadChunk(s, row, index).reply == ChunkServed(index, ChunkOf(file, index),
        ArtifactNonce(row.manifest.noncePrefix, index))
  {
    ChunkCountExact(|file|);
  }

  /** The file a manifest was prepared from, as it was then. */
  ghost function Prepared(run: Run, p: nat): (f: seq<byte>)
    requires p < |run.steps| && |run.states| == |run.steps| + 1 && |run.outcomes| == |run.steps|
    requires run.ReplyOf(p).ManifestIssued? && Opens(run.states[p], run.states[p + 1], run.ReplyOf(p).manifest)
  {
    run.states[p].files[run.states[p + 1].transfers[run.ReplyOf(p).manifest.transferId].path].bytes
  }

  lemma ManifestAt(run: Run, p: nat)
    requires run.Valid() && p < |run.steps| && run.ReplyOf(p).ManifestIssued?
    ensures Opens(run.states[p], run.states[p + 1], run.ReplyOf(p).manifest)
    ensures run.steps[p].request.DoPrepare? && run.steps[p].request.freshTransfer == run.ReplyOf(p).manifest.transferId
  {
    TransfersBounded(run, p);
    RunStep(run, p);
  }

  /** Step `k` serves chunk `index` of the transfer that step `p` opened, from an unchanged file. */
  ghost predicate ServesFrom(run: Run, p: nat, k: nat, index: nat)
    requires run.Valid() && p < |run.steps| && run.ReplyOf(p).ManifestIssued?
  {
    && p < k < |run.steps| && run.ReplyOf(k).ChunkServed? && run.ReplyOf(k).index == index
    && run.steps[k].request.DoServeChunk? && run.steps[k].request.transferId == run.ReplyOf(p).manifest.transferId
    && run.ReplyOf(p).manifest.transferId in run.states[p + 1].transfers
    && var path := run.states[p + 1].transfers[run.ReplyOf(p).manifest.transferId].path;
    && path in run.states[p].files && path in run.states[k].files
    && run.states[k].files[path].bytes == run.states[p].files[path].bytes
  }

  lemma ServedChunk(run: Run, p: nat, k: nat, index: nat)
    requires run.Valid() && TransferIdsDiffer(run) && p < |run.steps| && run.ReplyOf(p).ManifestIssued?
    requires Opens(run.states[p], run.states[p + 1], run.ReplyOf(p).manifest)
    requires ServesFrom(run, p, k, index)
    ensures var file, m := Prepared(run, p), run.ReplyOf(p).manifest;
      && index * ARTIFACT_CHUNK_SIZE < |file| && run.ReplyOf(k).plaintext == ChunkOf(file, index) != []
      && index <= U32_MAX && run.ReplyOf(k).nonce == ArtifactNonce(m.noncePrefix, index)
  {
    hide Handle, Initial, DrawsFresh, ChunkOf, ArtifactNonce;
    ManifestAt(run, p);
    var q := ChunkTracesBack(run, k);
    assert q == p;
    ReadChunkIs(run.states[k], run.states[p + 1].transfers[run.ReplyOf(p).manifest.transferId],
      run.steps[k].request.index, Prepared(run, p));
  }

  function Fetched(run: Run, at: seq<nat>): (parts: seq<seq<byte>>)
    ensures |parts| == |at|
  {
    seq(|at|, i requires 0 <= i < |at| =>
      if at[i] < |run.outcomes| && run.ReplyOf(at[i]).ChunkServed? then run.ReplyOf(at[i]).plaintext else [])
  }

  function NonceUsed(run: Run, k: nat): (nonce: seq<byte>)
  {
    if k < |run.outcomes| && run.ReplyOf(k).ChunkServed? then run.ReplyOf(k).nonce else []
  }

  /** A client that fetched every chunk of a manifest, at whatever steps and in whatever order,
      from a file that did not change, holds exactly the file that was prepared; no chunk was
      empty, and no two were encrypted under the same nonce. */
  lemma TransferDelivers(run: Run, p: nat, at: seq<nat>)
    requires run.Valid() && TransferIdsDiffer(run) && p < |run.steps| && run.ReplyOf(p).ManifestIssued?
    requires |at| == run.ReplyOf(p).manifest.chunkCount
    requires forall i :: 0 <= i < |at| ==> ServesFrom(run, p, at[i], i)
    ensures Opens(run.states[p], run.states[p + 1], run.ReplyOf(p).manifest)
    ensures Joined(Fetched(run, at)) == Prepared(run, p)
    ensures forall i | 0 <= i < |at| :: Fetched(run, at)[i] != []
    ensures forall i, j | 0 <= i < j < |at| :: NonceUsed(run, at[i]) != NonceUsed(run, at[j])
  {
    hide Handle, Initial, DrawsFresh, Opens, Joined;
    ManifestAt(run, p);
    var file, m := Prepared(run, p), run.ReplyOf(p).manifest;
    var parts := Fetched(run, at);
    forall i | 0 <= i < |at|
      ensures i * ARTIFACT_CHUNK_SIZE < |file| && parts[i] == ChunkOf(file, i) != []
      ensures i <= U32_MAX && NonceUsed(run, at[i]) == ArtifactNonce(m.noncePrefix, i)
    {
      ServedChunk(run, p, at[i], i);
    }
    ChunksJoin(parts, file);
    forall i, j | 0 <= i < j < |at|
      ensures NonceUsed(run, at[i]) != NonceUsed(run, at[j])
    {
      NoncesDiffer(m.noncePrefix, i, j);
    }
  }
}
