# Verified model of the QEMU center and its authorization service

A Dafny 4.11 project that models the parts of this repository whose correctness is hardest to see
by reading, and proves what they are for. `dafny verify dfyconfig.toml` checks all of it.

The project has six parts.

* **FAT16 image writer** (`FatLayout`, `FatNames`, `FatLfn`, `FatBuilder`; reader in `FatReader`;
  theorems in `FatReading`, `FatRoundTrip`, `FatStructure`, `FatDriver`). The builder fills one byte array in
  place: boot sector, two FAT copies, root directory with VFAT long-name chains and derived 8.3
  names, cluster chains. It is proved equal to a specification of the volume. The reader is the
  one of the unit tests. The round trip holds for a successful build if and only if no file reaches
  the size at which the 32-bit cluster count wraps; the builder succeeds if and only if every name
  is usable and slots and clusters suffice. What a file system driver checks besides, the checksum
  in every slot above all, is read from the image with a driver's own definitions (`FatDriver`).
* **Authorization service** (`AuthModel`, `AuthTables`, `AuthHandlers`, `AuthService`,
  `AuthInvariant`, `AuthSteps`, `AuthFacts`, `AuthAnswers`, `AuthRuns`, `AuthEndings`,
  `AuthCapabilities`, `AuthTransfers`). `AuthService.Service`
  updates its tables in place; each handler is proved to be the atomic step that `AuthHandlers`
  specifies. `AuthAnswers` states when each request succeeds, exactly, and every field of what is then
  signed or stored. Theorems range over all runs: any requests by anyone, under a clock that never runs
  backwards.
* **Command line gate** (`CliGate`). The grant and receipt checks and the ledger of used receipts,
  joined to a run of the service, in both directions: what a passing attempt rests on, and when an
  attempt with a consumed grant passes. The host's clock is independent of the service's and may show
  anything.
* **VM registry, ports and live disks** (`VmPorts`, `VmRegistry`, `LiveDisk`, `LiveDiskRuns`,
  `VmOutcomes`, `VmCommands`). Each command yields the effects it has on disks and processes;
  `VmOutcomes` states when each command acts, exactly, and what it then does. QEMU processes may
  exit at any moment, also between a command's probe and its action.
* **ISO image** (`IsoNames`, `IsoAcceptance`, `IsoImage`, `IsoFields`, `IsoBuilder`, `IsoParser`,
  `IsoRoundTrip`). Builder, parser and size function; the numbers that the parser skips are read from
  the image in both byte orders (`IsoFields`); the byte layout is the one of the code, whose offsets are not those of
  ECMA-119, so conformance is not claimed.
* **Memory reclaim and shell quoting** (`Reclaim`, `Shell`), with saturating arithmetic compared to
  exact arithmetic, and a reader for the quoting rules of section 2.2 of the POSIX Shell Command
  Language.

`Bytes`, `Text`, `Decimal`, `Utf16` and `Saturating` hold what several parts share.

## What is assumed

* Signatures are ideal: a verification succeeds exactly for what was signed. A JSON payload is the
  record it encodes. The hash of a file is an attribute of the file.
* Identifiers drawn as UUIDs are fresh: no client, session or grant identifier collides with one in
  the state, and no two transfers of a run draw the same one. A random nonce prefix has eight bytes.
* Runs of the service start with empty tables; runs of the commands start with an empty registry and
  no QEMU.
* Each request is handled atomically. The service's clock never runs backwards and does not start
  before 1970. `prepare_artifact` reads the clock twice; the second reading is not earlier.
* The keys in the command line's ring are the service's.
* A QMP probe that answers or is refused tells the truth; one that times out says nothing. A process
  list without any QEMU, and a port that could be bound, tell the truth. A live QEMU holds its QMP
  port. QEMU is started by `vm start` only. One operator runs one command at a time.

## Where code and documentation differ

The table in the documentation of `fat.rs` (lines 30-36) gives the data area 32680 sectors and
66953216 bytes. The constants of the code give 130780 sectors of 512 bytes, that is 66959360 bytes
in 32695 clusters. The model follows the code.

The following promises do not hold of the code for every input; each has its exact condition.

* The FAT round trip fails for a file whose cluster count wraps in 32 bits (`FatRoundTrip.RoundTrip`,
  `FatStructure.OversizedFileIsLost`).
* The port allocator does not return a free block that ends at 65535: the end of the block is
  computed in 16 bits. It panics in a build that checks arithmetic, and returns an empty block in
  one that does not (`VmPorts.AllocateExact`, `VmPorts.HighestPortIsNeverGiven`).
* `iso_size_bytes` is one sector short when every file is empty (`IsoRoundTrip.SizeExact`).
* An overlay can be backed by a running QEMU's disk, read-only, in two cases: the timing probe of
  `verify`, and a base image that the operator chose (`LiveDiskRuns.BackingExact`).
* A session that is used while one of its capabilities is not entitled is not always revoked: it is
  if and only if the request passes every check that its handler makes before it looks at the
  entitlements. A heartbeat with a stale timestamp, a wrong signature or a used nonce, or a grant
  with a bad device proof, leaves the session alive, and it gets leases again once the entitlement is
  back (`AuthFacts.LostCapabilityKills`, `AuthCapabilities.LostCapabilityExact`,
  `AuthCapabilities.StaleHeartbeatIsSurvived`).

## Model

| member | source | states |
|---|---|---|
| FatLayout.ConvergeFatSectors | qemu-center/src/fat.rs:104-131 | The compile-time iteration ends at 128 sectors, a value consistent with itself; one FAT copy holds an entry for every cluster id; the regions adjoin and fill the image exactly |
| FatLayout.WriteBootSector | qemu-center/src/fat.rs:330-358 | On a zeroed buffer, the boot sector is exactly the documented 512 bytes and nothing else changes |
| Utf16.DecodeEncode | qemu-center/src/fat.rs:177-177 | UTF-16 decoding undoes encoding for every string, surrogate pairs included |
| Utf16.ZeroUnitIsNul | qemu-center/src/fat.rs:172-177 | The end mark 0x0000 occurs among a name's units only if the name contains NUL |
| FatNames.SanitizeChunk | qemu-center/src/fat.rs:233-258 | The loop yields the filtered capitals, and its two flags say exactly whether something was dropped or replaced and whether a lowercase letter occurred |
| FatNames.DeriveShortName | qemu-center/src/fat.rs:271-328 | The derived name is the specified one, and the set of used names grows by exactly it, or not at all on failure |
| FatNames.NextTail | qemu-center/src/fat.rs:306-327 | The search returns the lowest tail whose candidate is unused, and gives up only beyond six digits |
| FatNames.CandidateInjective | qemu-center/src/fat.rs:309-318 | Different tails give different 8.3 names, for every base and extension |
| FatNames.TailsNeverRunOut | qemu-center/src/fat.rs:307-327 | With fewer than 999999 names taken, a unique name is always found |
| FatLfn.LfnChecksum | qemu-center/src/fat.rs:160-166 | The loop computes the long-name checksum, which FatDriver.ChecksumIsDriverSum shows to be a driver's: rotate right by one bit, add, in eight bits |
| FatLfn.RotateRight | qemu-center/src/fat.rs:163-163 | Halving and moving the lowest bit to the top is the eight-bit rotation; FatDriver.ChecksumStep proves that this rotation is the step of the checksum |
| FatLfn.SlotUnit | qemu-center/src/fat.rs:148-156 | The thirteen unit positions of a slot hold the units of the padded name, low byte first |
| FatLfn.WriteSlot | qemu-center/src/fat.rs:189-214 | One slot, written in place, is the specified 32 bytes: ordinal with end flag, marker, checksum, units, 0x0000 and 0xFFFF padding |
| FatLfn.LfnEntries | qemu-center/src/fat.rs:171-216 | The chain lists the slots in descending order; it fails exactly for a NUL or slash, an empty name, or more than 255 units |
| FatLfn.CollectDescending | qemu-center/src/fat.rs:550-578 | Sorting and joining the slots of a chain gives back the name, also when it fills its slots exactly and no end mark is stored |
| FatBuilder.PutFatEntry | qemu-center/src/fat.rs:361-365 | Both FAT copies get the entry and stay identical |
| FatBuilder.PutSlots | qemu-center/src/fat.rs:400-405 | Consecutive root entries are stored at consecutive slots |
| FatBuilder.PutNameSlots | qemu-center/src/fat.rs:393-405 | A long-name chain is stored slot after slot, in on-disk order |
| FatBuilder.PutContents | qemu-center/src/fat.rs:407-436 | A file's links and bytes are stored from its first cluster on, or the first failing check on room is reported |
| FatBuilder.AddFile | qemu-center/src/fat.rs:391-452 | One pass of the loop turns the image of one state of the volume into the image of the next, or reports the first check that fails |
| FatBuilder.BuildFat16Image | qemu-center/src/fat.rs:373-455 | The buffer is the image of the specified volume exactly when every file can be added; otherwise the same error is returned |
| FatReader.WalkedSizes | qemu-center/src/fat.rs:512-600 | The reader never returns more bytes than a 32-bit size field can say |
| FatReading.ReadLinked | qemu-center/src/fat.rs:512-600 | Following a contiguous chain of links returns the bytes stored in its clusters, cut to the size |
| FatReading.WalkNameSlots | qemu-center/src/fat.rs:548-566 | Walking a stored long-name chain collects exactly its slots |
| FatReading.WalkFile | qemu-center/src/fat.rs:567-600 | Walking a stored file reports its name, size and bytes and moves on to the next slot |
| FatRoundTrip.RoundTrip | qemu-center/src/fat.rs:373-455 | Whenever the build succeeds, the reader returns the label CIDATA and exactly the given names and bytes in order, if and only if every file is at most 2048 * (2^32 - 1) bytes long |
| FatStructure.FileLayout | qemu-center/src/fat.rs:391-452 | Where each file lies: name chain and entry in the root directory, links in the FAT, zero-padded bytes in the data area, all inside the volume |
| FatStructure.FatContents | qemu-center/src/fat.rs:361-436 | The whole FAT in closed form, the same in both copies: reserved entries, one contiguous chain per file ending in the end mark, zero for every other cluster |
| FatStructure.ChainOwner | qemu-center/src/fat.rs:389-435 | Every allocated cluster belongs to the chain of exactly one file |
| FatStructure.StoredEntry | qemu-center/src/fat.rs:438-450 | Behind the name chain of every file of every image lies its entry: a short name of 8+3 printable capitals, digits, punctuation or blanks that does not begin with the end-of-directory byte, its case flags, the fixed date, the first cluster, and the size modulo 2^32 |
| FatStructure.ShortNamesDistinct | qemu-center/src/fat.rs:387-398 | No two files of any image share an 8.3 name |
| FatStructure.BuildSucceeds | qemu-center/src/fat.rs:373-455 | The build succeeds if and only if every name is usable and all slots and clusters fit; it never fails for want of a unique short name |
| FatStructure.OversizedFileIsLost | qemu-center/src/fat.rs:410-410 | A file of 2^43 bytes is accepted, gets no cluster and does not come back |
| FatDriver.ChecksumIsDriverSum | qemu-center/src/fat.rs:160-166 | The checksum is the one a driver computes from the first byte on, with the rotation done on eight bits; proved by induction between a definition from the last byte and one from the first |
| FatDriver.ChecksumStep | qemu-center/src/fat.rs:163-163 | One byte more rotates the eight-bit checksum of what comes before it and adds the byte |
| FatDriver.ChecksumDetects | qemu-center/src/fat.rs:160-166 | 8.3 names that differ in exactly one byte have different checksums, so no bit of a byte is lost |
| FatDriver.SlotsBelong | qemu-center/src/fat.rs:171-216 | In every built image, every slot of every name chain carries the checksum of the 8.3 entry that ends the chain, its number and end flag, and its thirteen units at their literal offsets |
| FatDriver.BootSectorSays | qemu-center/src/fat.rs:330-358 | In every built image the numbers of the boot sector, read at their offsets, make up the image, and the cluster count they give is one of FAT16 |
| FatDriver.BootSectorTexts | qemu-center/src/fat.rs:330-358 | The jump, the texts and the signature of the boot sector of every built image |
| FatDriver.KeptCharacters | qemu-center/src/fat.rs:233-258 | Which characters an 8.3 name keeps, which become capitals, and which become an underscore |
| FatDriver.PlainName | qemu-center/src/fat.rs:271-304 | A plain name gets base and extension in capitals, each in its own place, if that name is free; the two flags say which of them had a lowercase letter |
| FatDriver.PlainNameShown | qemu-center/src/fat.rs:271-304 | A driver that reads only the 8.3 entry shows a plain name as it was given if and only if base and extension have one case each |
| FatDriver.TailedName | qemu-center/src/fat.rs:306-327 | Any other name gets its cut base, a tilde and a number, and the cut extension; the number is the least whose name is free |
| FatDriver.BuildFailsAt | qemu-center/src/fat.rs:373-455 | A build that fails does so at one file, before which all names are usable and everything fits, and the error says what is wrong with this one |
| AuthService.Service.constructor | authorization-service/src/routes.rs:77-90 | An empty service; the transfer limit is at least one |
| AuthService.Service.ConsumeNonce | authorization-service/src/store.rs:441-451 | Reserving succeeds exactly if no unpruned entry holds the nonce; the table is then pruned and holds it |
| AuthService.Service.HasEntitlements | authorization-service/src/store.rs:419-438 | True exactly if every capability of the list is enabled for the account |
| AuthService.Service.RevokeSession | authorization-service/src/store.rs:545-551 | That session and no other is revoked |
| AuthService.Service.RevokeActiveSessions | authorization-service/src/store.rs:483-495 | The client's sessions that have not expired are revoked, and nothing else changes |
| AuthService.Service.RefreshSession | authorization-service/src/store.rs:528-543 | A session is renewed exactly if it exists and is not revoked |
| AuthService.Service.UpdateClientRegistration | authorization-service/src/store.rs:320-347 | All sessions of the client are revoked; the version changes unless the client is revoked |
| AuthService.Service.RevokeClient | authorization-service/src/store.rs:369-380 | The client and all its sessions are revoked |
| AuthService.Service.RegisterClient | authorization-service/src/routes.rs:223-287 | The handler is the atomic registration step: a known device keeps its client and key binding, an unknown one becomes a pending client |
| AuthService.Service.CompleteRegistration | authorization-service/src/routes.rs:305-362 | The handler is the atomic completion step |
| AuthService.Service.CreateSession | authorization-service/src/routes.rs:383-463 | The handler is the atomic session step, in the order of its checks |
| AuthService.Service.SessionFromHeaders | authorization-service/src/routes.rs:513-554 | The lookup returns a live session, or the first check that fails, and revokes a session with a lost capability |
| AuthService.Service.Heartbeat | authorization-service/src/routes.rs:586-676 | The handler is the atomic renewal step; its refresh never finds the session revoked |
| AuthService.Service.CloseSession | authorization-service/src/routes.rs:678-692 | The handler is the atomic closing step |
| AuthService.Service.ValidateGrant | authorization-service/src/routes.rs:743-864 | All checks on a presented grant, in order |
| AuthService.Service.ReleaseExecutionGrant | authorization-service/src/routes.rs:868-899 | The handler is the atomic release step |
| AuthService.Service.IssueExecutionGrant | authorization-service/src/routes.rs:901-1008 | The handler is the atomic issuing step |
| AuthService.Service.ConsumeExecutionGrant | authorization-service/src/routes.rs:1010-1041 | The handler is the atomic consuming step |
| AuthService.Service.PrepareArtifact | authorization-service/src/routes.rs:1052-1139 | The handler is the atomic step that opens a transfer |
| AuthService.Service.ArtifactChunk | authorization-service/src/routes.rs:1148-1200 | The handler is the atomic step that serves a chunk |
| AuthInvariant.NonceTriedKeeps | authorization-service/src/store.rs:441-451 | Pruning and reserving keep the invariant: no reservation young enough to matter is lost |
| AuthInvariant.RegistrationUpdatedKeeps | authorization-service/src/store.rs:320-347 | A new version comes only with the death of all the client's sessions, so every session that is not revoked still has its client's version |
| AuthInvariant.StoredSessionKeeps | authorization-service/src/store.rs:453-481 | Storing or renewing a session keeps at most one live session per client |
| AuthInvariant.NoReceiptYet | authorization-service/src/routes.rs:1017-1022 | If a running grant's JTI can be reserved, the grant has no receipt yet, although reservations are pruned |
| AuthInvariant.SignedReceiptKeeps | authorization-service/src/routes.rs:1010-1041 | Reserving the JTI and signing the receipt keeps: one receipt per JTI, each for a signed grant |
| AuthSteps.HandleKeeps | authorization-service/src/routes.rs:223-1200 | Every request keeps the whole invariant, and lets clients, sessions, versions, nonces and signatures only evolve |
| AuthFacts.CompletionSound | authorization-service/src/routes.rs:305-362 | A registration is completed only by the registered key over a challenge that is still open and is then gone; the client's sessions die and it gets the version it asked for |
| AuthRuns.CompletionTracesBack | authorization-service/src/routes.rs:276-340 | In every run, a completed registration answers the challenge that an earlier register request drew for that client less than five minutes before, that no step in between replaced or answered, and that the registered key signed |
| AuthRuns.NoChallengeCompletesTwice | authorization-service/src/routes.rs:316-330 | With random challenges that differ, no challenge completes a registration twice, for whichever clients |
| AuthFacts.CreateSessionLease | authorization-service/src/routes.rs:383-463 | A lease goes to a client in good standing that signed the request, for a live session of at most 15 minutes with the requested capabilities |
| AuthFacts.HeartbeatLease | authorization-service/src/routes.rs:586-676 | A renewed lease goes to a live session of a client in good standing that signed the request |
| AuthFacts.IssueGrantSound | authorization-service/src/routes.rs:901-1008 | A grant goes to a live, entitled session with both capabilities, allows only the action its artifact may run, and expires within two minutes and with the session |
| AuthFacts.ReleaseGrantSound | authorization-service/src/routes.rs:868-899 | What is released is what was read last; it has the hash that a running, device-signed grant of a client in good standing names, and at most 512 KiB, even if the file changed after its validation |
| AuthFacts.ConsumeGrantSound | authorization-service/src/routes.rs:1010-1041 | A receipt is for a signed, running grant whose JTI was free, whose session is live and entitled, and which the client's registered key has signed |
| AuthFacts.NeverOutdated | authorization-service/src/routes.rs:834-839 | For a grant of this service the client-version check never fails |
| AuthFacts.SignedRequestReserves | authorization-service/src/routes.rs:391-428 | A signed request reserves no other nonce than its own, and only within the window of its timestamp |
| AuthFacts.LookupKills | authorization-service/src/routes.rs:538-553 | A lookup refuses for a lost capability if and only if the session is live, its client usable and a capability no longer entitled; the session is then revoked |
| AuthFacts.LostCapabilityKills | authorization-service/src/routes.rs:586-656 | Every request refuses for a lost capability, and revokes the session it uses, if and only if the session has lost a capability and the request passes every check that its handler makes before it looks at the entitlements; used otherwise, the session stays as it is |
| AuthAnswers.TokenIs | authorization-service/src/routes.rs:513-523 | A header yields a token if and only if it is the word Bearer, a blank, and that token, which is not blank |
| AuthAnswers.LookupExact | authorization-service/src/routes.rs:513-554 | A lookup succeeds if and only if the header names a live session of a usable client entitled to all its capabilities |
| AuthAnswers.LookupRefuses | authorization-service/src/routes.rs:513-554 | Exactly when a lookup names a revoked session or a lost capability as the reason |
| AuthAnswers.UsableIs | authorization-service/src/routes.rs:465-482 | A client is usable by its device if and only if it is approved and not revoked, and a revocation is named first |
| AuthAnswers.RegisterExact | authorization-service/src/routes.rs:223-287 | A registration succeeds if and only if it is well formed and a known device comes with its key; every field of the new client, and a challenge of five minutes |
| AuthAnswers.RegisterRefuses | authorization-service/src/routes.rs:223-257 | Exactly when a registration is refused as malformed, for a revoked client, or for another key |
| AuthAnswers.CompleteExact | authorization-service/src/routes.rs:305-362 | A completion succeeds if and only if the registered key signed the open challenge in time; then exactly the client's sessions die, the challenge is gone, and the version is the one asked for |
| AuthAnswers.CreateSessionExact | authorization-service/src/routes.rs:383-463 | A session is opened if and only if the request passes every check; every claim of the lease, the stored row, and exactly which other sessions are revoked |
| AuthAnswers.CreateSessionRefuses | authorization-service/src/routes.rs:427-438 | Of a request otherwise in order, exactly when it is a replay and when a capability is refused |
| AuthAnswers.HeartbeatExact | authorization-service/src/routes.rs:586-676 | A lease is renewed if and only if the checks pass, the nonce is free and no capability is lost; the session keeps all but its lease's identifier and end |
| AuthAnswers.HeartbeatRefuses | authorization-service/src/routes.rs:592-623 | Exactly when a heartbeat is refused for a revoked session, an expired lease, another binding, or a bad nonce or timestamp |
| AuthAnswers.CloseExact | authorization-service/src/routes.rs:678-692 | A session is closed if and only if the header names this very session; no other is revoked |
| AuthAnswers.IssueGrantExact | authorization-service/src/routes.rs:901-1008 | A grant is issued if and only if the session may have it, its device signed a request for this very artifact, action, VM and instance, and the published file is the one asked for; every claim of the grant is that of the request, the file and the session |
| AuthAnswers.IssueGrantRefuses | authorization-service/src/routes.rs:907-966 | Exactly when a grant request is refused for a missing capability, as malformed, or for an artifact that may not run its action |
| AuthAnswers.IssueGrantReplays | authorization-service/src/routes.rs:967-984 | After that, exactly when for a file that is not the one asked for, and when for a nonce that is taken |
| AuthAnswers.WorkflowIs | authorization-service/src/routes.rs:728-741 | Which artifact may run which action, and that a session needs all capabilities but the algorithm one for a grant |
| AuthAnswers.ValidateExact | authorization-service/src/routes.rs:743-864 | A presented grant is accepted if and only if it is signed and running, its device signed its use, its session is live and entitled, and the published file has its hash |
| AuthAnswers.ConsumeExact | authorization-service/src/routes.rs:1010-1041 | A grant is consumed if and only if it is accepted and its JTI is free; every claim of the receipt, which the service issues for the gate |
| AuthAnswers.ConsumeReplays | authorization-service/src/routes.rs:1017-1022 | An accepted grant is refused as a replay if and only if its JTI is reserved |
| AuthAnswers.ReservationsApart | authorization-service/src/routes.rs:1017-1022 | A request's nonce is a grant's reservation if and only if it is the reserved prefix and that JTI |
| AuthAnswers.ReleaseExact | authorization-service/src/routes.rs:868-899 | An artifact is released if and only if the grant is accepted and the second reading finds the announced length, at most 512 KiB, with the hash of the grant |
| AuthAnswers.ReleaseRefuses | authorization-service/src/routes.rs:868-899 | Exactly when an accepted grant's file is too large, and when it changed between the readings |
| AuthAnswers.PrepareExact | authorization-service/src/routes.rs:1052-1139 | A transfer is opened if and only if the session, device, capability, target, file and limit allow it; every field of the manifest and of the stored row |
| AuthAnswers.ServeExact | authorization-service/src/routes.rs:1148-1200 | A chunk is served if and only if the open transfer belongs to the session and has that chunk; the bytes and the nonce served |
| AuthAnswers.RevokeClientExact | authorization-service/src/store.rs:369-380 | Exactly that client and its sessions are revoked |
| AuthAnswers.EntitlementExact | authorization-service/src/store.rs:383-438 | Granting and revoking decide exactly that entitlement of that account |
| AuthRuns.StepKeeps | authorization-service/src/routes.rs:223-1200 | In every run each step starts and ends in the invariant |
| AuthRuns.ClientBindingFixed | authorization-service/src/routes.rs:239-272 | A client's device, key and algorithm never change, and a revoked client stays revoked |
| AuthRuns.DeviceBindingFixed | authorization-service/src/routes.rs:239-257 | A registered device names the same client with the same key and algorithm for ever |
| AuthRuns.SessionFixed | authorization-service/src/store.rs:528-551 | A session's client, device and capabilities never change, and a revoked session stays revoked |
| AuthRuns.AtMostOneLiveSession | authorization-service/src/routes.rs:440-459 | At no time does a client have two sessions that are neither revoked nor expired |
| AuthRuns.OneReceiptPerGrant | authorization-service/src/routes.rs:1010-1041 | No run yields two receipts for one grant JTI, although reservations are pruned |
| AuthRuns.GrantJtisDiffer | authorization-service/src/routes.rs:988-1007 | No two grants of a run carry the same JTI |
| AuthRuns.GrantWasAsked | authorization-service/src/routes.rs:947-1007 | In every run, each grant answers a request for its artifact, action, VM, instance and nonce that the device had signed, with the hash of the published file |
| AuthRuns.ReceiptTracesBack | authorization-service/src/routes.rs:1024-1040 | Every receipt traces back to exactly one earlier grant with the same client, device, session, version, artifact, hash, action, VM and instance; it is issued by the service for the gate and expires no later than the grant, and the grant no later than the session did at issue; the grant answers a request for this very artifact, action, VM and instance that the client's device had signed |
| AuthRuns.ReleaseTracesBack | authorization-service/src/routes.rs:868-899 | Every released artifact belongs to a grant the run issued earlier, that has not expired, and that answers a request the client's device had signed |
| AuthRuns.NoReplay | authorization-service/src/store.rs:441-451 | Two signed requests of a run that reserve the same nonce were signed at different times, the later one later: the same request never reserves twice |
| AuthRuns.RetentionIsTight | authorization-service/src/store.rs:8-8 | A retention time covers the request window if and only if it is at least 600 seconds |
| AuthRuns.VersionBound | authorization-service/src/routes.rs:402-407 | While a session is not revoked, its client still has the version its lease names |
| AuthRuns.OutdatedGrantUnreachable | authorization-service/src/routes.rs:834-839 | In no run is a grant refused because its client version is outdated |
| AuthEndings.EndedIsSilent | authorization-service/src/routes.rs:522-540 | Once a session is revoked or expired, or its client revoked, every request that uses it is refused, and no lease, grant, receipt or manifest is ever produced for it |
| AuthEndings.RevokedSessionStaysDead | authorization-service/src/routes.rs:789-805 | Once a session is revoked, every request that uses it is refused, and no lease, grant, receipt or manifest is ever produced for it |
| AuthEndings.RevokedClientStaysDead | authorization-service/src/routes.rs:465-482 | Once a client is revoked, no lease, grant or receipt is ever produced for it |
| AuthCapabilities.LostCapabilityIsFinal | authorization-service/src/routes.rs:541-553 | If a request that passes every earlier check uses a session while one of its capabilities is not entitled, it is refused, and nothing is ever produced for the session again, even if the entitlement is granted anew |
| AuthCapabilities.LiveSessionRevives | authorization-service/src/routes.rs:658-675 | Every run that ends with a live session of a client that is not revoked has a continuation in which the session gets a lease |
| AuthCapabilities.LostCapabilityExact | authorization-service/src/routes.rs:586-656 | After a use of a session while a capability is lost, nothing comes of the session in any continuation of the run, if and only if the request passed every check before the entitlements or the session had ended anyway |
| AuthCapabilities.RefusedHeartbeatChangesNothing | authorization-service/src/routes.rs:592-637 | A heartbeat that fails a check before its nonce changes nothing, whatever the entitlements are |
| AuthCapabilities.StaleHeartbeatIsSurvived | authorization-service/src/routes.rs:612-616 | A run in which a live session with a lost capability is used by a stale heartbeat, and gets a lease later |
| AuthTransfers.ChunkCountExact | authorization-service/src/routes.rs:1095-1097 | A manifest's chunk count fits 32 bits exactly if the saturating addition did not matter, and is then the number of started chunks |
| AuthTransfers.ChunksJoin | authorization-service/src/routes.rs:1174-1190 | As many chunks as the manifest counts join to the whole file |
| AuthTransfers.NoncesDiffer | authorization-service/src/crypto.rs:533-544 | Different chunks of a transfer have different 12-byte nonces |
| AuthTransfers.ServeStep | authorization-service/src/routes.rs:1148-1200 | A chunk is served only to the live, entitled session the transfer belongs to, before the manifest expires |
| AuthTransfers.TransfersBounded | authorization-service/src/routes.rs:1119-1126 | In no state of a run are more transfers open than the limit allows |
| AuthTransfers.RowWasOpened | authorization-service/src/routes.rs:1127-1137 | Every open transfer was opened by an earlier prepare request and still has its manifest |
| AuthTransfers.ChunkTracesBack | authorization-service/src/routes.rs:1153-1173 | Every served chunk belongs to a manifest issued to the very session that receives it, while the artifact capability is entitled |
| AuthTransfers.TransferDelivers | authorization-service/src/routes.rs:1148-1200 | A client that fetched every chunk of an unchanged file, in any order, holds exactly the prepared file; no chunk is empty and no nonce is used twice |
| CliGate.Host.ConsumeReceiptOnce | qemu-center/src/main.rs:674-700 | A JTI is entered in the ledger at most once; the ledger is otherwise unchanged |
| CliGate.Host.Authorize | qemu-center/src/main.rs:2387-2455 | The checks of the gate in order, and the ledger afterwards |
| CliGate.GatePasses | qemu-center/src/main.rs:514-658 | If the gate opens, the grant and the receipt are signed and bound to each other and to the VM and instance, the receipt has not expired, and the JTI is newly in the ledger |
| CliGate.GateExact | qemu-center/src/main.rs:2387-2455 | The gate opens if and only if every check on files, clocks, arguments and ledger passes; only then the ledger changes, by exactly the JTI |
| CliGate.GateRefuses | qemu-center/src/main.rs:514-700 | Each error of the gate says which check failed |
| CliGate.RepeatIsRefused | qemu-center/src/main.rs:674-700 | An attempt that lacks nothing but a fresh JTI is refused as already consumed |
| CliGate.PathStaysInside | qemu-center/src/main.rs:660-672 | An accepted authorization path names something in the directory of the presets and never climbs out of a directory |
| CliGate.OnePassPerJti | qemu-center/src/main.rs:674-700 | No two attempts on the same state directory pass with the same JTI, whatever the clocks show |
| CliGate.PassWasConsumed | qemu-center/src/main.rs:2387-2455 | If the gate opens, the service issued this very grant, on a request for this VM and instance that the client's device had signed, and later consumed it and returned this very receipt; its artifact is the guest script although only the action is checked |
| CliGate.ReceiptOpensGate | qemu-center/src/main.rs:514-658 | In every joint run, an attempt with a grant that the service consumed and the receipt it returned passes if and only if target, clocks, arguments and ledger agree: no receipt of the service is refused for what it says |
| CliGate.PassesRestOnDifferentReceipts | qemu-center/src/main.rs:674-700 | Different passes rest on different grants and different consumptions |
| CliGate.JtiDecides | qemu-center/src/main.rs:641-656 | For signed grants and receipts, the comparison of ten fields holds if and only if the JTIs agree |
| VmPorts.NextFreePort | qemu-center/src/vm.rs:457-459 | The result is the lowest free unreserved port at or above the base, and none only if there is none |
| VmPorts.AllocatePortBlock | qemu-center/src/vm.rs:463-484 | The loop computes the specified search, the overflow of its 16-bit addition included |
| VmPorts.AllocateExact | qemu-center/src/vm.rs:463-484 | The block is the lowest free run that ends below 65535, if there is one; if not, exhaustion is reported exactly when not one block fits the port space, and otherwise the addition overflows |
| VmPorts.HighestPortIsNeverGiven | qemu-center/src/vm.rs:474-475 | For all ports in use, every base and every block size: a free block exists and none is given if and only if the only free block is the one that ends at 65535; the addition then overflows |
| VmRegistry.Registry.Used | qemu-center/src/vm.rs:558-566 | The set holds exactly the SSH, QMP and ADB ports of all VMs |
| VmRegistry.Registry.Choose | qemu-center/src/main.rs:1348-1369 | SSH port, QMP port and block are chosen in turn, each avoiding the earlier ones |
| VmRegistry.Registry.Create | qemu-center/src/main.rs:1323-1473 | A VM is added with the chosen ports, or the first failing check is reported and nothing changes |
| VmRegistry.Registry.Clone | qemu-center/src/main.rs:2160-2270 | A clone is added as a VM of its own, with ports of its own |
| VmRegistry.Registry.Delete | qemu-center/src/main.rs:1980-1980 | Exactly the entries of other names remain, in order |
| VmRegistry.Registry.CreateInstance | qemu-center/src/main.rs:2467-2543 | A new instance is assigned the next free port of the block, once |
| VmRegistry.Registry.SetMemory | qemu-center/src/main.rs:1606-1612 | Only that VM's memory changes |
| VmRegistry.Registry.RegisterSnapshot | qemu-center/src/main.rs:2076-2089 | The tag is recorded once |
| VmRegistry.NextFreeAdbPort | qemu-center/src/vm.rs:521-524 | The loop finds the specified port |
| VmRegistry.ChosenPortsOk | qemu-center/src/main.rs:1348-1369 | Chosen ports are distinct, unreserved and unused |
| VmRegistry.CreatedKeeps | qemu-center/src/main.rs:1261-1489 | Creating keeps the registry invariant (valid distinct names, own disks, memory limits, pairwise distinct unreserved ports, injective assignments); the VM gets what was asked for, and no ports only after an unchecked overflow |
| VmRegistry.ClonedKeeps | qemu-center/src/main.rs:2160-2270 | Cloning keeps it; the clone has its source's memory and number of ports, at least one, and no instances or snapshots |
| VmRegistry.WithoutKeeps | qemu-center/src/main.rs:1980-1980 | Deleting keeps it and removes exactly that name |
| VmRegistry.AssignedKeeps | qemu-center/src/main.rs:2501-2540 | A new instance gets the lowest unassigned port of the block; other assignments stay and the map stays injective |
| VmRegistry.BlockHoldsItsSize | qemu-center/src/vm.rs:513-524 | The block is exhausted exactly when it holds as many instances as it has ports |
| VmRegistry.ForwardsNeverClash | qemu-center/src/vm.rs:163-169 | No two host forwards, of one VM or of two, use the same host port, and none is a QMP port or reserved |
| VmRegistry.SerialNamesOneInstance | qemu-center/src/main.rs:2884-2890 | An ADB serial names one instance of one VM |
| VmOutcomes.PortsAreLowest | qemu-center/src/main.rs:1348-1369 | The SSH port is the one asked for or the lowest free one from 22300 on, the QMP port the lowest free one from 23300 on, the block the lowest free run from its base on |
| VmOutcomes.CreateExact | qemu-center/src/main.rs:1323-1489 | A creation overlays the base image if and only if its checks pass and its disk can be prepared, and adds exactly the entry asked for if and only if overlay and registry are written |
| VmOutcomes.CreateRefuses | qemu-center/src/main.rs:1323-1473 | Each error of a creation says which check failed |
| VmOutcomes.CloneSucceeds | qemu-center/src/main.rs:2160-2270 | A clone is registered if and only if its source is known to be stopped, the new name is free and every step succeeds; it overlays its source's disk, has its memory and ports of its own |
| VmOutcomes.CloneCleansUp | qemu-center/src/main.rs:2196-2270 | A clone that fails after it made its directory removes it and the copied keys, unless the choice of ports overflows |
| VmOutcomes.StartExact | qemu-center/src/main.rs:1493-1590 | A QEMU is launched, for the VM's own disk, port and memory, if and only if the VM is known to be stopped, fits the memory and the process can be spawned |
| VmOutcomes.SnapshotExact | qemu-center/src/main.rs:1997-2073 | A snapshot is written by qemu-img if and only if the VM is known to be stopped, over QMP if and only if its QEMU answers, and otherwise not at all |
| VmOutcomes.SnapshotRegisters | qemu-center/src/main.rs:2048-2089 | The tag is registered if and only if the snapshot was made and the registry written: once, for that VM only |
| VmOutcomes.RestoreExact | qemu-center/src/main.rs:2093-2156 | A restore happens if and only if the tag is registered and the VM is known to be stopped; it writes that VM's disk |
| VmOutcomes.SetMemoryExact | qemu-center/src/main.rs:1594-1617 | The memory changes if and only if the VM is known to be stopped and the limits hold; no other VM changes |
| VmOutcomes.DeleteExact | qemu-center/src/main.rs:1954-1993 | A deletion removes exactly that VM from the registry if and only if its guards hold; a directory is removed if and only if it then was asked to purge |
| VmOutcomes.PlainDeleteKeepsFiles | qemu-center/src/main.rs:1984-1990 | Without purge no disk and no key of any VM is removed |
| VmOutcomes.PurgeRemovesOwnFiles | qemu-center/src/main.rs:1798-1821 | With purge the VM's disk and keys are removed, and the disk of no other VM |
| VmOutcomes.CreateInstanceExact | qemu-center/src/main.rs:2467-2543 | An instance is assigned if and only if its name is new, the block has a port left and the gate and the other checks let it |
| VmOutcomes.VerifyExact | qemu-center/src/verify.rs:558-672 | The timing probe acts if and only if its tool is found and the VM's port refused, or answered and its channel opened; it then makes a snapshot by the one legal writer, deletes it if it was made, and makes and removes an overlay of its own |
| LiveDisk.StartNeedsHeadroom | qemu-center/src/vm.rs:873-888 | With known free memory, a start is blocked exactly if the memory size is 0 or the VM and one gibibyte do not fit; with unknown free memory, never; the saturation does not matter |
| LiveDiskRuns.UnderOwnDirOnly | qemu-center/src/vm.rs:408-424 | For validated names, a VM's directory contains no other VM's disk |
| LiveDiskRuns.PortFreeMeansStopped | qemu-center/src/vm.rs:843-864 | A QMP port that no QEMU holds means that its VM is not running |
| LiveDiskRuns.DeleteMeansStopped | qemu-center/src/vm.rs:935-949 | A deletion that goes ahead is of a stopped VM, also when only the recorded process and the port say so |
| LiveDiskRuns.SnapshotSafe | qemu-center/src/main.rs:1997-2073 | A snapshot writes the image with qemu-img only if no QEMU owns it, and otherwise only through the QEMU that does |
| LiveDiskRuns.RestoreSafe | qemu-center/src/main.rs:2093-2156 | A restore writes only the image of a stopped VM |
| LiveDiskRuns.CloneSafe | qemu-center/src/main.rs:2160-2270 | A clone, also one that fails half way, touches nothing of a running QEMU |
| LiveDiskRuns.StartSafe | qemu-center/src/main.rs:1493-1590 | A start never shares a disk, a QMP port or a VM with a running QEMU |
| LiveDiskRuns.DeleteSafe | qemu-center/src/main.rs:1954-1993 | A deletion removes nothing of a running QEMU |
| LiveDiskRuns.VerifySafe | qemu-center/src/verify.rs:558-672 | The timing probe writes a live disk only through its own QEMU |
| LiveDiskRuns.CommandSafe | qemu-center/src/main.rs:1261-2548 | No effect of any command writes, overlays or removes the disk of a running QEMU |
| LiveDiskRuns.NextKeeps | qemu-center/src/main.rs:1261-2548 | Every command keeps: running QEMUs belong to registered VMs with the same disk, QMP port and memory, one per VM |
| LiveDiskRuns.BackingExact | qemu-center/src/verify.rs:648-661 | An overlay is backed by a running QEMU's disk exactly if a creation that passes its checks names that disk as base image, or the timing probe finds its tool, reaches a VM over QMP, and the VM's QEMU still runs; never by a clone |
| LiveDiskRuns.VerifyOverlaysLiveDisk | qemu-center/src/verify.rs:648-660 | One running VM is enough for the second case |
| LiveDiskRuns.RunSafe | qemu-center/src/main.rs:1261-2548 | In every run from an empty registry, every effect of every command is safe |
| LiveDiskRuns.RunningIsRegistered | qemu-center/src/vm.rs:843-984 | In every state of a run, a running QEMU has its VM's disk, QMP port and memory, and no two share a VM, a disk or a port |
| LiveDiskRuns.RestoredWasTaken | qemu-center/src/main.rs:2128-2137 | In every run, a restore goes back only to a snapshot that an earlier command took of a VM of that name, with no deletion of that name in between |
| LiveDiskRuns.RunPorts | qemu-center/src/vm.rs:457-566 | In every state of a run, all forwarded and QMP ports are pairwise different and outside 5555-6000 |
| LiveDiskRuns.RunSerials | qemu-center/src/main.rs:2884-2890 | In every state of a run, an ADB serial names one instance of one VM, on a port of its block |
| VmCommands.Center.CreateVm | qemu-center/src/main.rs:1323-1489 | The command changes registry and disks as specified, in order |
| VmCommands.Center.CloneVm | qemu-center/src/main.rs:2160-2270 | Likewise for clone, with what each failure removes |
| VmCommands.Center.StartVm | qemu-center/src/main.rs:1493-1590 | Likewise for start |
| VmCommands.Center.SnapshotVm | qemu-center/src/main.rs:1997-2073 | Likewise for snapshot |
| VmCommands.Center.RestoreVm | qemu-center/src/main.rs:2093-2156 | Likewise for restore |
| VmCommands.Center.SetVmMemory | qemu-center/src/main.rs:1594-1617 | Likewise for set-memory |
| VmCommands.Center.DeleteVm | qemu-center/src/main.rs:1954-1993 | Likewise for delete and purge |
| VmCommands.Center.VerifyCloneTiming | qemu-center/src/verify.rs:558-672 | Likewise for the timing probe |
| IsoNames.SortedByNameSorts | qemu-center/src/iso.rs:175-175 | Sorting yields a sorted permutation |
| IsoNames.AcceptedIsStored | qemu-center/src/iso.rs:163-189 | What passes the checks is a permutation of the input under valid, distinct, uppercased names, sorted |
| IsoNames.AcceptedForgetsOrder | qemu-center/src/iso.rs:168-189 | The checks do not depend on the order of the input, except that a bad name is the first one met |
| IsoAcceptance.BuildIsoSucceeds | qemu-center/src/iso.rs:163-196 | A list is accepted if and only if it has at most 32 files, valid names that differ also when case is ignored, and at most 16 MiB; each error says which of these fails first |
| IsoImage.RootFits | qemu-center/src/iso.rs:191-199 | The root directory of every accepted input takes at most 1988 bytes of one sector, so no record is ever moved |
| IsoFields.RecordReadsBoth | qemu-center/src/iso.rs:121-160 | Wherever a directory record lies, its extent, size and volume number read the same in both byte orders |
| IsoFields.DescriptorAgrees | qemu-center/src/iso.rs:222-300 | In every built image the halves of every number of the volume descriptor agree, the volume space is the image's length in sectors, and descriptor, path tables and the directory's own records name the root directory's sector |
| IsoFields.RecordsAgree | qemu-center/src/iso.rs:235-305 | In every built image each file's record gives its name, and in both byte orders the extent at which its bytes lie and their number |
| IsoBuilder.CheckFiles | qemu-center/src/iso.rs:163-189 | The checks, in order, each with its error |
| IsoBuilder.WriteDirRecord | qemu-center/src/iso.rs:127-159 | A record is appended, after zeros to the next sector if it does not fit |
| IsoBuilder.AssignExtents | qemu-center/src/iso.rs:201-207 | Each file starts where the one before it ends |
| IsoBuilder.WriteRoot | qemu-center/src/iso.rs:222-246 | The root directory lists each file at its extent |
| IsoBuilder.WritePvd | qemu-center/src/iso.rs:251-285 | The volume descriptor has the specified bytes at the specified offsets, and what lies between stays zero |
| IsoBuilder.WriteFiles | qemu-center/src/iso.rs:301-305 | Each file lies at its own sector and nothing else changes |
| IsoBuilder.BuildIso | qemu-center/src/iso.rs:163-308 | The buffer, filled from front to back, is the specified image, or the first failing check is reported |
| IsoParser.ParseIso | qemu-center/src/iso.rs:319-406 | The loop over the root directory computes the specified result, panics of an index included |
| IsoRoundTrip.NameReads | qemu-center/src/iso.rs:381-390 | Stripping version and dot and lowercasing an identifier gives back the lowercased name |
| IsoRoundTrip.RoundTrip | qemu-center/src/iso.rs:163-406 | Parsing a built image returns CIDATA and the stored files under lowercased names, in the order of the uppercased names |
| IsoRoundTrip.EveryFileReturns | qemu-center/src/iso.rs:163-406 | Every input file comes back with its contents under its lowercased name, and nothing else does |
| IsoRoundTrip.OrderDoesNotMatter | qemu-center/src/iso.rs:168-209 | Success and output bytes are the same for every order of the input |
| IsoRoundTrip.IsoSizeBytes | qemu-center/src/iso.rs:410-424 | The two loops compute the specified size |
| IsoRoundTrip.SizeExact | qemu-center/src/iso.rs:410-424 | The size is the length of the image if and only if some file is not empty; otherwise the image is one sector longer |
| Reclaim.PlanMemoryReclaim | qemu-center/src/redroid.rs:264-310 | The loop and the saturating arithmetic compute the specified plan |
| Reclaim.PlanExact | qemu-center/src/redroid.rs:264-310 | On every input the plan is that of exact arithmetic: refused at the first unknown row, a reclaim if and only if a whole quantum is left above the exact target |
| Reclaim.StatusesDisjoint | qemu-center/src/redroid.rs:230-262 | No status counts as both active and inactive, and the literal words of each are recognised whatever their case and surrounding blanks |
| Reclaim.ReclaimIsSafe | qemu-center/src/redroid.rs:288-309 | A reclaim means all metrics were known, the target is the least multiple of 256 at or above 1536 and used plus reserve, it covers the bytes in use with the reserve, and leaves at least 256 MiB; the reserve is the larger of the base reserve and the share of the active instances |
| Shell.QuotedReads | qemu-center/src/guest.rs:262-264 | For every string, its quoted form reads as one word, equal to the string |
| Shell.DockerCommandReads | qemu-center/src/guest.rs:20-32 | For every argument list the shell reads one command: sudo -n docker and exactly the arguments |
| Shell.AuthorizationCheckReads | qemu-center/src/guest.rs:142-145 | The check tests and then prints exactly the given file |

## Left out

- Cryptography, base64, JSON and SQLite: libraries; signatures are sets of signed payloads, tables are maps.
- Error texts: errors are constructors, with the data the code puts into them where it matters.
- Handler interleavings: handlers are atomic, so the claims about live sessions say nothing about two requests that overlap.
- QMP request and reply matching: a frame without an error member counts as a reply there, so a command is not known to get its own reply.
- Parsing of foreign ISO images: the parser is modelled on all byte sequences, but nothing is proved about images the builder did not make.
- IsoParser.ParseIso: bytes that are not ASCII are replaced one by one, where the code replaces each malformed UTF-8 sequence once and decodes well-formed ones; no image of the builder has such bytes.
- Shell.QuotedReads: a string with a NUL is read back too, but no host can pass a NUL in a command line.
- FAT label of foreign images: the reader's label is kept as bytes.
- Backing chains after a clone: nothing in the code keeps the source from being started or purged later, so no claim is made about the clone's backing file.
- Sum of container limits: the budget check charges the new instance's size for every running one, which bounds no real sum.
- Concurrent command-line processes: the registry file has no lock.
- Starting processes, SSH, ADB, downloads, setup and doctor checks, cloud-init text: input and output.
- VM fields without a role here: accelerator, CPUs, creation time, cloud-init data and image names are not in the model's registry entry.
- Redroid creation beyond its gate and port: profiles, binds and the resource budget are one condition.
- TypeScript, React, Tauri and Python files: user interface and wrappers.
- AuthService.Service.PrepareArtifact: the ephemeral key exchange is a condition on the request; chunk encryption is left out, so a served chunk is its plaintext and nonce.
- AuthService.Service.ArtifactChunk: a served chunk is its plaintext and nonce, without the encryption.
- AuthCapabilities.LostCapabilityExact: it takes a nonce that is not reserved, since a service that had reserved every nonce there is could renew no session.
- LiveDiskRuns.CommandSafe: seed images, key generation and log files are not effects, since no disk lies where they are written.
- CliGate.Host.ConsumeReceiptOnce: a ledger file is identified with its JTI; a file system that folds case could only refuse more.
