/** What each command does, and exactly when it does it, in terms of what its caller can see before:
    the registry, the probe of the VM's port, and whether a tool, a file or a port was found. */
module VmOutcomes {
  import opened Bytes
  import opened VmPorts
  import opened VmRegistry
  import opened LiveDisk
  import opened LiveDiskRuns

  // ------------------------------------------------------------------ ports --

  /** The SSH port is the one asked for or the lowest free one from 22300 on; the QMP port the lowest
      free one from 23300 on; the block the lowest free run from its base on. */
  lemma PortsAreLowest(used: set<word>, ssh: Option<word>, base: word, count: word, checked: bool)
    ensures var r := ChoosePorts(used, ssh, base, count, checked);
      && (ssh.Some? ==> (r == Err(PortTaken) <==> !Free(used, ssh.value)))
      && (r.Ok? ==>
           && var p := r.value;
           && (if ssh.Some? then p.ssh == ssh.value && Free(used, p.ssh) else IsLowestFree(used, 22300, Some(p.ssh)))
           && IsLowestFree(used + {p.ssh}, 23300, Some(p.qmp))
           && (p.adb == [] ==> !checked)
           && (p.adb != [] ==>
                && |p.adb| == count && IsLowestRun(used + {p.ssh} + {p.qmp}, base, count, p.adb[0])
                && forall k :: 0 <= k < count ==> p.adb[k] == p.adb[0] + k))
  {
    var r := ChoosePorts(used, ssh, base, count, checked);
    if r.Ok? {
      AllocateExact(used + {r.value.ssh} + {r.value.qmp}, base, count, checked);
    }
  }

  lemma PortsRefused(used: set<word>, ssh: Option<word>, base: word, count: word, checked: bool)
    requires ChoosePorts(used, ssh, base, count, checked).Err?
    ensures match ChoosePorts(used, ssh, base, count, checked).error
      case PortTaken => ssh.Some? && !Free(used, ssh.value)
      case ZeroPorts => count == 0
      case NoPort | NoBlock | ArithmeticOverflow => true
      case _ => false
  {
    hide NextFree, Allocate;
    forall taken: set<word>
      ensures Allocate(taken, base, count, checked) == ZeroCount <==> count == 0
    {
      AllocateExact(taken, base, count, checked);
    }
  }

  // ----------------------------------------------------------------- probes --

  /** The VM's QMP port refused, or did not answer on a host that runs no QEMU at all. */
  predicate SeenStopped(p: Probe)
  {
    p.probe.Refused? || (p.probe.TimedOut? && p.hostHasQemu == Some(false))
  }

  lemma LivenessIs(p: Probe)
    ensures LivenessOf(p).Stopped? <==> SeenStopped(p)
    ensures LivenessOf(p).Running? <==> p.probe.Answered?
  {
  }

  function Named(s: State, name: string): (v: VmEntry)
    requires Contains(s.vms, name)
  {
    s.vms[IndexOf(s.vms, name)]
  }

  // ----------------------------------------------------------------- delete --

  /** The effects remove the file at `path`. */
  ghost predicate Removes(effects: seq<Effect>, path: string)
  {
    exists i :: 0 <= i < |effects|
      && (effects[i] == RemoveFile(path) || (effects[i].RemoveTree? && Under(effects[i].dir, path)))
  }

  /** The VM is registered; it is known to be stopped, or nothing is known but that its recorded process
      is gone and its port free; and the registry can be written. */
  predicate DeletionGoesAhead(s: State, c: Command)
    requires c.Delete?
  {
    && Contains(s.vms, c.name) && c.saved
    && (SeenStopped(c.seen)
        || (!c.seen.probe.Answered? && c.recordedPid && c.processAlive == Some(false) && c.portFree))
  }

  /** A deletion takes exactly the VM of that name out of the registry. A directory is removed if and
      only if the deletion goes ahead and was asked to purge. */
  lemma DeleteExact(s: State, c: Command)
    requires LiveOk(s) && c.Delete?
    ensures var r := Execute(s, c);
      && (!DeletionGoesAhead(s, c) ==> r.vms == s.vms && r.effects == [])
      && (DeletionGoesAhead(s, c) ==> r.effects != [] && forall v :: v in r.vms <==> v in s.vms && v.name != c.name)
      && ((exists i :: 0 <= i < |r.effects| && r.effects[i].RemoveTree?) <==> DeletionGoesAhead(s, c) && c.purge)
  {
    LivenessIs(c.seen);
    WithoutKeeps(s.vms, s.stateDir, c.name);
    hide Without, LiveOk, LivenessOf, RegistryOk;
    var r := Execute(s, c);
    if DeletionGoesAhead(s, c) && c.purge {
      assert r.effects[0] == RemoveTree(DirOf(s.stateDir, c.name));
    }
  }

  lemma KeyIsNoPid(dir: string, name: string, n: string, i: nat)
    requires i < 2
    ensures KeyFiles(dir, n)[i] != DirOf(dir, name) + "/qemu.pid"
    ensures !Under(DirOf(dir, name), KeyFiles(dir, n)[i])
  {
    var at := |dir| + 1;
    assert (DirOf(dir, name) + "/qemu.pid")[at] == 'v' && (DirOf(dir, name) + "/")[at] == 'v';
    assert KeyFiles(dir, n)[i][at] == 'k';
  }

  /** Without purge, no disk and no key of any VM is removed, only the file that records the process. */
  lemma PlainDeleteKeepsFiles(s: State, c: Command, n: string)
    requires LiveOk(s) && c.Delete? && !c.purge && ValidName(n)
    ensures var effects := Execute(s, c).effects;
      && !Removes(effects, DiskOf(s.stateDir, n)) && !Removes(effects, KeyFiles(s.stateDir, n)[0])
      && !Removes(effects, KeyFiles(s.stateDir, n)[1])
      && (effects != [] ==> effects == [RemoveFile(DirOf(s.stateDir, c.name) + "/qemu.pid")])
  {
    if Execute(s, c).effects != [] {
      var v := Found(s, c.name);
      hide LiveOk, DirOf, DiskOf, KeyFiles;
      SiblingIsNoDisk(s.stateDir, c.name, n, "/qemu.pid");
      KeyIsNoPid(s.stateDir, c.name, n, 0);
      KeyIsNoPid(s.stateDir, c.name, n, 1);
    }
  }

  /** With purge, the VM's disk and keys are removed, and no other VM's disk. */
  lemma PurgeRemovesOwnFiles(s: State, c: Command, n: string)
    requires LiveOk(s) && c.Delete? && c.purge && DeletionGoesAhead(s, c) && ValidName(n)
    ensures var effects := Execute(s, c).effects;
      && (Removes(effects, DiskOf(s.stateDir, n)) <==> n == c.name)
      && Removes(effects, KeyFiles(s.stateDir, c.name)[0]) && Removes(effects, KeyFiles(s.stateDir, c.name)[1])
  {
    LivenessIs(c.seen);
    var v := Found(s, c.name);
    var effects := Execute(s, c).effects;
    assert effects == PurgeEffects(s.stateDir, c.name);
    hide LiveOk, DirOf, DiskOf, KeyFiles, Execute, Under;
    UnderOwnDirOnly(s.stateDir, c.name, n);
    KeyIsNoDisk(s.stateDir, c.name, n, 0);
    KeyIsNoDisk(s.stateDir, c.name, n, 1);
    assert effects[0] == RemoveTree(DirOf(s.stateDir, c.name));
    assert effects[1] == RemoveFile(KeyFiles(s.stateDir, c.name)[0]);
    assert effects[2] == RemoveFile(KeyFiles(s.stateDir, c.name)[1]);
  }

  // ------------------------------------------------------------ create, clone --

  /** All checks of a creation, in terms of the request and the registry. */
  predicate MayCreate(s: State, q: CreateRequest)
  {
    && ValidName(q.name) && !Contains(s.vms, q.name) && q.accelOk && q.baseImageExists && q.adbCount > 0
    && 1536 <= q.memMib <= 16384 && ChoosePorts(UsedPorts(s.vms), q.ssh, q.adbBase, q.adbCount, s.checked).Ok?
  }

  /** A creation overlays the base image if its checks pass and its disk can be prepared, and registers
      the VM if the overlay and the registry are written. */
  lemma CreateExact(s: State, c: Command)
    requires c.Create?
    ensures var r, q := Execute(s, c), c.request;
      && (!(MayCreate(s, q) && c.beforeDiskOk) ==> r.effects == [] && r.vms == s.vms)
      && (MayCreate(s, q) && c.beforeDiskOk ==>
           && r.effects == [MakeOverlay(DiskOf(s.stateDir, q.name), c.baseImage)]
           && var p := ChoosePorts(UsedPorts(s.vms), q.ssh, q.adbBase, q.adbCount, s.checked).value;
           r.vms == if c.overlayMade && c.saved
             then s.vms + [VmEntry(q.name, DiskOf(s.stateDir, q.name), q.memMib, p.ssh, p.qmp, p.adb, map[], [])]
             else s.vms)
  {
    hide ChoosePorts, UsedPorts, DiskOf, ValidName;
  }

  /** Why a creation is refused: the first check that fails. */
  lemma CreateRefuses(s: State, q: CreateRequest)
    requires Created(s.vms, s.stateDir, q, s.checked).Err?
    ensures match Created(s.vms, s.stateDir, q, s.checked).error
      case BadName => !ValidName(q.name)
      case BadImage => !q.accelOk || !q.baseImageExists
      case BadMemory => q.memMib < 1536 || q.memMib > 16384
      case AlreadyExists => Contains(s.vms, q.name)
      case PortTaken => q.ssh.Some? && !Free(UsedPorts(s.vms), q.ssh.value)
      case ZeroPorts => q.adbCount == 0
      case NoPort | NoBlock | ArithmeticOverflow =>
        ValidName(q.name) && !Contains(s.vms, q.name) && q.adbCount > 0 && 1536 <= q.memMib <= 16384
      case NotRegistered | AlreadyAssigned | BlockExhausted => false
  {
    hide UsedPorts, DiskOf, ValidName, ChoosePorts;
    if ChoosePorts(UsedPorts(s.vms), q.ssh, q.adbBase, q.adbCount, s.checked).Err? {
      PortsRefused(UsedPorts(s.vms), q.ssh, q.adbBase, q.adbCount, s.checked);
    }
  }

  /** What a clone checks before it writes anything: only a VM that is known to be stopped is cloned, under
      a new name whose directory does not exist. */
  predicate MayOverlay(s: State, c: Command)
    requires c.Clone?
  {
    && ValidName(c.newName) && !Contains(s.vms, c.newName) && Contains(s.vms, c.name) && SeenStopped(c.seen)
    && c.luck.toolFound && !c.luck.dirExists && c.luck.dirMade
  }

  /** A clone asks for as many ports as its source's block has, at least one. */
  lemma CloneCountIs(source: VmEntry)
    requires |source.adb| <= U16_MAX
    ensures CloneCount(source) == if source.adb == [] then 1 else |source.adb|
  {
  }

  function ClonePorts(s: State, c: Command): (r: Result<NewPorts, VmError>)
    requires c.Clone? && Contains(s.vms, c.name)
  {
    ChoosePorts(UsedPorts(s.vms), None, 24500, CloneCount(Named(s, c.name)), s.checked)
  }

  /** A clone is registered exactly if everything it needs succeeds; then its disk overlays the source's,
      it has the source's memory and ports of its own, and nothing is removed. */
  lemma CloneSucceeds(s: State, c: Command)
    requires c.Clone?
    ensures var r := Execute(s, c);
      r.vms != s.vms <==>
        && MayOverlay(s, c) && c.luck.overlayMade && c.luck.keysCopied && ClonePorts(s, c).Ok? && c.luck.saved
    ensures var r := Execute(s, c);
      r.vms != s.vms ==>
        && Contains(s.vms, c.name) && ClonePorts(s, c).Ok?
        && var source, p := Named(s, c.name), ClonePorts(s, c).value;
        && r.effects == [MakeOverlay(DiskOf(s.stateDir, c.newName), source.disk)]
        && r.vms == s.vms + [VmEntry(c.newName, DiskOf(s.stateDir, c.newName), source.memMib, p.ssh, p.qmp, p.adb,
             map[], [])]
  {
    LivenessIs(c.seen);
    CloneIs(s, c);
    hide ChoosePorts, UsedPorts, DiskOf, DirOf, ValidName, PurgeEffects, LivenessOf, CloneCount, Execute;
  }

  /** A clone that fails after it has made its directory removes it again, and the copied keys with it once
      the ports are chosen; only an overflow in the choice of ports, which ends the program, does not. */
  lemma CloneCleansUp(s: State, c: Command)
    requires c.Clone?
    ensures Execute(s, c).effects != [] <==> MayOverlay(s, c)
    ensures var r, made := Execute(s, c), c.luck.overlayMade && c.luck.keysCopied;
      MayOverlay(s, c) && r.vms == s.vms && !(made && ClonePorts(s, c) == Err(ArithmeticOverflow)) ==>
        && RemoveTree(DirOf(s.stateDir, c.newName)) in r.effects
        && (made ==>
             && RemoveFile(KeyFiles(s.stateDir, c.newName)[0]) in r.effects
             && RemoveFile(KeyFiles(s.stateDir, c.newName)[1]) in r.effects)
  {
    LivenessIs(c.seen);
    CloneIs(s, c);
    hide ChoosePorts, UsedPorts, DiskOf, DirOf, ValidName, LivenessOf, CloneCount, Execute, KeyFiles;
    var purge := PurgeEffects(s.stateDir, c.newName);
    assert purge[0] == RemoveTree(DirOf(s.stateDir, c.newName));
    assert purge[1] == RemoveFile(KeyFiles(s.stateDir, c.newName)[0]);
    assert purge[2] == RemoveFile(KeyFiles(s.stateDir, c.newName)[1]);
  }

  // ------------------------------------------------------------------- start --

  /** A VM with memory fits the free memory with one gibibyte to spare, if the free memory is known. */
  predicate FitsMemory(available: Option<nat>, memMib: dword)
  {
    available.Some? ==> memMib > 0 && available.value >= (memMib + 1024) * 1024 * 1024
  }

  predicate MayLaunch(s: State, c: Command)
    requires c.Start?
  {
    && Contains(s.vms, c.name) && SeenStopped(c.seen) && c.spawned
    && FitsMemory(c.available, Named(s, c.name).memMib)
  }

  /** A start launches one QEMU, for the VM's own disk, port and memory, exactly if the VM is known to be
      stopped, fits the memory, and the process can be spawned. */
  lemma StartExact(s: State, c: Command)
    requires c.Start?
    ensures var r := Execute(s, c);
      && r.vms == s.vms
      && (r.started != {} <==> MayLaunch(s, c))
      && (r.started != {} ==>
           && Contains(s.vms, c.name)
           && var p := Process(c.pid, c.name, Named(s, c.name).disk, Named(s, c.name).qmp, Named(s, c.name).memMib);
           r.started == {p} && r.effects == [Launch(p)])
      && (r.started == {} ==> r.effects == [])
  {
    LivenessIs(c.seen);
    if Contains(s.vms, c.name) && c.available.Some? {
      StartNeedsHeadroom(c.available.value, Named(s, c.name).memMib);
    }
    hide BlocksStart, LivenessOf;
  }

  // ---------------------------------------------------------------- snapshots --

  /** A snapshot is taken by the one legal writer: by qemu-img if the VM is known to be stopped, over QMP if
      its QEMU answers, and not at all otherwise. */
  lemma SnapshotExact(s: State, c: Command)
    requires c.Snapshot?
    ensures var r, asked := Execute(s, c), c.tagOk && Contains(s.vms, c.name) && c.toolFound;
      && (asked && SeenStopped(c.seen) ==> r.effects == [WriteImage(Named(s, c.name).disk)])
      && (asked && c.seen.probe.Answered? && c.channelOk ==>
           r.effects == [WriteOverQmp(Named(s, c.name).qmp, Named(s, c.name).disk)])
      && (r.effects == [] <==> !asked || !(SeenStopped(c.seen) || (c.seen.probe.Answered? && c.channelOk)))
  {
    LivenessIs(c.seen);
    hide LivenessOf, Replaced, SnapshotRegistered;
  }

  /** The tag is registered exactly if the snapshot was made and the registry written: once, and for that
      VM only. */
  lemma SnapshotRegisters(s: State, c: Command)
    requires c.Snapshot?
    ensures var r := Execute(s, c);
      && |r.vms| == |s.vms|
      && (!(r.effects != [] && c.done && c.saved) ==> r.vms == s.vms)
      && (r.effects != [] && c.done && c.saved ==>
           && Contains(s.vms, c.name)
           && var i := IndexOf(s.vms, c.name);
           && r.vms[i] == s.vms[i].(snapshots := r.vms[i].snapshots)
           && r.vms[i].snapshots == (if c.tag in s.vms[i].snapshots then s.vms[i].snapshots
             else s.vms[i].snapshots + [c.tag])
           && forall k :: 0 <= k < |s.vms| && k != i ==> r.vms[k] == s.vms[k])
  {
    hide LivenessOf;
  }

  /** A restore happens exactly for a registered tag of a VM that is known to be stopped. */
  lemma RestoreExact(s: State, c: Command)
    requires c.Restore?
    ensures var r := Execute(s, c);
      var goes := c.tagOk && Contains(s.vms, c.name) && SeenStopped(c.seen) && c.tag in Named(s, c.name).snapshots
        && c.toolFound;
      r.vms == s.vms && r.effects == if goes then [WriteImage(Named(s, c.name).disk)] else []
  {
    LivenessIs(c.seen);
    hide LivenessOf;
  }

  // -------------------------------------------------------- memory, instances --

  /** The memory changes exactly for a VM that is known to be stopped, within the limits. */
  lemma SetMemoryExact(s: State, c: Command)
    requires c.SetMemory?
    ensures var r, goes := Execute(s, c), Contains(s.vms, c.name) && SeenStopped(c.seen) && 1536 <= c.memMib <= 16384
      && c.saved;
      && r.effects == [] && |r.vms| == |s.vms|
      && forall k :: 0 <= k < |s.vms| ==>
           r.vms[k] == if goes && k == IndexOf(s.vms, c.name) then s.vms[k].(memMib := c.memMib) else s.vms[k]
  {
    LivenessIs(c.seen);
    hide LivenessOf;
  }

  /** A new instance is assigned exactly if the name is new and the block has a port left. */
  lemma CreateInstanceExact(s: State, c: Command)
    requires LiveOk(s) && c.CreateInstance?
    ensures var r := Execute(s, c);
      && r.effects == []
      && (r.vms != s.vms <==>
           && Contains(s.vms, c.name) && c.otherChecksOk && c.saved
           && c.instance !in Named(s, c.name).assignments && |Named(s, c.name).assignments| < |Named(s, c.name).adb|)
  {
    if Contains(s.vms, c.name) {
      var v := Found(s, c.name);
      hide LiveOk;
      BlockHoldsItsSize(v, s.stateDir);
    }
  }

  // -------------------------------------------------------------------- verify --

  /** The timing probe acts exactly on a VM whose port refused, or that answered and whose channel opened: the
      one legal writer makes a snapshot, and deletes it if it was made; then an overlay of the VM's disk is
      made in its directory and removed. The registry stays as it is. */
  lemma VerifyExact(s: State, c: Command)
    requires c.VerifyTiming?
    ensures var r := Execute(s, c);
      && r.vms == s.vms
      && (r.effects != [] <==>
           Contains(s.vms, c.name) && c.toolFound && (c.probe.Refused? || (c.probe.Answered? && c.channelOk)))
      && (r.effects != [] ==>
           && Contains(s.vms, c.name)
           && var v, overlay := Named(s, c.name), DirOf(s.stateDir, c.name) + "/clone-" + c.tag + ".qcow2";
           var write := if c.probe.Refused? then WriteImage(v.disk) else WriteOverQmp(v.qmp, v.disk);
           r.effects == (if c.snapshotMade then [write, write] else [write])
             + [MakeOverlay(overlay, v.disk), RemoveFile(overlay)])
  {
    VerifyIs(s, c);
    hide Execute;
  }
}
