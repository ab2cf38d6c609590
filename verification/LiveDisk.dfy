/** Live-disk safety: which commands may touch a VM's disk, and why none of them ever touches the
    disk of a running QEMU.

    The environment is modelled by arguments: what a probe of a QMP port saw, what the host's
    process list said, whether a tool succeeded. QEMU processes appear only by `vm start`, hold
    their QMP port while they live, and may exit at any moment. */
module LiveDisk {
  import opened Bytes
  import opened Saturating
  import opened VmPorts
  import opened VmRegistry

  // --------------------------------------------------------------- liveness --

  datatype QmpProbe = Answered | Refused | TimedOut

  datatype VmLiveness = Running | Stopped | Unknown

  datatype SnapshotPlan = QemuImg | QmpInternal | Skip

  function FromProbe(probe: QmpProbe): (l: VmLiveness)
  {
    match probe
    case Answered => Running
    case Refused => Stopped
    case TimedOut => Unknown
  }

  /** A host without any QEMU process settles a probe that timed out. */
  function FromProbeAndHost(probe: QmpProbe, hostHasQemu: Option<bool>): (l: VmLiveness)
  {
    if probe.TimedOut? && hostHasQemu == Some(false) then Stopped else FromProbe(probe)
  }

  function PlanSnapshot(l: VmLiveness, qmpUsable: bool): (p: SnapshotPlan)
  {
    match l
    case Stopped => QemuImg
    case Running => if qmpUsable then QmpInternal else Skip
    case Unknown => Skip
  }

  predicate MayClone(l: VmLiveness)
  {
    l.Stopped?
  }

  predicate MayDelete(l: VmLiveness, recordedPid: bool, processAlive: Option<bool>, portFree: bool)
  {
    if l.Unknown? then recordedPid && processAlive == Some(false) && portFree else l.Stopped?
  }

  predicate MaySetMemory(l: VmLiveness, memMib: dword)
  {
    l.Stopped? && MIN_VM_MEMORY_MIB <= memMib <= MAX_VM_MEMORY_MIB
  }

  const VM_START_HEADROOM_MIB := 1024
  predicate BlocksStart(available: Option<nat>, memMib: dword)
  {
    && available.Some?
    && (memMib == 0 || available.value < Mul64(Add64(memMib, VM_START_HEADROOM_MIB), 1024 * 1024))
  }

  /** No 32-bit memory size makes the requirement saturate: with a known amount of free memory, a
      start goes ahead exactly if the VM has memory, and fits with one gibibyte of headroom; without
      one, it always goes ahead. */
  lemma StartNeedsHeadroom(available: nat, memMib: dword)
    ensures BlocksStart(Some(available), memMib) <==> memMib == 0 || available < (memMib + 1024) * 1024 * 1024
    ensures !BlocksStart(None, memMib)
  {
    assert (memMib + 1024) * (1024 * 1024) <= (0xFFFF_FFFF + 1024) * (1024 * 1024) <= U64_MAX;
  }

  // ------------------------------------------------------------------ state --

  datatype Process = Process(pid: nat, vm: string, disk: string, port: word, memMib: dword)

  datatype State = State(stateDir: string, checked: bool, vms: seq<VmEntry>, live: set<Process>)

  /** Something a command does to a file or a process, in order. */
  datatype Effect =
    | WriteImage(disk: string)                     // qemu-img snapshot -c, -d or -a
    | MakeOverlay(disk: string, backing: string)   // qemu-img create, with or without -b
    | WriteOverQmp(port: word, disk: string)       // a block command to whichever QEMU answers
    | RemoveTree(dir: string)
    | RemoveFile(path: string)
    | Launch(process: Process)

  predicate Under(dir: string, path: string)
  {
    dir + "/" <= path
  }

  /** The effect leaves every disk of a running QEMU alone, except that a QEMU may write its own. */
  ghost predicate Safe(e: Effect, live: set<Process>)
  {
    match e
    case WriteImage(d) => forall p :: p in live ==> p.disk != d
    case MakeOverlay(d, _) => forall p :: p in live ==> p.disk != d
    case WriteOverQmp(port, d) => forall p :: p in live && p.port == port ==> p.disk == d
    case RemoveTree(dir) => forall p :: p in live ==> !Under(dir, p.disk)
    case RemoveFile(f) => forall p :: p in live ==> p.disk != f
    case Launch(q) => forall p :: p in live ==> p.disk != q.disk && p.port != q.port && p.vm != q.vm && p.pid != q.pid
  }

  ghost predicate AllSafe(effects: seq<Effect>, live: set<Process>)
  {
    forall i :: 0 <= i < |effects| ==> Safe(effects[i], live)
  }

  /** Whether every overlay the effects make is backed by a disk that no running QEMU owns. */
  ghost predicate BackingsIdle(effects: seq<Effect>, live: set<Process>)
  {
    forall i, p | 0 <= i < |effects| && effects[i].MakeOverlay? && p in live :: p.disk != effects[i].backing
  }

  // --------------------------------------------------------------- commands --

  /** What a command learns about one VM before it acts. */
  datatype Probe = Probe(probe: QmpProbe, hostHasQemu: Option<bool>)

  /** How far a clone gets. */
  datatype CloneLuck = CloneLuck(toolFound: bool, dirExists: bool, dirMade: bool, overlayMade: bool, keysCopied: bool,
    saved: bool)

  datatype Command =
    | Create(request: CreateRequest, baseImage: string, beforeDiskOk: bool, overlayMade: bool, saved: bool)
    | Clone(name: string, newName: string, seen: Probe, luck: CloneLuck)
    | Start(name: string, seen: Probe, available: Option<nat>, pid: nat, spawned: bool)
    | Stop(name: string)
    | Snapshot(name: string, tagOk: bool, tag: string, seen: Probe, toolFound: bool, channelOk: bool, done: bool,
      saved: bool)
    | Restore(name: string, tagOk: bool, tag: string, seen: Probe, toolFound: bool)
    | SetMemory(name: string, memMib: dword, seen: Probe, saved: bool)
    | Delete(name: string, purge: bool, seen: Probe, recordedPid: bool, processAlive: Option<bool>, portFree: bool,
      saved: bool)
    | CreateInstance(name: string, instance: string, otherChecksOk: bool, saved: bool)
    | VerifyTiming(name: string, probe: QmpProbe, toolFound: bool, channelOk: bool, snapshotMade: bool, tag: string)
    | Nothing

  /** The VM a command probes. */
  function Probed(c: Command): (r: Option<(string, Probe)>)
  {
    match c
    case Clone(name, _, seen, _) => Some((name, seen))
    case Start(name, seen, _, _, _) => Some((name, seen))
    case Snapshot(name, _, _, seen, _, _, _, _) => Some((name, seen))
    case Restore(name, _, _, seen, _) => Some((name, seen))
    case SetMemory(name, _, seen, _) => Some((name, seen))
    case Delete(name, _, seen, _, _, _, _) => Some((name, seen))
    case VerifyTiming(name, probe, _, _, _, _) => Some((name, Probe(probe, None)))
    case _ => None
  }

  function ProcessOf(v: VmEntry, pid: nat): (p: Process)
  {
    Process(pid, v.name, v.disk, v.qmp, v.memMib)
  }

  function LivenessOf(seen: Probe): (l: VmLiveness)
  {
    FromProbeAndHost(seen.probe, seen.hostHasQemu)
  }

  function KeyFiles(stateDir: string, name: string): (paths: seq<string>)
  {
    [stateDir + "/keys/" + name + "_ed25519", stateDir + "/keys/" + name + "_ed25519.pub"]
  }

  function PurgeEffects(stateDir: string, name: string): (effects: seq<Effect>)
  {
    [RemoveTree(DirOf(stateDir, name)), RemoveFile(KeyFiles(stateDir, name)[0]),
      RemoveFile(KeyFiles(stateDir, name)[1])]
  }

  /** The registry afterwards, the effects, and the processes started. */
  datatype Step = Step(vms: seq<VmEntry>, effects: seq<Effect>, started: set<Process>)

  function Idle(vms: seq<VmEntry>): (r: Step)
  {
    Step(vms, [], {})
  }

  function CreateStep(s: State, c: Command): (r: Step)
    requires c.Create?
  {
    match Created(s.vms, s.stateDir, c.request, s.checked)
    case Err(_) => Idle(s.vms)
    case Ok(v) =>
      if !c.beforeDiskOk then Idle(s.vms)
      else Step(if c.overlayMade && c.saved then s.vms + [v] else s.vms, [MakeOverlay(v.disk, c.baseImage)], {})
  }

  /** The disk is written before the ports are chosen; a failure after that removes the new VM's
      directory, and from the choice of ports on also its keys. */
  function CloneStep(s: State, c: Command): (r: Step)
    requires c.Clone?
  {
    match CloneChecked(s.vms, c.name, c.newName)
    case Err(_) => Idle(s.vms)
    case Ok(source) =>
      if !MayClone(LivenessOf(c.seen)) || !c.luck.toolFound || c.luck.dirExists || !c.luck.dirMade then Idle(s.vms)
      else
        var written := [MakeOverlay(DiskOf(s.stateDir, c.newName), source.disk)];
        if !c.luck.overlayMade || !c.luck.keysCopied then
          Step(s.vms, written + [RemoveTree(DirOf(s.stateDir, c.newName))], {})
        else
          var end := RegisterCloneStep(s.vms, s.stateDir, s.checked, c);
          Step(end.vms, written + end.effects, {})
  }

  /** The end of a clone: the ports are chosen and the new VM is registered. */
  function RegisterCloneStep(vms: seq<VmEntry>, stateDir: string, checked: bool, c: Command): (r: Step)
    requires c.Clone?
    ensures r.started == {}
  {
    match Cloned(vms, stateDir, c.name, c.newName, checked)
    case Err(ArithmeticOverflow) => Idle(vms)
    case Err(_) => Step(vms, PurgeEffects(stateDir, c.newName), {})
    case Ok(v) => if c.luck.saved then Idle(vms + [v]) else Step(vms, PurgeEffects(stateDir, c.newName), {})
  }

  function StartStep(s: State, c: Command): (r: Step)
    requires c.Start?
  {
    if !Contains(s.vms, c.name) then Idle(s.vms)
    else
      var v := s.vms[IndexOf(s.vms, c.name)];
      if !LivenessOf(c.seen).Stopped? || BlocksStart(c.available, v.memMib) || !c.spawned then Idle(s.vms)
      else Step(s.vms, [Launch(ProcessOf(v, c.pid))], {ProcessOf(v, c.pid)})
  }

  function SnapshotStep(s: State, c: Command): (r: Step)
    requires c.Snapshot?
  {
    if !c.tagOk || !Contains(s.vms, c.name) || !c.toolFound then Idle(s.vms)
    else
      var i := IndexOf(s.vms, c.name);
      var v := s.vms[i];
      var after := if c.done && c.saved then Replaced(s.vms, i, SnapshotRegistered(v, c.tag)) else s.vms;
      match PlanSnapshot(LivenessOf(c.seen), true)
      case Skip => Idle(s.vms)
      case QmpInternal => if !c.channelOk then Idle(s.vms) else Step(after, [WriteOverQmp(v.qmp, v.disk)], {})
      case QemuImg => Step(after, [WriteImage(v.disk)], {})
  }

  function RestoreStep(s: State, c: Command): (r: Step)
    requires c.Restore?
  {
    if !c.tagOk || !Contains(s.vms, c.name) then Idle(s.vms)
    else
      var v := s.vms[IndexOf(s.vms, c.name)];
      if !PlanSnapshot(LivenessOf(c.seen), true).QemuImg? || c.tag !in v.snapshots || !c.toolFound then Idle(s.vms)
      else Step(s.vms, [WriteImage(v.disk)], {})
  }

  function SetMemoryStep(s: State, c: Command): (r: Step)
    requires c.SetMemory?
  {
    if !Contains(s.vms, c.name) || !MaySetMemory(LivenessOf(c.seen), c.memMib) || !c.saved then Idle(s.vms)
    else
      var i := IndexOf(s.vms, c.name);
      Idle(Replaced(s.vms, i, s.vms[i].(memMib := c.memMib)))
  }

  function DeleteStep(s: State, c: Command): (r: Step)
    requires c.Delete?
  {
    if !Contains(s.vms, c.name) || !MayDelete(LivenessOf(c.seen), c.recordedPid, c.processAlive, c.portFree) || !c.saved
    then Idle(s.vms)
    else
      Step(Without(s.vms, c.name),
        if c.purge then PurgeEffects(s.stateDir, c.name) else [RemoveFile(DirOf(s.stateDir, c.name) + "/qemu.pid")], {})
  }

  function CreateInstanceStep(s: State, c: Command): (r: Step)
    requires c.CreateInstance?
  {
    if !Contains(s.vms, c.name) || !c.otherChecksOk || !c.saved then Idle(s.vms)
    else
      var i := IndexOf(s.vms, c.name);
      match Assigned(s.vms[i], c.instance)
      case Err(_) => Idle(s.vms)
      case Ok(w) => Idle(Replaced(s.vms, i, w))
  }

  /** The timing probe of `verify`: a snapshot by the only legal writer, deleted again if it was
      made, then an overlay backed by the VM's disk, deleted again. */
  function VerifyStep(s: State, c: Command): (r: Step)
    requires c.VerifyTiming?
  {
    if !Contains(s.vms, c.name) then Idle(s.vms)
    else
      var v := s.vms[IndexOf(s.vms, c.name)];
      var clone := DirOf(s.stateDir, c.name) + "/clone-" + c.tag + ".qcow2";
      var timed := [MakeOverlay(clone, v.disk), RemoveFile(clone)];
      match PlanSnapshot(FromProbe(c.probe), true)
      case Skip => Idle(s.vms)
      case QemuImg =>
        if !c.toolFound then Idle(s.vms)
        else Step(s.vms, [WriteImage(v.disk)] + (if c.snapshotMade then [WriteImage(v.disk)] else []) + timed, {})
      case QmpInternal =>
        if !c.toolFound || !c.channelOk then Idle(s.vms)
        else Step(s.vms, [WriteOverQmp(v.qmp, v.disk)]
          + (if c.snapshotMade then [WriteOverQmp(v.qmp, v.disk)] else []) + timed, {})
  }

  function Execute(s: State, c: Command): (r: Step)
  {
    match c
    case Create(_, _, _, _, _) => CreateStep(s, c)
    case Clone(_, _, _, _) => CloneStep(s, c)
    case Start(_, _, _, _, _) => StartStep(s, c)
    case Snapshot(_, _, _, _, _, _, _, _) => SnapshotStep(s, c)
    case Restore(_, _, _, _, _) => RestoreStep(s, c)
    case SetMemory(_, _, _, _) => SetMemoryStep(s, c)
    case Delete(_, _, _, _, _, _, _) => DeleteStep(s, c)
    case CreateInstance(_, _, _, _) => CreateInstanceStep(s, c)
    case VerifyTiming(_, _, _, _, _, _) => VerifyStep(s, c)
    case Stop(_) => Idle(s.vms)
    case Nothing => Idle(s.vms)
  }

  lemma VerifyIs(s: State, c: Command)
    requires c.VerifyTiming?
    ensures Execute(s, c) == VerifyStep(s, c)
  {
  }

  lemma CloneIs(s: State, c: Command)
    requires c.Clone?
    ensures Execute(s, c) == CloneStep(s, c)
  {
  }

  // ----------------------------------------------------------- environment --

  predicate PortHeld(live: set<Process>, port: word)
  {
    exists p :: p in live && p.port == port
  }

  /** `Answered` and `Refused` tell the truth about the port when it is probed; a process list
      without any QEMU, read afterwards, tells the truth about the host; `TimedOut` says nothing. */
  predicate Truthful(live: set<Process>, afterwards: set<Process>, port: word, seen: Probe)
  {
    && (seen.probe.Answered? ==> PortHeld(live, port)) && (seen.probe.Refused? ==> !PortHeld(live, port))
    && (seen.hostHasQemu == Some(false) ==> afterwards == {})
  }

  /** What the environment guarantees about a command that starts in `s`, when the processes in
      `quits` exit after its probe. The process identifier of a new QEMU is not that of a live one,
      and a port that could be bound is held by no QEMU. */
  predicate Honest(s: State, c: Command, quits: set<Process>)
  {
    && (Probed(c).Some? && Contains(s.vms, Probed(c).value.0) ==>
         Truthful(s.live, s.live - quits, s.vms[IndexOf(s.vms, Probed(c).value.0)].qmp, Probed(c).value.1))
    && (c.Start? ==> forall p :: p in s.live - quits ==> p.pid != c.pid)
    && (c.Delete? && c.portFree && Contains(s.vms, c.name) ==>
         !PortHeld(s.live - quits, s.vms[IndexOf(s.vms, c.name)].qmp))
  }

  /** A command is carried out in `s`; the processes in `quits` exit after its probe. */
  predicate Next(s: State, c: Command, quits: set<Process>, t: State)
  {
    && Honest(s, c, quits)
    && t == State(s.stateDir, s.checked, Execute(s, c).vms, s.live - quits + Execute(s, c).started)
  }
}
