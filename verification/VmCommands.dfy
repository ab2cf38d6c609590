/** The commands as they run: the registry and the set of processes change in place, and every
    effect is recorded in the order in which it happens. Each method is proved to be the command of
    the same name in `LiveDisk`. */
module VmCommands {
  import opened Bytes
  import opened VmPorts
  import opened VmRegistry
  import opened LiveDisk

  class Center {
    const registry: Registry
    var live: set<Process>
    var log: seq<Effect>

    constructor (r: Registry)
      ensures registry == r && live == {} && log == []
    {
      registry, live, log := r, {}, [];
    }

    function Now(): (s: State)
      reads this, registry
    {
      State(registry.stateDir, registry.checked, registry.vms, live)
    }

    /** The command `c`, during which `quits` exit, has been carried out. */
    twostate predicate Did(c: Command, quits: set<Process>)
      reads this, registry
    {
      var step := Execute(old(Now()), c);
      && registry.vms == step.vms && log == old(log) + step.effects
      && live == old(live) - quits + step.started
    }

    method Record(e: Effect)
      modifies this`log
      ensures log == old(log) + [e]
    {
      log := log + [e];
    }

    method Purge(name: string)
      modifies this`log
      ensures log == old(log) + PurgeEffects(registry.stateDir, name)
    {
      Record(RemoveTree(DirOf(registry.stateDir, name)));
      Record(RemoveFile(KeyFiles(registry.stateDir, name)[0]));
      Record(RemoveFile(KeyFiles(registry.stateDir, name)[1]));
    }

    method CreateVm(c: Command, quits: set<Process>)
      requires c.Create?
      modifies this, registry
      ensures Did(c, quits)
    {
      hide CloneStep, StartStep, SnapshotStep, RestoreStep, SetMemoryStep, DeleteStep, CreateInstanceStep, VerifyStep;
      live := live - quits;
      var before := registry.vms;
      var made := registry.Create(c.request);
      if made.Err? {
        return;
      }
      registry.vms := before;
      if !c.beforeDiskOk {
        return;
      }
      Record(MakeOverlay(made.value.disk, c.baseImage));
      if !c.overlayMade {
        return;
      }
      if c.saved {
        registry.vms := before + [made.value];
      }
    }

    method CloneVm(c: Command, quits: set<Process>)
      requires c.Clone?
      modifies this, registry
      ensures Did(c, quits)
    {
      hide Execute, RegisterCloneStep, DirOf, DiskOf, MayClone, LivenessOf;
      CloneIs(Now(), c);
      live := live - quits;
      var before := registry.vms;
      if !ValidName(c.newName) {
        return;
      }
      var taken := registry.Get(c.newName);
      var source := registry.Get(c.name);
      if taken.Some? || source.None? {
        return;
      }
      var liveness := LivenessOf(c.seen);
      if !MayClone(liveness) || !c.luck.toolFound || c.luck.dirExists || !c.luck.dirMade {
        return;
      }
      Record(MakeOverlay(DiskOf(registry.stateDir, c.newName), before[source.value].disk));
      if !c.luck.overlayMade {
        Record(RemoveTree(DirOf(registry.stateDir, c.newName)));
        return;
      }
      if !c.luck.keysCopied {
        Record(RemoveTree(DirOf(registry.stateDir, c.newName)));
        return;
      }
      RegisterClone(c);
    }

    /** The end of a clone. */
    method RegisterClone(c: Command)
      requires c.Clone?
      modifies this`log, registry
      ensures var step := RegisterCloneStep(old(registry.vms), registry.stateDir, registry.checked, c);
        registry.vms == step.vms && log == old(log) + step.effects
    {
      hide Cloned, PurgeEffects;
      var before := registry.vms;
      var made := registry.Clone(c.name, c.newName);
      if made == Err(ArithmeticOverflow) {
        return;
      }
      if made.Err? {
        Purge(c.newName);
        return;
      }
      if !c.luck.saved {
        registry.vms := before;
        Purge(c.newName);
      }
    }

    method StartVm(c: Command, quits: set<Process>)
      requires c.Start?
      modifies this
      ensures Did(c, quits)
    {
      hide CreateStep, CloneStep, SnapshotStep, RestoreStep, SetMemoryStep, DeleteStep, CreateInstanceStep, VerifyStep;
      live := live - quits;
      var at := registry.Get(c.name);
      if at.None? {
        return;
      }
      var v := registry.vms[at.value];
      var liveness := LivenessOf(c.seen);
      if liveness.Running? || liveness.Unknown? {
        return;
      }
      if BlocksStart(c.available, v.memMib) {
        return;
      }
      if c.spawned {
        Record(Launch(ProcessOf(v, c.pid)));
        live := live + {ProcessOf(v, c.pid)};
      }
    }

    method SnapshotVm(c: Command, quits: set<Process>)
      requires c.Snapshot?
      modifies this, registry
      ensures Did(c, quits)
    {
      hide CreateStep, CloneStep, StartStep, RestoreStep, SetMemoryStep, DeleteStep, CreateInstanceStep, VerifyStep;
      live := live - quits;
      if !c.tagOk {
        return;
      }
      var at := registry.Get(c.name);
      if at.None? || !c.toolFound {
        return;
      }
      var v := registry.vms[at.value];
      var plan := PlanSnapshot(LivenessOf(c.seen), true);
      if plan.Skip? {
        return;
      }
      if plan.QmpInternal? {
        if !c.channelOk {
          return;
        }
        Record(WriteOverQmp(v.qmp, v.disk));
      } else {
        Record(WriteImage(v.disk));
      }
      if c.done && c.saved {
        var known := registry.RegisterSnapshot(c.name, c.tag);
      }
    }

    method RestoreVm(c: Command, quits: set<Process>)
      requires c.Restore?
      modifies this
      ensures Did(c, quits)
    {
      hide CreateStep, CloneStep, StartStep, SnapshotStep, SetMemoryStep, DeleteStep, CreateInstanceStep, VerifyStep;
      live := live - quits;
      if !c.tagOk {
        return;
      }
      var at := registry.Get(c.name);
      if at.None? {
        return;
      }
      var v := registry.vms[at.value];
      var plan := PlanSnapshot(LivenessOf(c.seen), true);
      if !plan.QemuImg? {
        return;
      }
      if c.tag !in v.snapshots || !c.toolFound {
        return;
      }
      Record(WriteImage(v.disk));
    }

    method SetVmMemory(c: Command, quits: set<Process>)
      requires c.SetMemory?
      modifies this, registry
      ensures Did(c, quits)
    {
      hide CreateStep, CloneStep, StartStep, SnapshotStep, RestoreStep, DeleteStep, CreateInstanceStep, VerifyStep;
      live := live - quits;
      var at := registry.Get(c.name);
      if at.None? || !MaySetMemory(LivenessOf(c.seen), c.memMib) {
        return;
      }
      if c.saved {
        var known := registry.SetMemory(c.name, c.memMib);
      }
    }

    method DeleteVm(c: Command, quits: set<Process>)
      requires c.Delete?
      modifies this, registry
      ensures Did(c, quits)
    {
      hide CreateStep, CloneStep, StartStep, SnapshotStep, RestoreStep, SetMemoryStep, CreateInstanceStep, VerifyStep;
      live := live - quits;
      var at := registry.Get(c.name);
      if at.None? {
        return;
      }
      var liveness := LivenessOf(c.seen);
      var allowed: bool;
      if liveness.Unknown? {
        allowed := c.recordedPid && c.processAlive == Some(false) && c.portFree;
      } else {
        allowed := liveness.Stopped?;
      }
      if !allowed || !c.saved {
        return;
      }
      registry.Delete(c.name);
      if c.purge {
        Purge(c.name);
      } else {
        Record(RemoveFile(DirOf(registry.stateDir, c.name) + "/qemu.pid"));
      }
    }

    method CreateRedroid(c: Command, quits: set<Process>)
      requires c.CreateInstance?
      modifies this, registry
      ensures Did(c, quits)
    {
      live := live - quits;
      var at := registry.Get(c.name);
      if at.None? || !c.otherChecksOk || !c.saved {
        return;
      }
      var made := registry.CreateInstance(c.name, c.instance);
    }

    method VerifyCloneTiming(c: Command, quits: set<Process>)
      requires c.VerifyTiming?
      modifies this
      ensures Did(c, quits)
    {
      hide Execute, DirOf;
      VerifyIs(Now(), c);
      live := live - quits;
      var at := registry.Get(c.name);
      if at.None? {
        return;
      }
      var v := registry.vms[at.value];
      var plan := PlanSnapshot(FromProbe(c.probe), true);
      if plan.Skip? || !c.toolFound {
        return;
      }
      if plan.QemuImg? {
        Record(WriteImage(v.disk));
        if c.snapshotMade {
          Record(WriteImage(v.disk));
        }
      } else {
        if !c.channelOk {
          return;
        }
        Record(WriteOverQmp(v.qmp, v.disk));
        if c.snapshotMade {
          Record(WriteOverQmp(v.qmp, v.disk));
        }
      }
      var clone := DirOf(registry.stateDir, c.name) + "/clone-" + c.tag + ".qcow2";
      Record(MakeOverlay(clone, v.disk));
      Record(RemoveFile(clone));
    }
  }
}
