/** Live-disk safety over every run of commands, power-offs included. */
module LiveDiskRuns {
  import opened Bytes
  import opened VmPorts
  import opened VmRegistry
  import opened LiveDisk

  // ------------------------------------------------------------------ paths --

  /** A VM's directory contains no other VM's disk. */
  lemma UnderOwnDirOnly(dir: string, n: string, m: string)
    requires ValidName(n) && ValidName(m)
    ensures Under(DirOf(dir, n), DiskOf(dir, m)) <==> n == m
  {
    var d, p := DirOf(dir, n) + "/", DiskOf(dir, m);
    var k := |dir + "/vms/"|;
    assert p == (dir + "/vms/") + m + "/disk.qcow2" && d == (dir + "/vms/") + n + "/";
    assert p[k + |m|] == '/' && d[k + |n|] == '/';
    forall i | 0 <= i < |n|
      ensures d[k + i] == n[i] != '/'
    {
      assert NameChar(n[i]);
    }
    forall i | 0 <= i < |m|
      ensures p[k + i] == m[i] != '/'
    {
      assert NameChar(m[i]);
    }
    if d <= p {
      assert |n| == |m|;
      assert n == d[k..k + |n|] == p[k..k + |n|] == m;
    }
    assert n == m ==> p == d + "disk.qcow2";
  }

  lemma DiskIsUnderDir(dir: string, n: string)
    ensures Under(DirOf(dir, n), DiskOf(dir, n))
  {
    assert DiskOf(dir, n) == DirOf(dir, n) + "/" + "disk.qcow2";
  }

  lemma DisksDiffer(dir: string, n: string, m: string)
    requires ValidName(n) && ValidName(m) && n != m
    ensures DiskOf(dir, n) != DiskOf(dir, m)
  {
    DiskIsUnderDir(dir, n);
    UnderOwnDirOnly(dir, n, m);
  }

  /** Only the disk itself has the disk's path: not another file of the same directory. */
  lemma SiblingIsNoDisk(dir: string, n: string, m: string, file: string)
    requires ValidName(n) && ValidName(m) && file != "/disk.qcow2" && "/" <= file
    ensures DirOf(dir, n) + file != DiskOf(dir, m)
  {
    var path := DirOf(dir, n) + file;
    assert path == DirOf(dir, n) + "/" + file[1..];
    UnderOwnDirOnly(dir, n, m);
    assert path[|DirOf(dir, n)|..] == file;
    assert n == m ==> DiskOf(dir, m)[|DirOf(dir, n)|..] == "/disk.qcow2";
  }

  lemma KeyIsNoDisk(dir: string, n: string, m: string, i: nat)
    requires i < |KeyFiles(dir, n)|
    ensures KeyFiles(dir, n)[i] != DiskOf(dir, m)
  {
    var at := |dir| + 1;
    assert DiskOf(dir, m)[at] == 'v';
    assert KeyFiles(dir, n)[i][at] == 'k';
  }

  // -------------------------------------------------------------- invariant --

  ghost predicate Registered(vms: seq<VmEntry>, p: Process)
  {
    exists v :: v in vms && p == ProcessOf(v, p.pid)
  }

  /** Every running QEMU belongs to a registered VM with the same disk, QMP port and memory, and no
      VM has two. */
  ghost predicate LiveOk(s: State)
  {
    && RegistryOk(s.vms, s.stateDir)
    && (forall p :: p in s.live ==> Registered(s.vms, p))
    && (forall p, q :: p in s.live && q in s.live && p.vm == q.vm ==> p == q)
  }

  ghost predicate NoneOf(live: set<Process>, name: string)
  {
    forall p :: p in live ==> p.vm != name
  }

  lemma SameName(vms: seq<VmEntry>, stateDir: string, v: VmEntry, w: VmEntry)
    requires RegistryOk(vms, stateDir) && v in vms && w in vms
    requires v.name == w.name || v.qmp == w.qmp || v.disk == w.disk
    ensures v == w
  {
    var i :| 0 <= i < |vms| && vms[i] == v;
    var j :| 0 <= j < |vms| && vms[j] == w;
    if i != j {
      assert Apart(vms[if i < j then i else j], vms[if i < j then j else i]);
      assert Owns(v, v.qmp) && Owns(w, w.qmp);
      DisksDiffer(stateDir, v.name, w.name);
      assert false;
    }
  }

  /** A port that no QEMU holds means that its VM is not running. */
  lemma PortFreeMeansStopped(vms: seq<VmEntry>, stateDir: string, live: set<Process>, v: VmEntry)
    requires RegistryOk(vms, stateDir) && v in vms && !PortHeld(live, v.qmp)
    requires forall p :: p in live ==> Registered(vms, p)
    ensures NoneOf(live, v.name)
  {
    forall p | p in live
      ensures p.vm != v.name
    {
      var w :| w in vms && p == ProcessOf(w, p.pid);
      if w.name == v.name {
        SameName(vms, stateDir, v, w);
      }
    }
  }

  /** Nothing that belongs to a name without a running QEMU belongs to any running QEMU. */
  lemma NoneOfOwnsNothing(s: State, live: set<Process>, name: string, file: string)
    requires LiveOk(s) && live <= s.live && ValidName(name) && NoneOf(live, name)
    requires file != "/disk.qcow2" && "/" <= file
    ensures forall p :: p in live ==>
      && p.disk != DiskOf(s.stateDir, name) && !Under(DirOf(s.stateDir, name), p.disk)
      && p.disk != DirOf(s.stateDir, name) + file
  {
    forall p | p in live
      ensures p.disk != DiskOf(s.stateDir, name) && !Under(DirOf(s.stateDir, name), p.disk)
      ensures p.disk != DirOf(s.stateDir, name) + file
    {
      var v :| v in s.vms && p == ProcessOf(v, p.pid);
      DisksDiffer(s.stateDir, name, v.name);
      UnderOwnDirOnly(s.stateDir, name, v.name);
      SiblingIsNoDisk(s.stateDir, name, v.name, file);
    }
  }

  lemma KeysAreNoDisks(s: State, name: string)
    requires LiveOk(s)
    ensures forall p, i :: p in s.live && 0 <= i < 2 ==> p.disk != KeyFiles(s.stateDir, name)[i]
  {
    forall p, i | p in s.live && 0 <= i < 2
      ensures p.disk != KeyFiles(s.stateDir, name)[i]
    {
      var v :| v in s.vms && p == ProcessOf(v, p.pid);
      KeyIsNoDisk(s.stateDir, name, v.name, i);
    }
  }

  lemma PurgeSafe(s: State, live: set<Process>, name: string)
    requires LiveOk(s) && live <= s.live && ValidName(name) && NoneOf(live, name)
    ensures AllSafe(PurgeEffects(s.stateDir, name), live)
  {
    NoneOfOwnsNothing(s, live, name, "/qemu.pid");
    KeysAreNoDisks(s, name);
    var e := PurgeEffects(s.stateDir, name);
    assert Safe(e[0], live) && Safe(e[1], live) && Safe(e[2], live);
  }

  lemma Found(s: State, name: string) returns (v: VmEntry)
    requires LiveOk(s) && Contains(s.vms, name)
    ensures v == s.vms[IndexOf(s.vms, name)] && v in s.vms && v.name == name && EntryOk(v, s.stateDir)
  {
    v := s.vms[IndexOf(s.vms, name)];
  }

  /** A command that was told "stopped" acts on a VM that is stopped. */
  lemma StoppedIsStopped(s: State, c: Command, quits: set<Process>)
    requires LiveOk(s) && Honest(s, c, quits) && Probed(c).Some? && Contains(s.vms, Probed(c).value.0)
    requires LivenessOf(Probed(c).value.1).Stopped?
    ensures NoneOf(s.live - quits, Probed(c).value.0)
  {
    var v := Found(s, Probed(c).value.0);
    if Probed(c).value.1.probe.Refused? {
      PortFreeMeansStopped(s.vms, s.stateDir, s.live, v);
    }
  }

  lemma UnknownNameIsStopped(s: State, name: string)
    requires LiveOk(s) && !Contains(s.vms, name)
    ensures NoneOf(s.live, name)
  {
    forall p | p in s.live
      ensures p.vm != name
    {
      var v :| v in s.vms && p == ProcessOf(v, p.pid);
      var i :| 0 <= i < |s.vms| && s.vms[i] == v;
    }
  }

  /** Whoever answers on a VM's QMP port is that VM's QEMU. */
  lemma PortIsOwn(s: State, v: VmEntry, p: Process)
    requires LiveOk(s) && v in s.vms && p in s.live && p.port == v.qmp
    ensures p.vm == v.name && p.disk == v.disk
  {
    var w :| w in s.vms && p == ProcessOf(w, p.pid);
    SameName(s.vms, s.stateDir, v, w);
  }

  // ------------------------------------------------------ effects are safe --

  lemma ImageWriteSafe(s: State, live: set<Process>, v: VmEntry)
    requires LiveOk(s) && live <= s.live && v in s.vms && NoneOf(live, v.name)
    ensures Safe(WriteImage(v.disk), live)
  {
    var i :| 0 <= i < |s.vms| && s.vms[i] == v;
    NoneOfOwnsNothing(s, live, v.name, "/qemu.pid");
  }

  lemma QmpWriteSafe(s: State, live: set<Process>, v: VmEntry)
    requires LiveOk(s) && live <= s.live && v in s.vms
    ensures Safe(WriteOverQmp(v.qmp, v.disk), live)
  {
    forall p | p in live && p.port == v.qmp
      ensures p.disk == v.disk
    {
      PortIsOwn(s, v, p);
    }
  }

  lemma CreateSafe(s: State, c: Command, live: set<Process>)
    requires LiveOk(s) && c.Create? && live <= s.live
    ensures AllSafe(Execute(s, c).effects, live)
  {
    hide CloneStep, StartStep, SnapshotStep, RestoreStep, SetMemoryStep, DeleteStep, CreateInstanceStep, VerifyStep,
      LiveOk;
    if Created(s.vms, s.stateDir, c.request, s.checked).Ok? {
      UnknownNameIsStopped(s, c.request.name);
      NoneOfOwnsNothing(s, live, c.request.name, "/qemu.pid");
    }
  }

  lemma SafeConcat(a: seq<Effect>, b: seq<Effect>, live: set<Process>)
    requires AllSafe(a, live) && AllSafe(b, live)
    ensures AllSafe(a + b, live)
  {
  }

  lemma OneSafe(e: Effect, live: set<Process>)
    requires Safe(e, live)
    ensures AllSafe([e], live)
  {
  }

  /** A clone overlays the source's disk, and may then remove what it made. */
  ghost predicate ClonedOrUndone(s: State, newName: string, source: VmEntry, effects: seq<Effect>)
  {
    var made := [MakeOverlay(DiskOf(s.stateDir, newName), source.disk)];
    || effects == made
    || effects == made + [RemoveTree(DirOf(s.stateDir, newName))]
    || effects == made + PurgeEffects(s.stateDir, newName)
  }

  lemma CloneEffects(s: State, c: Command)
    requires c.Clone?
    ensures var effects := Execute(s, c).effects;
      effects == [] || (&& !Contains(s.vms, c.newName) && ValidName(c.newName) && Contains(s.vms, c.name)
        && MayClone(LivenessOf(c.seen)) && ClonedOrUndone(s, c.newName, s.vms[IndexOf(s.vms, c.name)], effects))
  {
    hide CreateStep, StartStep, SnapshotStep, RestoreStep, SetMemoryStep, DeleteStep, CreateInstanceStep, VerifyStep;
  }

  lemma CloneVms(s: State, c: Command)
    requires c.Clone?
    ensures var vms := Execute(s, c).vms;
      var r := Cloned(s.vms, s.stateDir, c.name, c.newName, s.checked);
      vms == s.vms || (r.Ok? && vms == s.vms + [r.value])
  {
    hide ChoosePorts, PurgeEffects, DirOf;
    hide CreateStep, StartStep, SnapshotStep, RestoreStep, SetMemoryStep, DeleteStep, CreateInstanceStep, VerifyStep;
  }

  lemma CloneSafe(s: State, c: Command, live: set<Process>)
    requires LiveOk(s) && c.Clone? && live <= s.live
    ensures AllSafe(Execute(s, c).effects, live)
  {
    var effects := Execute(s, c).effects;
    CloneEffects(s, c);
    if effects != [] {
      ClonedOrUndoneSafe(s, c.newName, s.vms[IndexOf(s.vms, c.name)], effects, live);
    }
  }

  lemma ClonedOrUndoneSafe(s: State, newName: string, source: VmEntry, effects: seq<Effect>, live: set<Process>)
    requires LiveOk(s) && live <= s.live && !Contains(s.vms, newName) && ValidName(newName)
    requires ClonedOrUndone(s, newName, source, effects)
    ensures AllSafe(effects, live)
  {
    var made, gone := MakeOverlay(DiskOf(s.stateDir, newName), source.disk), RemoveTree(DirOf(s.stateDir, newName));
    UnknownNameIsStopped(s, newName);
    NoneOfOwnsNothing(s, live, newName, "/qemu.pid");
    PurgeSafe(s, live, newName);
    OneSafe(made, live);
    OneSafe(gone, live);
    SafeConcat([made], [gone], live);
    SafeConcat([made], PurgeEffects(s.stateDir, newName), live);
  }

  lemma StartSafe(s: State, c: Command, quits: set<Process>)
    requires LiveOk(s) && c.Start? && Honest(s, c, quits)
    ensures AllSafe(Execute(s, c).effects, s.live - quits)
  {
    hide CreateStep, CloneStep, SnapshotStep, RestoreStep, SetMemoryStep, DeleteStep, CreateInstanceStep, VerifyStep,
      LiveOk;
    if Execute(s, c).effects != [] {
      var v := Found(s, c.name);
      StoppedIsStopped(s, c, quits);
      NoneOfOwnsNothing(s, s.live - quits, c.name, "/qemu.pid");
      forall p | p in s.live - quits
        ensures p.port != v.qmp
      {
        if p.port == v.qmp {
          PortIsOwn(s, v, p);
        }
      }
    }
  }

  lemma SnapshotSafe(s: State, c: Command, quits: set<Process>)
    requires LiveOk(s) && c.Snapshot? && Honest(s, c, quits)
    ensures AllSafe(Execute(s, c).effects, s.live - quits)
  {
    hide CreateStep, CloneStep, StartStep, RestoreStep, SetMemoryStep, DeleteStep, CreateInstanceStep, VerifyStep,
      LiveOk, Honest, Safe;
    if Execute(s, c).effects != [] {
      var v := Found(s, c.name);
      QmpWriteSafe(s, s.live - quits, v);
      if LivenessOf(c.seen).Stopped? {
        StoppedIsStopped(s, c, quits);
        ImageWriteSafe(s, s.live - quits, v);
      }
    }
  }

  lemma RestoreSafe(s: State, c: Command, quits: set<Process>)
    requires LiveOk(s) && c.Restore? && Honest(s, c, quits)
    ensures AllSafe(Execute(s, c).effects, s.live - quits)
  {
    hide CreateStep, CloneStep, StartStep, SnapshotStep, SetMemoryStep, DeleteStep, CreateInstanceStep, VerifyStep,
      LiveOk, Honest, Safe;
    if Execute(s, c).effects != [] {
      var v := Found(s, c.name);
      StoppedIsStopped(s, c, quits);
      ImageWriteSafe(s, s.live - quits, v);
    }
  }

  /** A deletion that goes ahead is of a VM that is stopped, also when only the recorded process
      and the port say so. */
  lemma DeleteMeansStopped(s: State, c: Command, quits: set<Process>)
    requires LiveOk(s) && c.Delete? && Honest(s, c, quits) && Contains(s.vms, c.name)
    requires MayDelete(LivenessOf(c.seen), c.recordedPid, c.processAlive, c.portFree)
    ensures NoneOf(s.live - quits, c.name)
  {
    if LivenessOf(c.seen).Stopped? {
      StoppedIsStopped(s, c, quits);
    } else {
      var v := Found(s, c.name);
      PortFreeMeansStopped(s.vms, s.stateDir, s.live - quits, v);
    }
  }

  lemma DeleteSafe(s: State, c: Command, quits: set<Process>)
    requires LiveOk(s) && c.Delete? && Honest(s, c, quits)
    ensures AllSafe(Execute(s, c).effects, s.live - quits)
  {
    hide CreateStep, CloneStep, StartStep, SnapshotStep, RestoreStep, SetMemoryStep, CreateInstanceStep, VerifyStep,
      LiveOk, Honest, MayDelete;
    if Execute(s, c).effects != [] {
      var v := Found(s, c.name);
      DeleteMeansStopped(s, c, quits);
      PurgeSafe(s, s.live - quits, c.name);
      NoneOfOwnsNothing(s, s.live - quits, c.name, "/qemu.pid");
    }
  }

  lemma TimedCloneSafe(s: State, live: set<Process>, v: VmEntry, tag: string)
    requires LiveOk(s) && live <= s.live && v in s.vms
    ensures forall p :: p in live ==> p.disk != DirOf(s.stateDir, v.name) + "/clone-" + tag + ".qcow2"
  {
    var file := "/clone-" + tag + ".qcow2";
    var i :| 0 <= i < |s.vms| && s.vms[i] == v;
    assert DirOf(s.stateDir, v.name) + "/clone-" + tag + ".qcow2" == DirOf(s.stateDir, v.name) + file;
    assert file[1] == 'c' && "/disk.qcow2"[1] == 'd';
    forall p | p in live
      ensures p.disk != DirOf(s.stateDir, v.name) + file
    {
      var w :| w in s.vms && p == ProcessOf(w, p.pid);
      SiblingIsNoDisk(s.stateDir, v.name, w.name, file);
    }
  }

  /** The probe writes the disk once or twice, by one and the same means, then overlays it. */
  lemma VerifyEffects(s: State, c: Command)
    requires c.VerifyTiming? && Execute(s, c).effects != []
    ensures Contains(s.vms, c.name) && !c.probe.TimedOut?
    ensures var v := s.vms[IndexOf(s.vms, c.name)];
      var clone := DirOf(s.stateDir, c.name) + "/clone-" + c.tag + ".qcow2";
      var write := if c.probe.Refused? then WriteImage(v.disk) else WriteOverQmp(v.qmp, v.disk);
      Execute(s, c).effects == [write] + (if c.snapshotMade then [write] else [])
        + [MakeOverlay(clone, v.disk), RemoveFile(clone)]
  {
    hide CreateStep, CloneStep, StartStep, SnapshotStep, RestoreStep, SetMemoryStep, DeleteStep, CreateInstanceStep;
  }

  lemma VerifySafe(s: State, c: Command, quits: set<Process>)
    requires LiveOk(s) && c.VerifyTiming? && Honest(s, c, quits)
    ensures AllSafe(Execute(s, c).effects, s.live - quits)
  {
    hide Execute, LiveOk, Honest;
    var live, effects := s.live - quits, Execute(s, c).effects;
    if effects != [] {
      VerifyEffects(s, c);
      var v := Found(s, c.name);
      var clone := DirOf(s.stateDir, c.name) + "/clone-" + c.tag + ".qcow2";
      var write := if c.probe.Refused? then WriteImage(v.disk) else WriteOverQmp(v.qmp, v.disk);
      if c.probe.Refused? {
        StoppedIsStopped(s, c, quits);
        ImageWriteSafe(s, live, v);
      } else {
        QmpWriteSafe(s, live, v);
      }
      OneSafe(write, live);
      TimedCloneSafe(s, live, v, c.tag);
      assert Safe(MakeOverlay(clone, v.disk), live) && Safe(RemoveFile(clone), live);
      var again: seq<Effect> := if c.snapshotMade then [write] else [];
      SafeConcat([write], again, live);
      SafeConcat([write] + again, [MakeOverlay(clone, v.disk), RemoveFile(clone)], live);
    }
  }

  /** No command writes, overlays or removes the disk of a running QEMU with qemu-img or by
      deletion, and none starts a second QEMU on a disk, a port or for a VM in use. */
  lemma CommandSafe(s: State, c: Command, quits: set<Process>)
    requires LiveOk(s) && Honest(s, c, quits)
    ensures AllSafe(Execute(s, c).effects, s.live - quits)
  {
    hide Execute, LiveOk, Honest;
    match c
    case Create(_, _, _, _, _) => CreateSafe(s, c, s.live - quits);
    case Clone(_, _, _, _) => CloneSafe(s, c, s.live - quits);
    case Start(_, _, _, _, _) => StartSafe(s, c, quits);
    case Snapshot(_, _, _, _, _, _, _, _) => SnapshotSafe(s, c, quits);
    case Restore(_, _, _, _, _) => RestoreSafe(s, c, quits);
    case Delete(_, _, _, _, _, _, _) => DeleteSafe(s, c, quits);
    case VerifyTiming(_, _, _, _, _, _) => VerifySafe(s, c, quits);
    case _ => NoEffects(s, c);
  }

  lemma NoEffects(s: State, c: Command)
    requires c.SetMemory? || c.CreateInstance? || c.Stop? || c.Nothing?
    ensures Execute(s, c).effects == [] && Execute(s, c).started == {}
  {
  }

  // -------------------------------------------------- the invariant is kept --

  /** Replacing the registry keeps the invariant if every running VM's entry stays. */
  lemma RegistryChangeKeeps(s: State, live: set<Process>, vms: seq<VmEntry>)
    requires LiveOk(s) && live <= s.live && RegistryOk(vms, s.stateDir)
    requires forall p :: p in live ==> Registered(vms, p)
    ensures LiveOk(s.(vms := vms, live := live))
  {
  }

  lemma PushedStays(vms: seq<VmEntry>, v: VmEntry, live: set<Process>)
    requires forall p :: p in live ==> Registered(vms, p)
    ensures forall p :: p in live ==> Registered(vms + [v], p)
  {
    forall p | p in live
      ensures Registered(vms + [v], p)
    {
      var w :| w in vms && p == ProcessOf(w, p.pid);
      assert w in vms + [v];
    }
  }

  lemma ReplacedStays(s: State, live: set<Process>, i: nat, w: VmEntry)
    requires LiveOk(s) && live <= s.live && i < |s.vms|
    requires w.name == s.vms[i].name && w.disk == s.vms[i].disk && w.qmp == s.vms[i].qmp
    requires w.memMib == s.vms[i].memMib || NoneOf(live, w.name)
    ensures forall p :: p in live ==> Registered(Replaced(s.vms, i, w), p)
  {
    var after := Replaced(s.vms, i, w);
    forall p | p in live
      ensures Registered(after, p)
    {
      var v :| v in s.vms && p == ProcessOf(v, p.pid);
      var k :| 0 <= k < |s.vms| && s.vms[k] == v;
      assert k == i ==> p == ProcessOf(w, p.pid);
      assert after[k] in after;
    }
  }

  lemma CreateKeeps(s: State, c: Command, live: set<Process>)
    requires LiveOk(s) && c.Create? && live <= s.live
    ensures LiveOk(s.(vms := Execute(s, c).vms, live := live))
  {
    var vms := Execute(s, c).vms;
    if vms != s.vms {
      CreatedKeeps(s.vms, s.stateDir, c.request, s.checked);
      PushedStays(s.vms, vms[|s.vms|], live);
      RegistryChangeKeeps(s, live, vms);
    }
  }

  lemma CloneKeeps(s: State, c: Command, live: set<Process>)
    requires LiveOk(s) && c.Clone? && live <= s.live
    ensures LiveOk(s.(vms := Execute(s, c).vms, live := live))
  {
    var vms := Execute(s, c).vms;
    CloneVms(s, c);
    if vms != s.vms {
      ClonedKeeps(s.vms, s.stateDir, c.name, c.newName, s.checked);
      PushedStays(s.vms, vms[|s.vms|], live);
      RegistryChangeKeeps(s, live, vms);
    }
  }

  lemma StartedKeeps(s: State, live: set<Process>, v: VmEntry, pid: nat)
    requires LiveOk(s) && live <= s.live && v in s.vms && NoneOf(live, v.name)
    ensures LiveOk(s.(live := live + {ProcessOf(v, pid)}))
  {
    hide RegistryOk;
    var q := ProcessOf(v, pid);
    assert q == ProcessOf(v, q.pid) && Registered(s.vms, q);
  }

  lemma StartIs(s: State, c: Command)
    requires c.Start?
    ensures var r := Execute(s, c);
      && r.vms == s.vms && (r.effects == [] ==> r.started == {})
      && (r.effects != [] ==> Contains(s.vms, c.name) && LivenessOf(c.seen).Stopped?)
      && (r.effects != [] ==> r.started == {ProcessOf(s.vms[IndexOf(s.vms, c.name)], c.pid)})
  {
    hide CreateStep, CloneStep, SnapshotStep, RestoreStep, SetMemoryStep, DeleteStep, CreateInstanceStep, VerifyStep;
  }

  lemma StartKeeps(s: State, c: Command, quits: set<Process>, t: State)
    requires LiveOk(s) && c.Start? && Honest(s, c, quits)
    requires t == s.(vms := Execute(s, c).vms, live := s.live - quits + Execute(s, c).started)
    ensures LiveOk(t)
  {
    hide Execute, LiveOk, Honest;
    StartIs(s, c);
    if Execute(s, c).effects != [] {
      var v := Found(s, c.name);
      StoppedIsStopped(s, c, quits);
      StartedKeeps(s, s.live - quits, v, c.pid);
    } else {
      UnchangedKeeps(s, s.live - quits);
      assert s.live - quits + {} == s.live - quits;
    }
  }

  /** A VM's entry with the same name, disk and ports. */
  predicate SameResources(v: VmEntry, w: VmEntry)
  {
    && v.name == w.name && v.disk == w.disk && v.ssh == w.ssh && v.qmp == w.qmp && v.adb == w.adb
    && v.assignments == w.assignments
  }

  lemma SameResourcesOk(v: VmEntry, w: VmEntry, stateDir: string)
    requires EntryOk(v, stateDir) && SameResources(v, w) && MIN_VM_MEMORY_MIB <= w.memMib <= MAX_VM_MEMORY_MIB
    ensures EntryOk(w, stateDir) && forall p: word :: Owns(w, p) <==> Owns(v, p)
  {
  }

  /** The registry keeps the invariant when one entry changes in nothing that the invariant is about. */
  lemma SameResourcesKeep(s: State, live: set<Process>, i: nat, w: VmEntry)
    requires LiveOk(s) && live <= s.live && i < |s.vms| && SameResources(s.vms[i], w)
    requires w.memMib == s.vms[i].memMib || (NoneOf(live, w.name) && MIN_VM_MEMORY_MIB <= w.memMib <= MAX_VM_MEMORY_MIB)
    ensures LiveOk(s.(vms := Replaced(s.vms, i, w), live := live))
  {
    SameResourcesOk(s.vms[i], w, s.stateDir);
    ReplacedKeeps(s.vms, s.stateDir, i, w);
    ReplacedStays(s, live, i, w);
    hide RegistryOk, Replaced, Registered;
    RegistryChangeKeeps(s, live, Replaced(s.vms, i, w));
  }

  lemma UnchangedKeeps(s: State, live: set<Process>)
    requires LiveOk(s) && live <= s.live
    ensures LiveOk(s.(live := live))
  {
    hide RegistryOk, Registered;
  }

  lemma SnapshotVms(s: State, c: Command)
    requires c.Snapshot?
    ensures Execute(s, c).vms == s.vms
      || (Contains(s.vms, c.name)
          && var i := IndexOf(s.vms, c.name);
          Execute(s, c).vms == Replaced(s.vms, i, SnapshotRegistered(s.vms[i], c.tag)))
  {
    hide CreateStep, CloneStep, StartStep, RestoreStep, SetMemoryStep, DeleteStep, CreateInstanceStep, VerifyStep;
  }

  lemma SnapshotKeeps(s: State, c: Command, live: set<Process>)
    requires LiveOk(s) && c.Snapshot? && live <= s.live
    ensures LiveOk(s.(vms := Execute(s, c).vms, live := live))
  {
    hide Execute, LiveOk, Replaced;
    SnapshotVms(s, c);
    if Execute(s, c).vms == s.vms {
      UnchangedKeeps(s, live);
    } else {
      var i := IndexOf(s.vms, c.name);
      SameResourcesKeep(s, live, i, SnapshotRegistered(s.vms[i], c.tag));
    }
  }

  lemma SetMemoryVms(s: State, c: Command)
    requires c.SetMemory?
    ensures Execute(s, c).vms == s.vms
      || (Contains(s.vms, c.name) && MaySetMemory(LivenessOf(c.seen), c.memMib)
          && var i := IndexOf(s.vms, c.name);
          Execute(s, c).vms == Replaced(s.vms, i, s.vms[i].(memMib := c.memMib)))
  {
    hide CreateStep, CloneStep, StartStep, SnapshotStep, RestoreStep, DeleteStep, CreateInstanceStep, VerifyStep;
  }

  lemma SetMemoryKeeps(s: State, c: Command, quits: set<Process>)
    requires LiveOk(s) && c.SetMemory? && Honest(s, c, quits)
    ensures LiveOk(s.(vms := Execute(s, c).vms, live := s.live - quits))
  {
    hide Execute, LiveOk, Replaced, Honest, LivenessOf;
    SetMemoryVms(s, c);
    if Execute(s, c).vms == s.vms {
      UnchangedKeeps(s, s.live - quits);
    } else {
      var i := IndexOf(s.vms, c.name);
      StoppedIsStopped(s, c, quits);
      SameResourcesKeep(s, s.live - quits, i, s.vms[i].(memMib := c.memMib));
    }
  }

  lemma DeleteKeeps(s: State, c: Command, quits: set<Process>)
    requires LiveOk(s) && c.Delete? && Honest(s, c, quits)
    ensures LiveOk(s.(vms := Execute(s, c).vms, live := s.live - quits))
  {
    if Execute(s, c).effects != [] {
      DeleteMeansStopped(s, c, quits);
      WithoutKeeps(s.vms, s.stateDir, c.name);
      forall p | p in s.live - quits
        ensures Registered(Without(s.vms, c.name), p)
      {
        var v :| v in s.vms && p == ProcessOf(v, p.pid);
        assert v in Without(s.vms, c.name);
      }
      RegistryChangeKeeps(s, s.live - quits, Without(s.vms, c.name));
    }
  }

  lemma CreateInstanceKeeps(s: State, c: Command, live: set<Process>)
    requires LiveOk(s) && c.CreateInstance? && live <= s.live
    ensures LiveOk(s.(vms := Execute(s, c).vms, live := live))
  {
    var vms := Execute(s, c).vms;
    if vms != s.vms {
      var v := Found(s, c.name);
      var i := IndexOf(s.vms, c.name);
      AssignedKeeps(v, s.stateDir, c.instance);
      var w := Assigned(v, c.instance).value;
      ReplacedKeeps(s.vms, s.stateDir, i, w);
      ReplacedStays(s, live, i, w);
      RegistryChangeKeeps(s, live, vms);
    }
  }

  lemma RestoreAndVerifyChangeNothing(s: State, c: Command)
    requires c.Restore? || c.VerifyTiming? || c.Stop? || c.Nothing?
    ensures Execute(s, c).vms == s.vms && Execute(s, c).started == {}
  {
  }

  lemma OnlyStartStarts(s: State, c: Command)
    requires !c.Start?
    ensures Execute(s, c).started == {}
  {
  }

  /** Every command keeps the invariant, whatever happens on the way. */
  lemma NextKeeps(s: State, c: Command, quits: set<Process>, t: State)
    requires LiveOk(s) && Next(s, c, quits, t)
    ensures LiveOk(t)
  {
    var live := s.live - quits;
    if !c.Start? {
      OnlyStartStarts(s, c);
      assert live + {} == live;
    }
    assert t == s.(vms := Execute(s, c).vms, live := live + Execute(s, c).started);
    match c
    case Create(_, _, _, _, _) => CreateKeeps(s, c, live);
    case Clone(_, _, _, _) => CloneKeeps(s, c, live);
    case Start(_, _, _, _, _) => StartKeeps(s, c, quits, t);
    case Snapshot(_, _, _, _, _, _, _, _) => SnapshotKeeps(s, c, live);
    case SetMemory(_, _, _, _) => SetMemoryKeeps(s, c, quits);
    case Delete(_, _, _, _, _, _, _) => DeleteKeeps(s, c, quits);
    case CreateInstance(_, _, _, _) => CreateInstanceKeeps(s, c, live);
    case _ => RestoreAndVerifyChangeNothing(s, c);
  }

  // --------------------------------------------------------------- backings --

  /** The operator names the disk of a running QEMU as the base image of a new VM, and the creation
      gets as far as making its disk. */
  ghost predicate OverlaysNamedDisk(s: State, c: Command, live: set<Process>)
  {
    && c.Create? && Created(s.vms, s.stateDir, c.request, s.checked).Ok? && c.beforeDiskOk
    && exists p | p in live :: p.disk == c.baseImage
  }

  /** The timing probe of `verify` finds the tool, reaches a VM over QMP, and the VM's QEMU has not
      exited since. */
  ghost predicate OverlaysProbedDisk(c: Command, live: set<Process>)
  {
    && c.VerifyTiming? && c.probe.Answered? && c.toolFound && c.channelOk
    && exists p | p in live :: p.vm == c.name
  }

  /** An overlay is backed by a running QEMU's disk in exactly these two cases. A clone never is. */
  lemma BackingExact(s: State, c: Command, quits: set<Process>)
    requires LiveOk(s) && Honest(s, c, quits)
    ensures !BackingsIdle(Execute(s, c).effects, s.live - quits) <==>
      OverlaysNamedDisk(s, c, s.live - quits) || OverlaysProbedDisk(c, s.live - quits)
  {
    hide Execute, LiveOk, Honest, BackingsIdle;
    if c.VerifyTiming? {
      VerifyBacking(s, c, quits);
    } else if c.Clone? {
      CloneBacking(s, c, quits);
    } else if c.Create? {
      CreateBacking(s, c, s.live - quits);
    } else {
      OthersOverlayNothing(s, c, s.live - quits);
    }
  }

  lemma OthersOverlayNothing(s: State, c: Command, live: set<Process>)
    requires !c.Create? && !c.Clone? && !c.VerifyTiming?
    ensures BackingsIdle(Execute(s, c).effects, live)
  {
  }

  lemma CreateBacking(s: State, c: Command, live: set<Process>)
    requires c.Create?
    ensures !BackingsIdle(Execute(s, c).effects, live) <==> OverlaysNamedDisk(s, c, live)
  {
    hide Created;
    var effects := Execute(s, c).effects;
    if effects != [] {
      assert effects[0].MakeOverlay? && effects[0].backing == c.baseImage;
    }
  }

  lemma CloneBacking(s: State, c: Command, quits: set<Process>)
    requires LiveOk(s) && Honest(s, c, quits) && c.Clone?
    ensures BackingsIdle(Execute(s, c).effects, s.live - quits)
  {
    CloneEffects(s, c);
    if Execute(s, c).effects != [] {
      var v := Found(s, c.name);
      StoppedIsStopped(s, c, quits);
      ClonedBackings(s, c.newName, v, Execute(s, c).effects, s.live - quits);
    }
  }

  lemma ClonedBackings(s: State, newName: string, source: VmEntry, effects: seq<Effect>, live: set<Process>)
    requires LiveOk(s) && live <= s.live && source in s.vms && NoneOf(live, source.name)
    requires ClonedOrUndone(s, newName, source, effects)
    ensures BackingsIdle(effects, live)
  {
    var i :| 0 <= i < |s.vms| && s.vms[i] == source;
    NoneOfOwnsNothing(s, live, source.name, "/qemu.pid");
  }

  /** Among running QEMUs, a VM's disk is its own. */
  lemma DiskIsOwn(s: State, live: set<Process>, v: VmEntry)
    requires LiveOk(s) && live <= s.live && v in s.vms
    ensures forall p :: p in live ==> (p.vm == v.name <==> p.disk == v.disk)
  {
    forall p | p in live
      ensures p.vm == v.name <==> p.disk == v.disk
    {
      var w :| w in s.vms && p == ProcessOf(w, p.pid);
      if w.name == v.name || w.disk == v.disk {
        SameName(s.vms, s.stateDir, v, w);
      }
    }
  }

  lemma VerifyBacking(s: State, c: Command, quits: set<Process>)
    requires LiveOk(s) && Honest(s, c, quits) && c.VerifyTiming?
    ensures !BackingsIdle(Execute(s, c).effects, s.live - quits) <==> OverlaysProbedDisk(c, s.live - quits)
  {
    hide Execute, LiveOk, Honest;
    var effects, live := Execute(s, c).effects, s.live - quits;
    if effects == [] {
      VerifyDoesNothing(s, c, live);
    } else {
      VerifyEffects(s, c);
      var v := Found(s, c.name);
      assert effects[|effects| - 2] == MakeOverlay(DirOf(s.stateDir, c.name) + "/clone-" + c.tag + ".qcow2", v.disk);
      DiskIsOwn(s, live, v);
      if c.probe.Refused? {
        StoppedIsStopped(s, c, quits);
      } else {
        VerifyReached(s, c);
      }
    }
  }

  lemma VerifyReached(s: State, c: Command)
    requires c.VerifyTiming? && c.probe.Answered? && Execute(s, c).effects != []
    ensures c.toolFound && c.channelOk
  {
    hide CreateStep, CloneStep, StartStep, SnapshotStep, RestoreStep, SetMemoryStep, DeleteStep, CreateInstanceStep;
  }

  lemma VerifyDoesNothing(s: State, c: Command, live: set<Process>)
    requires LiveOk(s) && live <= s.live && c.VerifyTiming? && Execute(s, c).effects == []
    ensures !OverlaysProbedDisk(c, live)
  {
    hide CreateStep, CloneStep, StartStep, SnapshotStep, RestoreStep, SetMemoryStep, DeleteStep, CreateInstanceStep;
    if !Contains(s.vms, c.name) {
      UnknownNameIsStopped(s, c.name);
    }
  }

  lemma OneRunningVm(s: State, v: VmEntry, q: Process)
    requires EntryOk(v, s.stateDir) && s.vms == [v] && s.live == {q} && q == ProcessOf(v, q.pid)
    ensures LiveOk(s) && Contains(s.vms, v.name) && s.vms[IndexOf(s.vms, v.name)] == v && PortHeld(s.live, v.qmp)
  {
    assert v in s.vms && s.vms[0].name == v.name;
    assert Registered(s.vms, q) && q in s.live && q.port == v.qmp;
  }

  lemma ExampleEntry(v: VmEntry)
    requires v == Entry("/s", "a", 2048, NewPorts(22300, 23300, [24500]))
    ensures EntryOk(v, "/s")
  {
  }

  function ExampleState(): (s: State)
  {
    var v := Entry("/s", "a", 2048, NewPorts(22300, 23300, [24500]));
    State("/s", false, [v], {ProcessOf(v, 1)})
  }

  lemma ExampleStateOk()
    ensures var s := ExampleState();
      LiveOk(s) && Contains(s.vms, "a") && IndexOf(s.vms, "a") == 0 && PortHeld(s.live, s.vms[0].qmp)
  {
    var v := Entry("/s", "a", 2048, NewPorts(22300, 23300, [24500]));
    hide Entry, LiveOk;
    ExampleEntry(v);
    OneRunningVm(ExampleState(), v, ProcessOf(v, 1));
  }

  /** The timing probe does overlay a live disk, read-only: one running VM is enough. */
  lemma VerifyOverlaysLiveDisk() returns (s: State, c: Command)
    ensures c.VerifyTiming? && LiveOk(s) && Honest(s, c, {}) && !BackingsIdle(Execute(s, c).effects, s.live)
  {
    ExampleStateOk();
    s, c := ExampleState(), VerifyTiming("a", Answered, true, true, false, "verify-1");
    var v := s.vms[0];
    var p := ProcessOf(v, 1);
    assert p in s.live && v.name == "a";
    hide Execute, LiveOk, Honest, BackingsIdle, Entry, ExampleState;
    AnswerIsHonest(s, v, c);
    AnsweredOverlays(s, v, p, c);
  }

  lemma AnswerIsHonest(s: State, v: VmEntry, c: Command)
    requires Contains(s.vms, v.name) && s.vms[IndexOf(s.vms, v.name)] == v && PortHeld(s.live, v.qmp)
    requires c.VerifyTiming? && c.name == v.name && c.probe.Answered?
    ensures Honest(s, c, {})
  {
  }

  lemma AnsweredOverlays(s: State, v: VmEntry, q: Process, c: Command)
    requires LiveOk(s) && Honest(s, c, {}) && Contains(s.vms, v.name) && q in s.live && q.vm == v.name
    requires c.VerifyTiming? && c.name == v.name && c.probe.Answered? && c.toolFound && c.channelOk
    ensures !BackingsIdle(Execute(s, c).effects, s.live)
  {
    assert s.live - {} == s.live;
    VerifyBacking(s, c, {});
  }

  // -------------------------------------------------------------- whole runs --

  datatype Run = Run(states: seq<State>, commands: seq<Command>, quits: seq<set<Process>>) {
    ghost predicate Valid() {
      && |states| == |commands| + 1 && |quits| == |commands| && states[0].vms == [] && states[0].live == {}
      && forall i :: 0 <= i < |commands| ==> NextAt(i)
    }

    ghost predicate NextAt(i: nat)
      requires i < |commands| && |states| == |commands| + 1 && |quits| == |commands|
    {
      Next(states[i], commands[i], quits[i], states[i + 1])
    }
  }

  lemma RunNext(run: Run, i: nat, s: State, c: Command, quits: set<Process>, t: State)
    requires run.Valid() && i < |run.commands|
    requires s == run.states[i] && c == run.commands[i] && quits == run.quits[i] && t == run.states[i + 1]
    ensures Next(s, c, quits, t) && t.stateDir == s.stateDir
  {
    assert run.NextAt(i);
  }

  lemma RunKeeps(run: Run, i: nat, s: State, c: Command, quits: set<Process>, t: State)
    requires run.Valid() && i < |run.commands|
    requires s == run.states[i] && c == run.commands[i] && quits == run.quits[i] && t == run.states[i + 1]
    requires LiveOk(s)
    ensures LiveOk(t) && t.stateDir == s.stateDir
  {
    RunNext(run, i, s, c, quits, t);
    NextKeeps(s, c, quits, t);
  }

  lemma {:induction false} RunOk(run: Run, i: nat)
    requires run.Valid() && i <= |run.commands|
    ensures LiveOk(run.states[i]) && run.states[i].stateDir == run.states[0].stateDir
  {
    if i > 0 {
      RunOk(run, i - 1);
      RunKeeps(run, i - 1, run.states[i - 1], run.commands[i - 1], run.quits[i - 1], run.states[i]);
    }
  }

  /** In every run of commands, from an empty registry, every effect of every command is safe. */
  lemma RunSafe(run: Run, i: nat)
    requires run.Valid() && i < |run.commands|
    ensures AllSafe(Execute(run.states[i], run.commands[i]).effects, run.states[i].live - run.quits[i])
  {
    RunOk(run, i);
    assert run.NextAt(i);
    CommandSafe(run.states[i], run.commands[i], run.quits[i]);
  }

  /** In every state of a run, a running QEMU belongs to a registered VM, with its disk, QMP port
      and memory; and no two QEMUs share a VM, a disk or a QMP port. */
  lemma RunningIsRegistered(run: Run, i: nat, p: Process, q: Process)
    requires run.Valid() && i <= |run.commands| && p in run.states[i].live && q in run.states[i].live
    ensures Contains(run.states[i].vms, p.vm)
    ensures var v := run.states[i].vms[IndexOf(run.states[i].vms, p.vm)];
      p.disk == v.disk && p.port == v.qmp && p.memMib == v.memMib
    ensures p.vm == q.vm || p.disk == q.disk || p.port == q.port ==> p == q
  {
    hide Next, RegistryOk;
    RunOk(run, i);
    var s := run.states[i];
    var v :| v in s.vms && p == ProcessOf(v, p.pid);
    var w :| w in s.vms && q == ProcessOf(w, q.pid);
    var k :| 0 <= k < |s.vms| && s.vms[k] == v;
    assert Contains(s.vms, p.vm);
    SameName(s.vms, s.stateDir, v, s.vms[IndexOf(s.vms, p.vm)]);
    if p.vm == q.vm || p.disk == q.disk || p.port == q.port {
      SameName(s.vms, s.stateDir, v, w);
    }
  }

  // -------------------------------------------------------------- snapshots --

  /** A snapshot of that name with that tag was made, by whichever writer was legal. */
  ghost predicate Takes(s: State, c: Command, name: string, tag: string)
  {
    c.Snapshot? && c.name == name && c.tag == tag && c.done && Execute(s, c).effects != []
  }

  /** A VM of that name was removed from the registry. */
  ghost predicate Deletes(s: State, c: Command, name: string)
  {
    c.Delete? && c.name == name && Execute(s, c).effects != []
  }

  ghost predicate Tagged(vms: seq<VmEntry>, name: string, tag: string)
  {
    exists v :: v in vms && v.name == name && tag in v.snapshots
  }

  lemma SnapshotTags(s: State, c: Command, name: string, tag: string)
    requires c.Snapshot? && Tagged(Execute(s, c).vms, name, tag)
    ensures Tagged(s.vms, name, tag) || Takes(s, c, name, tag)
  {
    var vms := Execute(s, c).vms;
    var v :| v in vms && v.name == name && tag in v.snapshots;
    if v !in s.vms {
      var i := IndexOf(s.vms, c.name);
      assert v == SnapshotRegistered(s.vms[i], c.tag);
      assert tag in s.vms[i].snapshots ==> s.vms[i] in s.vms && Tagged(s.vms, name, tag);
    }
  }

  /** Replacing an entry by one with the same name and snapshots tags nothing new. */
  lemma ReplacedTags(vms: seq<VmEntry>, i: nat, w: VmEntry, name: string, tag: string)
    requires i < |vms| && w.name == vms[i].name && w.snapshots == vms[i].snapshots
    requires Tagged(Replaced(vms, i, w), name, tag)
    ensures Tagged(vms, name, tag)
  {
    var v :| v in Replaced(vms, i, w) && v.name == name && tag in v.snapshots;
    assert v in vms || v == w;
    assert vms[i] in vms;
  }

  lemma PushedTags(vms: seq<VmEntry>, w: VmEntry, name: string, tag: string)
    requires w.snapshots == [] && Tagged(vms + [w], name, tag)
    ensures Tagged(vms, name, tag)
  {
    var v :| v in vms + [w] && v.name == name && tag in v.snapshots;
    assert v in vms;
  }

  lemma ReplacingTags(s: State, c: Command, name: string, tag: string)
    requires LiveOk(s) && (c.SetMemory? || c.CreateInstance?) && Tagged(Execute(s, c).vms, name, tag)
    ensures Tagged(s.vms, name, tag)
  {
    hide CreateStep, CloneStep, StartStep, SnapshotStep, RestoreStep, DeleteStep, VerifyStep, LiveOk, Tagged;
    if Execute(s, c).vms != s.vms {
      var i := IndexOf(s.vms, c.name);
      ReplacedTags(s.vms, i, Execute(s, c).vms[i], name, tag);
    }
  }

  lemma AddingTags(s: State, c: Command, name: string, tag: string)
    requires (c.Create? || c.Clone?) && Tagged(Execute(s, c).vms, name, tag)
    ensures Tagged(s.vms, name, tag)
  {
    var vms := Execute(s, c).vms;
    if c.Clone? {
      CloneVms(s, c);
    }
    if vms != s.vms {
      PushedTags(s.vms, vms[|s.vms|], name, tag);
    }
  }

  lemma DeletingTags(s: State, c: Command, name: string, tag: string)
    requires LiveOk(s) && c.Delete? && Tagged(Execute(s, c).vms, name, tag)
    ensures Tagged(s.vms, name, tag) && !Deletes(s, c, name)
  {
    WithoutKeeps(s.vms, s.stateDir, c.name);
  }

  lemma NextTags(s: State, c: Command, name: string, tag: string)
    requires LiveOk(s) && Tagged(Execute(s, c).vms, name, tag)
    ensures (Tagged(s.vms, name, tag) || Takes(s, c, name, tag)) && !Deletes(s, c, name)
  {
    hide Execute, LiveOk, Takes, Tagged;
    match c
    case Create(_, _, _, _, _) => AddingTags(s, c, name, tag);
    case Clone(_, _, _, _) => AddingTags(s, c, name, tag);
    case Snapshot(_, _, _, _, _, _, _, _) => SnapshotTags(s, c, name, tag);
    case SetMemory(_, _, _, _) => ReplacingTags(s, c, name, tag);
    case CreateInstance(_, _, _, _) => ReplacingTags(s, c, name, tag);
    case Delete(_, _, _, _, _, _, _) => DeletingTags(s, c, name, tag);
    case Start(_, _, _, _, _) => StartIs(s, c);
    case _ => RestoreAndVerifyChangeNothing(s, c);
  }

  lemma {:induction false} TagWasTaken(run: Run, i: nat, name: string, tag: string) returns (j: nat)
    requires run.Valid() && i <= |run.commands| && Tagged(run.states[i].vms, name, tag)
    ensures j < i && Takes(run.states[j], run.commands[j], name, tag)
    ensures forall k :: j <= k < i ==> !Deletes(run.states[k], run.commands[k], name)
  {
    hide Execute, LiveOk, Next, Takes, Deletes;
    if i == 0 {
      assert false;
    } else {
      RunOk(run, i - 1);
      StepTags(run, i - 1, name, tag);
      if Takes(run.states[i - 1], run.commands[i - 1], name, tag) {
        j := i - 1;
      } else {
        j := TagWasTaken(run, i - 1, name, tag);
      }
    }
  }

  lemma StepTags(run: Run, i: nat, name: string, tag: string)
    requires run.Valid() && i < |run.commands| && LiveOk(run.states[i]) && Tagged(run.states[i + 1].vms, name, tag)
    ensures Tagged(run.states[i].vms, name, tag) || Takes(run.states[i], run.commands[i], name, tag)
    ensures !Deletes(run.states[i], run.commands[i], name)
  {
    hide Execute, LiveOk, Honest, Takes, Deletes, Tagged;
    assert run.NextAt(i);
    NextTags(run.states[i], run.commands[i], name, tag);
  }

  /** A restore goes back only to a snapshot that an earlier command took of this very VM: no VM of
      that name has been deleted since. */
  lemma RestoredWasTaken(run: Run, i: nat) returns (j: nat)
    requires run.Valid() && i < |run.commands| && run.commands[i].Restore?
    requires Execute(run.states[i], run.commands[i]).effects != []
    ensures j < i && Takes(run.states[j], run.commands[j], run.commands[i].name, run.commands[i].tag)
    ensures forall k :: j <= k < i ==> !Deletes(run.states[k], run.commands[k], run.commands[i].name)
  {
    RunOk(run, i);
    var v := Found(run.states[i], run.commands[i].name);
    j := TagWasTaken(run, i, run.commands[i].name, run.commands[i].tag);
  }

  // ------------------------------------------------------------------ ports --

  /** In every state of a run, the host ports of all forwards of all VMs and all QMP ports are
      pairwise different and outside 5555-6000. */
  lemma RunPorts(run: Run, n: nat, i: nat, k: nat, j: nat, l: nat)
    requires run.Valid() && n <= |run.commands| && i < |run.states[n].vms| && j < |run.states[n].vms|
    requires k < |HostForwards(run.states[n].vms[i])| && l < |HostForwards(run.states[n].vms[j])|
    ensures var v, w := run.states[n].vms[i], run.states[n].vms[j];
      && (HostForwards(v)[k] == HostForwards(w)[l] ==> i == j && k == l)
      && (v.qmp == w.qmp ==> i == j) && HostForwards(v)[k] != w.qmp
      && !(5555 <= HostForwards(v)[k] <= 6000) && !(5555 <= v.qmp <= 6000)
  {
    RunOk(run, n);
    var vms := run.states[n].vms;
    ForwardsNeverClash(vms, run.states[n].stateDir, i, k, j, l);
    assert Owns(vms[i], vms[i].qmp) && Owns(vms[j], vms[j].qmp);
    if i != j {
      assert Apart(vms[if i < j then i else j], vms[if i < j then j else i]);
    }
  }

  /** In every state of a run, an ADB serial names one instance of one VM, on a port of its block. */
  lemma RunSerials(run: Run, n: nat, i: nat, a: string, j: nat, b: string)
    requires run.Valid() && n <= |run.commands| && i < |run.states[n].vms| && j < |run.states[n].vms|
    requires a in run.states[n].vms[i].assignments && b in run.states[n].vms[j].assignments
    ensures var v, w := run.states[n].vms[i], run.states[n].vms[j];
      && v.assignments[a] in v.adb
      && (AdbSerial(v.assignments[a]) == AdbSerial(w.assignments[b]) ==> i == j && a == b)
  {
    RunOk(run, n);
    var v, w := run.states[n].vms[i], run.states[n].vms[j];
    if AdbSerial(v.assignments[a]) == AdbSerial(w.assignments[b]) {
      SerialNamesOneInstance(run.states[n].vms, run.states[n].stateDir, i, a, j, b);
    }
  }
}
