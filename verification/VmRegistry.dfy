/** The registry of virtual machines, and the commands that change it. */
module VmRegistry {
  import opened Bytes
  import opened VmPorts
  import opened Decimal

  const DEFAULT_ADB_PORT_BASE: word := 24500
  const DEFAULT_SSH_PORT_BASE: word := 22300
  const DEFAULT_QMP_PORT_BASE: word := 23300
  const MIN_VM_MEMORY_MIB := 1536
  const MAX_VM_MEMORY_MIB := 16384

  datatype VmEntry = VmEntry(
    name: string, disk: string, memMib: dword, ssh: word, qmp: word, adb: seq<word>,
    assignments: map<string, word>, snapshots: seq<string>)

  datatype VmError =
    | BadName | BadImage | ZeroPorts | BadMemory | AlreadyExists | NotRegistered | PortTaken | NoPort | NoBlock
    | ArithmeticOverflow | AlreadyAssigned | BlockExhausted

  // ------------------------------------------------------------------ names --

  predicate NameChar(c: char)
  {
    'a' <= c <= 'z' || '0' <= c <= '9' || c == '-'
  }

  predicate ValidName(name: string)
  {
    && 1 <= |name| <= 24 && (forall i :: 0 <= i < |name| ==> NameChar(name[i]))
    && name[0] != '-' && name[|name| - 1] != '-'
  }

  function DirOf(stateDir: string, name: string): (path: string)
  {
    stateDir + "/vms/" + name
  }

  function DiskOf(stateDir: string, name: string): (path: string)
  {
    DirOf(stateDir, name) + "/disk.qcow2"
  }

  // ---------------------------------------------------------------- lookups --

  predicate Contains(vms: seq<VmEntry>, name: string)
  {
    exists i :: 0 <= i < |vms| && vms[i].name == name
  }

  /** The position of the first entry of that name. */
  function IndexOf(vms: seq<VmEntry>, name: string): (i: nat)
    requires Contains(vms, name)
    ensures i < |vms| && vms[i].name == name && forall k :: 0 <= k < i ==> vms[k].name != name
  {
    if vms[0].name == name then 0
    else
      assert Contains(vms[1..], name) by {
        var i :| 0 <= i < |vms| && vms[i].name == name;
        assert vms[1..][i - 1] == vms[i];
      }
      1 + IndexOf(vms[1..], name)
  }

  /** The ports of one VM: all of them are bound on the host while it runs. */
  predicate Owns(v: VmEntry, p: word)
  {
    p == v.ssh || p == v.qmp || p in v.adb
  }

  function Elements(ports: seq<word>): (e: set<word>)
  {
    set p | p in ports
  }

  function PortsOf(v: VmEntry): (ports: set<word>)
    ensures forall p: word :: p in ports <==> Owns(v, p)
  {
    {v.ssh, v.qmp} + Elements(v.adb)
  }

  function UsedPorts(vms: seq<VmEntry>): (used: set<word>)
    ensures forall p: word :: p in used <==> exists i :: 0 <= i < |vms| && Owns(vms[i], p)
  {
    if vms == [] then {} else UsedPorts(vms[..|vms| - 1]) + PortsOf(vms[|vms| - 1])
  }

  // --------------------------------------------------------------- commands --

  datatype CreateRequest = CreateRequest(
    name: string, accelOk: bool, baseImageExists: bool, adbBase: word, adbCount: word, memMib: dword, ssh: Option<word>)

  datatype NewPorts = NewPorts(ssh: word, qmp: word, adb: seq<word>)

  /** SSH, then QMP, then the block: each avoids what is used and what was just chosen. */
  function ChoosePorts(used: set<word>, ssh: Option<word>, base: word, count: word,
      checked: bool): (r: Result<NewPorts, VmError>)
  {
    if ssh.Some? && !Free(used, ssh.value) then Err(PortTaken)
    else
      var s := if ssh.Some? then ssh else NextFree(used, DEFAULT_SSH_PORT_BASE);
      if s.None? then Err(NoPort)
      else
        var q := NextFree(used + {s.value}, DEFAULT_QMP_PORT_BASE);
        if q.None? then Err(NoPort)
        else
          match Allocate(used + {s.value} + {q.value}, base, count, checked)
          case ZeroCount => Err(ZeroPorts)
          case Exhausted => Err(NoBlock)
          case Overflow => Err(ArithmeticOverflow)
          case Block(adb) => Ok(NewPorts(s.value, q.value, adb))
  }

  function Entry(stateDir: string, name: string, memMib: dword, p: NewPorts): (v: VmEntry)
  {
    VmEntry(name, DiskOf(stateDir, name), memMib, p.ssh, p.qmp, p.adb, map[], [])
  }

  function Created(vms: seq<VmEntry>, stateDir: string, q: CreateRequest, checked: bool): (r: Result<VmEntry, VmError>)
  {
    if !ValidName(q.name) then Err(BadName)
    else if !q.accelOk || !q.baseImageExists then Err(BadImage)
    else if q.adbCount == 0 then Err(ZeroPorts)
    else if !(MIN_VM_MEMORY_MIB <= q.memMib <= MAX_VM_MEMORY_MIB) then Err(BadMemory)
    else if Contains(vms, q.name) then Err(AlreadyExists)
    else
      match ChoosePorts(UsedPorts(vms), q.ssh, q.adbBase, q.adbCount, checked)
      case Err(e) => Err(e)
      case Ok(p) => Ok(Entry(stateDir, q.name, q.memMib, p))
  }

  /** Only the checks that come before anything is written. */
  function CloneChecked(vms: seq<VmEntry>, name: string, newName: string): (r: Result<VmEntry, VmError>)
  {
    if !ValidName(newName) then Err(BadName)
    else if Contains(vms, newName) then Err(AlreadyExists)
    else if !Contains(vms, name) then Err(NotRegistered)
    else Ok(vms[IndexOf(vms, name)])
  }

  /** `len().max(1) as u16`. */
  function CloneCount(source: VmEntry): (count: word)
  {
    (if |source.adb| == 0 then 1 else |source.adb|) % 0x1_0000
  }

  function Cloned(vms: seq<VmEntry>, stateDir: string, name: string, newName: string,
      checked: bool): (r: Result<VmEntry, VmError>)
  {
    match CloneChecked(vms, name, newName)
    case Err(e) => Err(e)
    case Ok(source) =>
      match ChoosePorts(UsedPorts(vms), None, DEFAULT_ADB_PORT_BASE, CloneCount(source), checked)
      case Err(e) => Err(e)
      case Ok(p) => Ok(Entry(stateDir, newName, source.memMib, p))
  }

  /** `retain(|v| v.name != name)`. */
  function Without(vms: seq<VmEntry>, name: string): (r: seq<VmEntry>)
  {
    if vms == [] then []
    else Without(vms[..|vms| - 1], name) + if vms[|vms| - 1].name == name then [] else [vms[|vms| - 1]]
  }

  function Replaced(vms: seq<VmEntry>, i: nat, v: VmEntry): (r: seq<VmEntry>)
    requires i < |vms|
  {
    vms[i := v]
  }

  function NextAdbFrom(v: VmEntry, i: nat): (r: Option<word>)
    requires i <= |v.adb|
    decreases |v.adb| - i
  {
    if i == |v.adb| then None
    else if v.adb[i] !in v.assignments.Values then Some(v.adb[i])
    else NextAdbFrom(v, i + 1)
  }

  /** The next unused port of the VM's block. */
  function NextAdb(v: VmEntry): (r: Option<word>)
  {
    NextAdbFrom(v, 0)
  }

  function Assigned(v: VmEntry, instance: string): (r: Result<VmEntry, VmError>)
  {
    if instance in v.assignments then Err(AlreadyAssigned)
    else
      match NextAdb(v)
      case None => Err(BlockExhausted)
      case Some(p) => Ok(v.(assignments := v.assignments[instance := p]))
  }

  function SnapshotRegistered(v: VmEntry, tag: string): (r: VmEntry)
  {
    if tag in v.snapshots then v else v.(snapshots := v.snapshots + [tag])
  }

  // -------------------------------------------------- the registry in place --

  class Registry {
    var vms: seq<VmEntry>
    const stateDir: string
    /** Whether this build checks arithmetic for overflow. */
    const checked: bool

    constructor (dir: string, debug: bool)
      ensures vms == [] && stateDir == dir && checked == debug
    {
      vms, stateDir, checked := [], dir, debug;
    }

    method Get(name: string) returns (found: Option<nat>)
      ensures found == if Contains(vms, name) then Some(IndexOf(vms, name)) else None
    {
      for i := 0 to |vms|
        invariant forall k :: 0 <= k < i ==> vms[k].name != name
      {
        if vms[i].name == name {
          return Some(i);
        }
      }
      found := None;
    }

    method Used() returns (used: set<word>)
      ensures used == UsedPorts(vms)
    {
      used := {};
      for i := 0 to |vms|
        invariant used == UsedPorts(vms[..i])
      {
        var v := vms[i];
        assert vms[..i + 1][..i] == vms[..i] && vms[..i + 1][i] == v;
        used := used + {v.ssh};
        used := used + {v.qmp};
        used := used + Elements(v.adb);
        assert used == UsedPorts(vms[..i]) + PortsOf(v);
      }
      assert vms[..|vms|] == vms;
    }

    method Choose(taken: set<word>, ssh: Option<word>, base: word, count: word) returns (r: Result<NewPorts, VmError>)
      ensures r == ChoosePorts(taken, ssh, base, count, checked)
    {
      var used := taken;
      var sshPort: Option<word> := ssh;
      if ssh.Some? {
        if !Free(used, ssh.value) {
          return Err(PortTaken);
        }
      } else {
        sshPort := NextFreePort(used, DEFAULT_SSH_PORT_BASE);
        if sshPort.None? {
          return Err(NoPort);
        }
      }
      used := used + {sshPort.value};
      var qmpPort := NextFreePort(used, DEFAULT_QMP_PORT_BASE);
      if qmpPort.None? {
        return Err(NoPort);
      }
      used := used + {qmpPort.value};
      var block := AllocatePortBlock(used, base, count, checked);
      match block
      case ZeroCount => r := Err(ZeroPorts);
      case Exhausted => r := Err(NoBlock);
      case Overflow => r := Err(ArithmeticOverflow);
      case Block(adb) => r := Ok(NewPorts(sshPort.value, qmpPort.value, adb));
    }

    method Create(q: CreateRequest) returns (r: Result<VmEntry, VmError>)
      modifies this`vms
      ensures r == Created(old(vms), stateDir, q, checked)
      ensures vms == if r.Ok? then old(vms) + [r.value] else old(vms)
    {
      if !ValidName(q.name) {
        return Err(BadName);
      }
      if !q.accelOk || !q.baseImageExists {
        return Err(BadImage);
      }
      if q.adbCount == 0 {
        return Err(ZeroPorts);
      }
      if !(MIN_VM_MEMORY_MIB <= q.memMib <= MAX_VM_MEMORY_MIB) {
        return Err(BadMemory);
      }
      var known := Get(q.name);
      if known.Some? {
        return Err(AlreadyExists);
      }
      var used := Used();
      var ports := Choose(used, q.ssh, q.adbBase, q.adbCount);
      if ports.Err? {
        return Err(ports.error);
      }
      var entry := Entry(stateDir, q.name, q.memMib, ports.value);
      vms := vms + [entry];
      r := Ok(entry);
    }

    method Clone(name: string, newName: string) returns (r: Result<VmEntry, VmError>)
      modifies this`vms
      ensures r == Cloned(old(vms), stateDir, name, newName, checked)
      ensures vms == if r.Ok? then old(vms) + [r.value] else old(vms)
    {
      if !ValidName(newName) {
        return Err(BadName);
      }
      var taken := Get(newName);
      if taken.Some? {
        return Err(AlreadyExists);
      }
      var source := Get(name);
      if source.None? {
        return Err(NotRegistered);
      }
      var used := Used();
      var ports := Choose(used, None, DEFAULT_ADB_PORT_BASE, CloneCount(vms[source.value]));
      if ports.Err? {
        return Err(ports.error);
      }
      var entry := Entry(stateDir, newName, vms[source.value].memMib, ports.value);
      vms := vms + [entry];
      r := Ok(entry);
    }

    method Delete(name: string)
      modifies this`vms
      ensures vms == Without(old(vms), name)
    {
      var kept: seq<VmEntry> := [];
      for i := 0 to |vms|
        invariant vms == old(vms) && kept == Without(vms[..i], name)
      {
        assert vms[..i + 1][..i] == vms[..i] && vms[..i + 1][i] == vms[i];
        if vms[i].name != name {
          kept := kept + [vms[i]];
        }
      }
      assert vms[..|vms|] == vms;
      vms := kept;
    }

    method CreateInstance(name: string, instance: string) returns (r: Result<VmEntry, VmError>)
      modifies this`vms
      ensures r == if Contains(old(vms), name) then Assigned(old(vms)[IndexOf(old(vms), name)], instance)
        else Err(NotRegistered)
      ensures vms == if r.Ok? then Replaced(old(vms), IndexOf(old(vms), name), r.value) else old(vms)
    {
      var at := Get(name);
      if at.None? {
        return Err(NotRegistered);
      }
      var v := vms[at.value];
      if instance in v.assignments {
        return Err(AlreadyAssigned);
      }
      var port := NextFreeAdbPort(v);
      if port.None? {
        return Err(BlockExhausted);
      }
      v := v.(assignments := v.assignments[instance := port.value]);
      vms := vms[at.value := v];
      r := Ok(v);
    }

    method SetMemory(name: string, memMib: dword) returns (known: bool)
      modifies this`vms
      ensures known == Contains(old(vms), name)
      ensures vms == if known
        then Replaced(old(vms), IndexOf(old(vms), name), old(vms)[IndexOf(old(vms), name)].(memMib := memMib))
          else old(vms)
    {
      var at := Get(name);
      known := at.Some?;
      if known {
        vms := vms[at.value := vms[at.value].(memMib := memMib)];
      }
    }

    method RegisterSnapshot(name: string, tag: string) returns (known: bool)
      modifies this`vms
      ensures known == Contains(old(vms), name)
      ensures vms == if known
        then Replaced(old(vms), IndexOf(old(vms), name), SnapshotRegistered(old(vms)[IndexOf(old(vms), name)], tag))
          else old(vms)
    {
      var at := Get(name);
      known := at.Some?;
      if known && tag !in vms[at.value].snapshots {
        vms := vms[at.value := vms[at.value].(snapshots := vms[at.value].snapshots + [tag])];
      }
    }
  }

  method NextFreeAdbPort(v: VmEntry) returns (r: Option<word>)
    ensures r == NextAdb(v)
  {
    for i := 0 to |v.adb|
      invariant NextAdb(v) == NextAdbFrom(v, i)
    {
      if v.adb[i] !in v.assignments.Values {
        return Some(v.adb[i]);
      }
    }
    r := None;
  }

  // -------------------------------------------------------------- invariant --

  /** One VM: a valid name, its own disk, memory within the limits, distinct unreserved ports in a
      consecutive block, and each instance on a port of its own within the block. */
  ghost predicate EntryOk(v: VmEntry, stateDir: string)
  {
    && ValidName(v.name) && v.disk == DiskOf(stateDir, v.name) && MIN_VM_MEMORY_MIB <= v.memMib <= MAX_VM_MEMORY_MIB
    && v.ssh != v.qmp && v.ssh !in v.adb && v.qmp !in v.adb
    && (forall p: word :: Owns(v, p) ==> !Reserved(p))
    && (forall k :: 0 <= k < |v.adb| ==> v.adb[k] == v.adb[0] + k)
    && AssignmentsOk(v)
  }

  ghost predicate AssignmentsOk(v: VmEntry)
  {
    && (forall a :: a in v.assignments ==> v.assignments[a] in v.adb)
    && (forall a, b :: a in v.assignments && b in v.assignments && v.assignments[a] == v.assignments[b] ==> a == b)
  }

  ghost predicate Apart(v: VmEntry, w: VmEntry)
  {
    v.name != w.name && forall p: word :: !(Owns(v, p) && Owns(w, p))
  }

  ghost predicate RegistryOk(vms: seq<VmEntry>, stateDir: string)
  {
    && (forall i :: 0 <= i < |vms| ==> EntryOk(vms[i], stateDir))
    && (forall i, j :: 0 <= i < j < |vms| ==> Apart(vms[i], vms[j]))
  }

  /** Chosen ports are distinct, unreserved and not in use. */
  lemma ChosenPortsOk(used: set<word>, ssh: Option<word>, base: word, count: word, checked: bool)
    ensures var r := ChoosePorts(used, ssh, base, count, checked);
      r.Ok? ==>
        && var p := r.value;
        && Free(used, p.ssh) && Free(used, p.qmp) && p.ssh != p.qmp && p.ssh !in p.adb && p.qmp !in p.adb
        && (forall k :: 0 <= k < |p.adb| ==> p.adb[k] == p.adb[0] + k && Free(used, p.adb[k]))
        && (if p.adb == [] then !checked else |p.adb| == count && base <= p.adb[0])
        && (ssh.Some? ==> p.ssh == ssh.value)
  {
    var s := if ssh.Some? then ssh else NextFree(used, DEFAULT_SSH_PORT_BASE);
    if s.Some? && NextFree(used + {s.value}, DEFAULT_QMP_PORT_BASE).Some? {
      var taken := used + {s.value} + {NextFree(used + {s.value}, DEFAULT_QMP_PORT_BASE).value};
      if Allocate(taken, base, count, checked).Block? {
        BlockIsFree(taken, base, count, checked);
      }
    }
  }

  lemma PushKeeps(vms: seq<VmEntry>, stateDir: string, v: VmEntry)
    requires RegistryOk(vms, stateDir) && EntryOk(v, stateDir) && !Contains(vms, v.name)
    requires forall p: word :: Owns(v, p) ==> p !in UsedPorts(vms)
    ensures RegistryOk(vms + [v], stateDir)
  {
    forall i | 0 <= i < |vms|
      ensures Apart(vms[i], v)
    {
    }
  }

  lemma NewEntryKeeps(vms: seq<VmEntry>, stateDir: string, name: string, memMib: dword,
      ssh: Option<word>, base: word, count: word, checked: bool)
    requires RegistryOk(vms, stateDir) && ValidName(name) && !Contains(vms, name)
    requires MIN_VM_MEMORY_MIB <= memMib <= MAX_VM_MEMORY_MIB
    requires ChoosePorts(UsedPorts(vms), ssh, base, count, checked).Ok?
    ensures var v := Entry(stateDir, name, memMib, ChoosePorts(UsedPorts(vms), ssh, base, count, checked).value);
      RegistryOk(vms + [v], stateDir)
  {
    hide ChoosePorts, UsedPorts, RegistryOk;
    ChosenPortsOk(UsedPorts(vms), ssh, base, count, checked);
    var ports := ChoosePorts(UsedPorts(vms), ssh, base, count, checked).value;
    PushKeeps(vms, stateDir, Entry(stateDir, name, memMib, ports));
  }

  /** A new VM has the name and memory asked for, the SSH port asked for if any, and as many ADB
      ports as asked for, at or above the base; only an unchecked overflow leaves it without any. */
  lemma CreatedKeeps(vms: seq<VmEntry>, stateDir: string, q: CreateRequest, checked: bool)
    requires RegistryOk(vms, stateDir)
    ensures var r := Created(vms, stateDir, q, checked);
      r.Ok? ==>
        && RegistryOk(vms + [r.value], stateDir) && r.value.name == q.name && !Contains(vms, q.name)
        && r.value.memMib == q.memMib && (q.ssh.Some? ==> r.value.ssh == q.ssh.value)
        && (if r.value.adb == [] then !checked else |r.value.adb| == q.adbCount && q.adbBase <= r.value.adb[0])
  {
    if Created(vms, stateDir, q, checked).Ok? {
      ChosenPortsOk(UsedPorts(vms), q.ssh, q.adbBase, q.adbCount, checked);
      NewEntryKeeps(vms, stateDir, q.name, q.memMib, q.ssh, q.adbBase, q.adbCount, checked);
    }
  }

  /** A clone has its own name and ports, the memory of its source, as many ADB ports (at least
      one), and neither instances nor snapshots. */
  lemma ClonedKeeps(vms: seq<VmEntry>, stateDir: string, name: string, newName: string, checked: bool)
    requires RegistryOk(vms, stateDir)
    ensures var r := Cloned(vms, stateDir, name, newName, checked);
      r.Ok? ==>
        && RegistryOk(vms + [r.value], stateDir) && r.value.name == newName && !Contains(vms, newName)
        && Contains(vms, name)
        && var source := vms[IndexOf(vms, name)];
        && r.value.memMib == source.memMib && r.value.assignments == map[] && r.value.snapshots == []
        && (if r.value.adb == [] then !checked else |r.value.adb| == CloneCount(source))
  {
    if Cloned(vms, stateDir, name, newName, checked).Ok? {
      var source := vms[IndexOf(vms, name)];
      ChosenPortsOk(UsedPorts(vms), None, DEFAULT_ADB_PORT_BASE, CloneCount(source), checked);
      NewEntryKeeps(vms, stateDir, newName, source.memMib, None, DEFAULT_ADB_PORT_BASE, CloneCount(source), checked);
    }
  }

  lemma OneMoreOk(init: seq<VmEntry>, kept: seq<VmEntry>, last: VmEntry, stateDir: string)
    requires RegistryOk(init + [last], stateDir) && RegistryOk(kept, stateDir) && forall v :: v in kept ==> v in init
    ensures RegistryOk(kept + [last], stateDir)
  {
    hide Apart, EntryOk;
    var all := init + [last];
    assert all[|init|] == last;
    forall i | 0 <= i < |kept|
      ensures Apart(kept[i], last)
    {
      assert kept[i] in init;
      var k :| 0 <= k < |init| && init[k] == kept[i];
      assert all[k] == kept[i];
    }
  }

  /** Exactly the entries of other names remain, in order. */
  lemma {:induction false} WithoutKeeps(vms: seq<VmEntry>, stateDir: string, name: string)
    requires RegistryOk(vms, stateDir)
    ensures RegistryOk(Without(vms, name), stateDir)
    ensures forall v :: v in Without(vms, name) <==> v in vms && v.name != name
  {
    hide EntryOk, Apart;
    if vms != [] {
      var init, last := vms[..|vms| - 1], vms[|vms| - 1];
      assert vms == init + [last];
      WithoutKeeps(init, stateDir, name);
      OneMoreOk(init, Without(init, name), last, stateDir);
    }
  }

  lemma ReplacedKeeps(vms: seq<VmEntry>, stateDir: string, i: nat, v: VmEntry)
    requires RegistryOk(vms, stateDir) && i < |vms| && EntryOk(v, stateDir)
    requires v.name == vms[i].name && v.ssh == vms[i].ssh && v.qmp == vms[i].qmp && v.adb == vms[i].adb
    ensures RegistryOk(Replaced(vms, i, v), stateDir)
  {
    forall j | 0 <= j < |vms| && j != i
      ensures Apart(vms[j], v)
    {
      assert if i < j then Apart(vms[i], vms[j]) else Apart(vms[j], vms[i]);
    }
  }

  // -------------------------------------------------------------- instances --

  lemma {:induction false} NextAdbFromExact(v: VmEntry, i: nat)
    requires i <= |v.adb|
    ensures match NextAdbFrom(v, i)
      case Some(p) => exists k | i <= k < |v.adb| && v.adb[k] == p ::
        p !in v.assignments.Values && forall j :: i <= j < k ==> v.adb[j] in v.assignments.Values
      case None => forall j :: i <= j < |v.adb| ==> v.adb[j] in v.assignments.Values
    decreases |v.adb| - i
  {
    if i < |v.adb| && v.adb[i] in v.assignments.Values {
      NextAdbFromExact(v, i + 1);
    }
  }

  /** A new instance gets the lowest unassigned port of the block, and keeps the map injective. */
  lemma AssignedKeeps(v: VmEntry, stateDir: string, instance: string)
    requires EntryOk(v, stateDir) && Assigned(v, instance).Ok?
    ensures var w := Assigned(v, instance).value;
      && EntryOk(w, stateDir) && instance in w.assignments
      && (forall a :: a in v.assignments ==> a in w.assignments && w.assignments[a] == v.assignments[a])
      && (forall k :: 0 <= k < |v.adb| && v.adb[k] < w.assignments[instance] ==> v.adb[k] in v.assignments.Values)
  {
    NextAdbFromExact(v, 0);
    var w := Assigned(v, instance).value;
    assert w.ssh == v.ssh && w.qmp == v.qmp && w.adb == v.adb;
    assert forall p: word :: Owns(w, p) <==> Owns(v, p);
  }

  lemma {:induction false} ImageSize(m: map<string, word>)
    requires forall a, b :: a in m && b in m && m[a] == m[b] ==> a == b
    ensures |m.Values| == |m|
    decreases |m|
  {
    if m != map[] {
      var a :| a in m;
      var n := m - {a};
      forall y | y in m.Values
        ensures y in n.Values + {m[a]}
      {
        var k :| k in m && m[k] == y;
        assert k != a ==> n[k] == y;
      }
      forall y | y in n.Values
        ensures y in m.Values && y != m[a]
      {
        var k :| k in n && n[k] == y;
        assert m[k] == y;
      }
      assert m.Values == n.Values + {m[a]};
      assert m.Keys == n.Keys + {a};
      ImageSize(n);
    }
  }

  lemma {:induction false} ElementCount(s: seq<word>)
    requires forall i, j :: 0 <= i < j < |s| ==> s[i] != s[j]
    ensures |Elements(s)| == |s|
  {
    if s != [] {
      var init, last := s[..|s| - 1], s[|s| - 1];
      ElementCount(init);
      assert last !in init;
      assert s == init + [last];
      assert Elements(s) == Elements(init) + {last};
    }
  }

  lemma SubsetSize<T>(a: set<T>, b: set<T>)
    requires a <= b
    ensures |a| <= |b| && (|a| == |b| <==> a == b)
  {
    assert b == a + (b - a);
  }

  lemma AssignedInBlock(v: VmEntry)
    requires AssignmentsOk(v)
    ensures v.assignments.Values <= Elements(v.adb)
  {
    forall y | y in v.assignments.Values
      ensures y in Elements(v.adb)
    {
      var a :| a in v.assignments && v.assignments[a] == y;
    }
  }

  /** The ports of a block are pairwise different. */
  lemma BlockIsDistinct(v: VmEntry, stateDir: string)
    requires EntryOk(v, stateDir)
    ensures forall i, j :: 0 <= i < j < |v.adb| ==> v.adb[i] != v.adb[j]
  {
  }

  /** A block is exhausted exactly when it holds as many instances as it has ports. */
  lemma BlockHoldsItsSize(v: VmEntry, stateDir: string)
    requires EntryOk(v, stateDir)
    ensures |v.assignments| <= |v.adb|
    ensures NextAdb(v).None? <==> |v.assignments| == |v.adb|
  {
    var block := Elements(v.adb);
    ImageSize(v.assignments);
    BlockIsDistinct(v, stateDir);
    ElementCount(v.adb);
    AssignedInBlock(v);
    hide EntryOk, NextAdb, Elements;
    ExhaustedIff(v, block);
    SubsetSize(v.assignments.Values, block);
  }

  lemma ExhaustedIff(v: VmEntry, block: set<word>)
    requires block == Elements(v.adb)
    ensures NextAdb(v).None? <==> block <= v.assignments.Values
  {
    NextAdbFromExact(v, 0);
    if NextAdb(v).None? {
      forall p | p in block
        ensures p in v.assignments.Values
      {
        var k :| 0 <= k < |v.adb| && v.adb[k] == p;
      }
    }
  }

  // --------------------------------------------------- what the ports are for --

  /** The host ports QEMU binds for a VM: SSH, then the block. */
  function HostForwards(v: VmEntry): (hosts: seq<word>)
  {
    [v.ssh] + v.adb
  }

  /** No two forwards, of the same VM or of different ones, bind the same host port, and none is the
      QMP port of any VM. */
  lemma ForwardsNeverClash(vms: seq<VmEntry>, stateDir: string, i: nat, k: nat, j: nat, l: nat)
    requires RegistryOk(vms, stateDir) && i < |vms| && j < |vms|
    requires k < |HostForwards(vms[i])| && l < |HostForwards(vms[j])|
    ensures HostForwards(vms[i])[k] == HostForwards(vms[j])[l] ==> i == j && k == l
    ensures HostForwards(vms[i])[k] != vms[j].qmp
    ensures !Reserved(HostForwards(vms[i])[k])
  {
    assert Owns(vms[i], HostForwards(vms[i])[k]) && Owns(vms[j], HostForwards(vms[j])[l]);
    assert Owns(vms[j], vms[j].qmp);
    if i != j {
      assert Apart(vms[if i < j then i else j], vms[if i < j then j else i]);
    }
  }

  /** `127.0.0.1:<port>`. */
  function AdbSerial(port: word): (s: seq<byte>)
  {
    [0x31, 0x32, 0x37, 0x2E, 0x30, 0x2E, 0x30, 0x2E, 0x31, 0x3A] + Digits(port)
  }

  lemma SerialInjective(p: word, q: word)
    requires AdbSerial(p) == AdbSerial(q)
    ensures p == q
  {
    assert AdbSerial(p)[10..] == Digits(p) && AdbSerial(q)[10..] == Digits(q);
    DigitsInjective(p, q);
  }

  /** An ADB serial names one instance of one VM. */
  lemma SerialNamesOneInstance(vms: seq<VmEntry>, stateDir: string, i: nat, a: string, j: nat, b: string)
    requires RegistryOk(vms, stateDir) && i < |vms| && j < |vms|
    requires a in vms[i].assignments && b in vms[j].assignments
    requires AdbSerial(vms[i].assignments[a]) == AdbSerial(vms[j].assignments[b])
    ensures i == j && a == b
  {
    SerialInjective(vms[i].assignments[a], vms[j].assignments[b]);
    assert Owns(vms[i], vms[i].assignments[a]) && Owns(vms[j], vms[j].assignments[b]);
  }
}
