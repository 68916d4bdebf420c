/**
 * Per-instance resource snapshots (`get_instance_resources`), the snapshot of the
 * whole registry, and the threshold monitor. The host process table is an input:
 * each process carries what psutil would report for it, with `None` wherever the
 * read raises because the process vanished or access was denied.
 */
module ResourceCollector {
  import opened Wrappers
  import opened Text
  import opened Commands
  import opened Lifecycle

  /** One process's sampled metrics; `None` marks a read that raised. */
  datatype Reading = Reading(cpu: Option<real>, rss: Option<nat>, threads: Option<nat>)

  /**
   * A host process: its executable name (`None` when psutil could not read it),
   * the text of `str(cmdline())` (`None` when that call raises), its own reading,
   * and its recursive children (`None` when enumerating them raises).
   */
  datatype Proc = Proc(procName: Option<string>, cmdline: Option<string>, own: Reading, descendants: Option<seq<Reading>>)

  datatype Health = Running | Stopped | Error

  /** A resource snapshot: CPU percent, resident memory in MB, thread count, liveness. */
  datatype Snapshot = Snapshot(cpu: real, memory: real, threads: nat, status: Health)

  function Zeroed(status: Health): Snapshot {
    Snapshot(0.0, 0.0, 0, status)
  }

  const BytesPerMB: real := 1048576.0

  /** The liveness answer counts as running when its lower-cased text contains "running". */
  predicate ReportsRunning(stdout: string) {
    Contains(Lower(stdout), "running")
  }

  /** The liveness test ignores case: an upper-case answer counts as running. */
  lemma UpperCaseAnswerRuns()
    ensures ReportsRunning("RUNNING")
  {
    var low := Lower("RUNNING");
    assert low == "running" by {
      forall i | 0 <= i < 7 ensures low[i] == "running"[i] { }
    }
    assert OccursAt(low, "running", 0);
  }

  /** The liveness test ignores case: an answer counts as running exactly when its lower-cased form does. */
  lemma LivenessIgnoresCase(stdout: string)
    ensures ReportsRunning(stdout) <==> ReportsRunning(Lower(stdout))
  {
    LowerIdempotent(stdout);
  }

  /** Any lower-case answer mentioning "running" counts, so "not running" would count too. */
  lemma MentionOfRunningRuns(prefix: string, suffix: string)
    requires forall i :: 0 <= i < |prefix| ==> !('A' <= prefix[i] <= 'Z')
    requires forall i :: 0 <= i < |suffix| ==> !('A' <= suffix[i] <= 'Z')
    ensures ReportsRunning(prefix + "running" + suffix)
  {
    var answer := prefix + "running" + suffix;
    forall i | 0 <= i < |answer| ensures !('A' <= answer[i] <= 'Z') {
      if i < |prefix| {
      } else if i < |prefix| + 7 {
        assert answer[i] == "running"[i - |prefix|];
      } else {
        assert answer[i] == suffix[i - |prefix| - 7];
      }
    }
    LowerFixesLowerCase(answer);
    assert answer[|prefix|..|prefix| + 7] == "running";
    assert OccursAt(answer, "running", |prefix|);
  }

  /** The console's answer for a stopped instance does not count as running. */
  lemma StopAnswerStops()
    ensures !ReportsRunning("stop")
  {
    assert |Lower("stop")| < |"running"|;
  }

  /** A process belongs to the emulator when its lower-cased name mentions "ldplayer" or "dnplayer". */
  predicate IsPlayerProcess(name: string) {
    Contains(Lower(name), "ldplayer") || Contains(Lower(name), "dnplayer")
  }

  /** A process is the instance's root when its command line can be read and contains the instance name. */
  predicate IsRootOf(p: Proc, name: string) {
    p.cmdline.Some? && Contains(p.cmdline.value, name)
  }

  /** `sub` lists some of the elements of `s`, in the order they appear in `s`. */
  ghost predicate Subsequence(sub: seq<Proc>, s: seq<Proc>)
    decreases |s|
  {
    if |sub| == 0 then true
    else if |s| == 0 then false
    else (sub[0] == s[0] && Subsequence(sub[1..], s[1..])) || Subsequence(sub, s[1..])
  }

  /** How many processes of the table are emulator processes. */
  ghost function PlayerCount(procs: seq<Proc>): nat
    requires forall i :: 0 <= i < |procs| ==> procs[i].procName.Some?
  {
    if |procs| == 0 then 0
    else PlayerCount(procs[1..]) + if IsPlayerProcess(procs[0].procName.value) then 1 else 0
  }

  /**
   * The emulator processes, in enumeration order: a subsequence of the table holding
   * only emulator processes and as many as the table has, hence every one of them.
   * Only meaningful once every name is readable.
   */
  function PlayerProcesses(procs: seq<Proc>): (r: seq<Proc>)
    requires forall i :: 0 <= i < |procs| ==> procs[i].procName.Some?
    ensures forall p :: p in r <==> p in procs && IsPlayerProcess(p.procName.value)
    ensures Subsequence(r, procs)
    ensures forall k :: 0 <= k < |r| ==> r[k].procName.Some? && IsPlayerProcess(r[k].procName.value)
    ensures |r| == PlayerCount(procs)
  {
    if |procs| == 0 then []
    else
      var rest := PlayerProcesses(procs[1..]);
      if IsPlayerProcess(procs[0].procName.value) then
        assert ([procs[0]] + rest)[1..] == rest;
        [procs[0]] + rest
      else
        rest
  }

  /** The first candidate whose command line mentions `name`. */
  function FindRoot(cands: seq<Proc>, name: string): (r: Option<nat>)
    ensures r.Some? ==> r.value < |cands| && IsRootOf(cands[r.value], name)
    ensures r.Some? ==> forall j :: 0 <= j < r.value ==> !IsRootOf(cands[j], name)
    ensures r.None? ==> forall j :: 0 <= j < |cands| ==> !IsRootOf(cands[j], name)
  {
    if |cands| == 0 then None
    else if IsRootOf(cands[0], name) then Some(0)
    else match FindRoot(cands[1..], name)
      case None => None
      case Some(k) => Some(k + 1)
  }

  /** A descendant whose CPU was sampled: its CPU is counted. */
  predicate CpuRead(r: Reading) {
    r.cpu.Some?
  }

  /** A descendant whose CPU and memory were read: its memory is counted. */
  predicate MemoryRead(r: Reading) {
    r.cpu.Some? && r.rss.Some?
  }

  /** A descendant whose every read succeeded: the only kind whose threads are counted. */
  predicate Survives(r: Reading) {
    r.cpu.Some? && r.rss.Some? && r.threads.Some?
  }

  /** Running totals of the aggregation loop: CPU percent, memory in MB, threads. */
  datatype Totals = Totals(cpu: real, memory: real, threads: nat)

  /**
   * One pass of the loop over descendants: a read that raises skips the rest of that
   * child, but what was already added stays added.
   */
  function Absorb(t: Totals, d: Reading): (r: Totals)
    ensures r.cpu == if CpuRead(d) then t.cpu + d.cpu.value else t.cpu
    ensures r.memory == if MemoryRead(d) then t.memory + d.rss.value as real / BytesPerMB else t.memory
    ensures r.threads == if Survives(d) then t.threads + d.threads.value else t.threads
  {
    if d.cpu.None? then t
    else if d.rss.None? then t.(cpu := t.cpu + d.cpu.value)
    else if d.threads.None? then Totals(t.cpu + d.cpu.value, t.memory + d.rss.value as real / BytesPerMB, t.threads)
    else Totals(t.cpu + d.cpu.value, t.memory + d.rss.value as real / BytesPerMB, t.threads + d.threads.value)
  }

  /** The readings that satisfy `keep`, in order. */
  function Filter(ds: seq<Reading>, keep: Reading -> bool): (r: seq<Reading>)
    ensures forall i :: 0 <= i < |r| ==> keep(r[i])
    ensures forall x :: x in r <==> x in ds && keep(x)
  {
    if |ds| == 0 then [] else (if keep(ds[0]) then [ds[0]] else []) + Filter(ds[1..], keep)
  }

  /** The descendants that survived every read, in order. */
  function Survivors(ds: seq<Reading>): seq<Reading> {
    Filter(ds, Survives)
  }

  /** Total CPU of readings whose CPU was sampled. */
  function CpuTotal(ds: seq<Reading>): real
    requires forall i :: 0 <= i < |ds| ==> CpuRead(ds[i])
  {
    if |ds| == 0 then 0.0 else assert CpuRead(ds[0]); ds[0].cpu.value + CpuTotal(ds[1..])
  }

  /** Total memory in MB of readings whose memory was read. */
  function MemoryTotal(ds: seq<Reading>): real
    requires forall i :: 0 <= i < |ds| ==> MemoryRead(ds[i])
  {
    if |ds| == 0 then 0.0 else assert MemoryRead(ds[0]); ds[0].rss.value as real / BytesPerMB + MemoryTotal(ds[1..])
  }

  /** Total thread count of readings that all succeeded. */
  function ThreadTotal(ds: seq<Reading>): nat
    requires forall i :: 0 <= i < |ds| ==> Survives(ds[i])
  {
    if |ds| == 0 then 0 else assert Survives(ds[0]); ds[0].threads.value + ThreadTotal(ds[1..])
  }

  /** Filtering a non-empty sequence: the head is kept exactly when it passes. */
  lemma FilterCons(ds: seq<Reading>, keep: Reading -> bool)
    requires |ds| > 0
    ensures keep(ds[0]) ==> Filter(ds, keep) == [ds[0]] + Filter(ds[1..], keep)
    ensures !keep(ds[0]) ==> Filter(ds, keep) == Filter(ds[1..], keep)
  {
  }

  /**
   * The loop over all descendants, in enumeration order. It ends with the start values
   * plus the threads of the descendants whose every read succeeded, the CPU of every
   * descendant whose CPU was sampled, and the memory of every descendant whose CPU and
   * memory were read.
   */
  function AddDescendants(t: Totals, ds: seq<Reading>): (r: Totals)
    ensures r.threads == t.threads + ThreadTotal(Survivors(ds))
    ensures r.cpu == t.cpu + CpuTotal(Filter(ds, CpuRead))
    ensures r.memory == t.memory + MemoryTotal(Filter(ds, MemoryRead))
    decreases |ds|
  {
    if |ds| == 0 then t
    else
      var d := ds[0];
      FilterCons(ds, Survives);
      FilterCons(ds, CpuRead);
      FilterCons(ds, MemoryRead);
      var threadTail, cpuTail, memTail := Filter(ds[1..], Survives), Filter(ds[1..], CpuRead), Filter(ds[1..], MemoryRead);
      assert ([d] + threadTail)[1..] == threadTail;
      assert ([d] + cpuTail)[1..] == cpuTail;
      assert ([d] + memTail)[1..] == memTail;
      AddDescendants(Absorb(t, d), ds[1..])
  }

  /**
   * A descendant that vanishes after its CPU was sampled still contributes that CPU,
   * though its memory and threads are skipped.
   */
  lemma VanishedChildKeepsCpu(t: Totals, sample: real)
    ensures AddDescendants(t, [Reading(Some(sample), None, None)]) == t.(cpu := t.cpu + sample)
  {
  }

  /** The snapshot for a process table in which `root` was found to be the instance's root process. */
  function RootSnapshot(root: Proc): (s: Snapshot)
    ensures s.status == Running <==> Survives(root.own) && root.descendants.Some?
    ensures s.status != Running ==> s == Zeroed(Error)
    ensures s.status == Running ==> s.threads == root.own.threads.value + ThreadTotal(Survivors(root.descendants.value))
    ensures s.status == Running ==> s.cpu == root.own.cpu.value + CpuTotal(Filter(root.descendants.value, CpuRead))
    ensures s.status == Running ==>
      s.memory == root.own.rss.value as real / BytesPerMB + MemoryTotal(Filter(root.descendants.value, MemoryRead))
  {
    if Survives(root.own) && root.descendants.Some? then
      var start := Totals(root.own.cpu.value, root.own.rss.value as real / BytesPerMB, root.own.threads.value);
      var total := AddDescendants(start, root.descendants.value);
      Snapshot(total.cpu, total.memory, total.threads, Running)
    else
      Zeroed(Error)
  }

  /** Position `i` of the table holds an emulator process whose command line names the instance. */
  ghost predicate PlayerRootAt(procs: seq<Proc>, name: string, i: int)
    requires 0 <= i < |procs|
  {
    procs[i].procName.Some? && IsPlayerProcess(procs[i].procName.value) && IsRootOf(procs[i], name)
  }

  /** Searching the emulator processes for the root finds nothing exactly when no position of the table holds one. */
  lemma {:induction false} NoRootAmongPlayers(procs: seq<Proc>, name: string)
    requires forall i :: 0 <= i < |procs| ==> procs[i].procName.Some?
    ensures FindRoot(PlayerProcesses(procs), name).None? <==> forall j :: 0 <= j < |procs| ==> !PlayerRootAt(procs, name, j)
    decreases |procs|
  {
    if |procs| > 0 {
      var p, tail := procs[0], procs[1..];
      var cands, rest := PlayerProcesses(procs), PlayerProcesses(tail);
      if PlayerRootAt(procs, name, 0) {
        assert cands == [p] + rest;
      } else {
        assert FindRoot(cands, name).None? <==> FindRoot(rest, name).None? by {
          if IsPlayerProcess(p.procName.value) {
            assert cands == [p] + rest;
            FindRootSkips(p, rest, name);
          } else {
            assert cands == rest;
          }
        }
        NoRootAmongPlayers(tail, name);
        PlayerRootShift(procs, name);
        if FindRoot(rest, name).None? {
          forall j | 1 <= j < |procs| ensures !PlayerRootAt(procs, name, j) {
            assert !PlayerRootAt(tail, name, j - 1);
          }
        } else {
          var k :| 0 <= k < |tail| && PlayerRootAt(tail, name, k);
          assert PlayerRootAt(procs, name, k + 1);
        }
      }
    }
  }

  /**
   * Searching the emulator processes for the root finds the earliest position of the
   * table that holds an emulator process naming the instance.
   */
  lemma {:induction false} FirstRootAmongPlayers(procs: seq<Proc>, name: string)
    requires forall i :: 0 <= i < |procs| ==> procs[i].procName.Some?
    requires FindRoot(PlayerProcesses(procs), name).Some?
    ensures exists i :: && 0 <= i < |procs|
                        && procs[i] == PlayerProcesses(procs)[FindRoot(PlayerProcesses(procs), name).value]
                        && PlayerRootAt(procs, name, i)
                        && forall j :: 0 <= j < i ==> !PlayerRootAt(procs, name, j)
    decreases |procs|
  {
    var p, tail := procs[0], procs[1..];
    var cands, rest := PlayerProcesses(procs), PlayerProcesses(tail);
    if PlayerRootAt(procs, name, 0) {
      assert cands == [p] + rest;
    } else {
      if IsPlayerProcess(p.procName.value) {
        assert cands == [p] + rest;
        FindRootSkips(p, rest, name);
      } else {
        assert cands == rest;
      }
      FirstRootAmongPlayers(tail, name);
      PlayerRootShift(procs, name);
      var i :| && 0 <= i < |tail| && tail[i] == rest[FindRoot(rest, name).value] && PlayerRootAt(tail, name, i)
               && forall j :: 0 <= j < i ==> !PlayerRootAt(tail, name, j);
      assert procs[i + 1] == cands[FindRoot(cands, name).value];
      assert PlayerRootAt(procs, name, i + 1);
    }
  }

  /** Dropping the first process of the table shifts every position down by one. */
  lemma PlayerRootShift(procs: seq<Proc>, name: string)
    requires |procs| > 0
    ensures forall j :: 1 <= j < |procs| ==> PlayerRootAt(procs, name, j) == PlayerRootAt(procs[1..], name, j - 1)
  {
  }

  /** A candidate that does not name the instance is passed over. */
  lemma FindRootSkips(p: Proc, rest: seq<Proc>, name: string)
    requires !IsRootOf(p, name)
    ensures FindRoot([p] + rest, name).None? <==> FindRoot(rest, name).None?
    ensures FindRoot(rest, name).Some? ==> FindRoot([p] + rest, name) == Some(FindRoot(rest, name).value + 1)
  {
    var c := [p] + rest;
    assert c[0] == p && c[1..] == rest;
  }

  /**
   * The root process an instance's snapshot is built from. There is none when some
   * process name cannot be read (the error escapes the enumeration loop) or when no
   * emulator process names the instance.
   */
  function RootIn(procs: seq<Proc>, name: string): (r: Option<Proc>)
    ensures r.None? <==>
      (exists i :: 0 <= i < |procs| && procs[i].procName.None?) || (forall j :: 0 <= j < |procs| ==> !PlayerRootAt(procs, name, j))
  {
    if exists i :: 0 <= i < |procs| && procs[i].procName.None? then None
    else
      var cands := PlayerProcesses(procs);
      NoRootAmongPlayers(procs, name);
      match FindRoot(cands, name)
      case None => None
      case Some(k) => Some(cands[k])
  }

  /**
   * `get_instance_resources`: ask the console whether the instance runs; if the answer
   * does not mention "running", report it stopped without looking at processes. Otherwise
   * find the root process among the emulator processes and sum over its tree. A failed
   * liveness query, an unreadable process name, a missing root or an unreadable root all
   * give the zeroed `error` snapshot.
   */
  function GetInstanceResources(consolePath: string, name: string, exec: Argv -> Outcome, procs: seq<Proc>): (s: Snapshot)
    ensures exec([consolePath, "isrunning", "--name", name]).Failed? ==> s == Zeroed(Error)
    ensures s.status == Stopped <==>
      (var out := exec([consolePath, "isrunning", "--name", name]); out.Output? && !ReportsRunning(out.stdout))
    ensures s.status == Stopped ==> s == Zeroed(Stopped)
    ensures s.status == Running <==>
      && exec([consolePath, "isrunning", "--name", name]).Output?
      && ReportsRunning(exec([consolePath, "isrunning", "--name", name]).stdout)
      && RootIn(procs, name).Some?
      && Survives(RootIn(procs, name).value.own)
      && RootIn(procs, name).value.descendants.Some?
    ensures s.status == Running ==>
      var root := RootIn(procs, name).value;
      && s.threads == root.own.threads.value + ThreadTotal(Survivors(root.descendants.value))
      && s.cpu == root.own.cpu.value + CpuTotal(Filter(root.descendants.value, CpuRead))
      && s.memory == root.own.rss.value as real / BytesPerMB + MemoryTotal(Filter(root.descendants.value, MemoryRead))
    ensures s.status == Error ==> s == Zeroed(Error)
  {
    match exec(IsRunningArgv(consolePath, name))
    case Failed => Zeroed(Error)
    case Output(out) =>
      if !ReportsRunning(out) then Zeroed(Stopped)
      else match RootIn(procs, name)
        case None => Zeroed(Error)
        case Some(root) => RootSnapshot(root)
  }

  /**
   * The root found in a process table is an emulator process whose command line names
   * the instance, and no earlier process of the table is one.
   */
  lemma RootInIsFirstMatch(procs: seq<Proc>, name: string)
    requires RootIn(procs, name).Some?
    ensures exists i :: && 0 <= i < |procs|
                        && procs[i] == RootIn(procs, name).value
                        && PlayerRootAt(procs, name, i)
                        && forall j :: 0 <= j < i ==> !PlayerRootAt(procs, name, j)
  {
    NoRootAmongPlayers(procs, name);
    FirstRootAmongPlayers(procs, name);
  }

  /** A stopped answer decides the snapshot whatever the process table holds: no process is looked at. */
  lemma StoppedIgnoresProcesses(consolePath: string, name: string, exec: Argv -> Outcome, procs1: seq<Proc>, procs2: seq<Proc>)
    requires exec([consolePath, "isrunning", "--name", name]).Output?
    requires !ReportsRunning(exec([consolePath, "isrunning", "--name", name]).stdout)
    ensures GetInstanceResources(consolePath, name, exec, procs1) == GetInstanceResources(consolePath, name, exec, procs2) == Zeroed(Stopped)
  {
  }

  /** `get_all_instances_resources`: one fresh snapshot per registered name and nothing else. */
  function GetAllInstancesResources(consolePath: string, devices: Registry, exec: Argv -> Outcome, procsAt: string -> seq<Proc>): (r: map<string, Snapshot>)
    ensures r.Keys == devices.Keys
    ensures forall n :: n in r ==> r[n] == GetInstanceResources(consolePath, n, exec, procsAt(n))
  {
    map n | n in devices :: GetInstanceResources(consolePath, n, exec, procsAt(n))
  }

  /** A warning the monitor logs: high CPU or high memory for one instance, with the measured value. */
  datatype Warning = HighCpu(instance: string, cpu: real) | HighMemory(instance: string, memory: real)

  /** The default thresholds of `monitor_resources`; the memory one is compared against megabytes. */
  const DefaultCpuThreshold: real := 80.0
  const DefaultMemoryThreshold: real := 80.0

  /** A warning is due exactly for a running instance whose metric strictly exceeds its threshold, carrying that metric. */
  ghost predicate Warranted(snaps: map<string, Snapshot>, cpuLimit: real, memLimit: real, w: Warning) {
    && w.instance in snaps
    && snaps[w.instance].status == Running
    && match w
       case HighCpu(n, v) => snaps[n].cpu > cpuLimit && v == snaps[n].cpu
       case HighMemory(n, v) => snaps[n].memory > memLimit && v == snaps[n].memory
  }

  /** The warnings about one snapshot. */
  function WarningsFor(n: string, s: Snapshot, cpuLimit: real, memLimit: real): set<Warning> {
    if s.status != Running then {}
    else (if s.cpu > cpuLimit then {HighCpu(n, s.cpu)} else {}) + (if s.memory > memLimit then {HighMemory(n, s.memory)} else {})
  }

  /** The warnings due for a map of snapshots, collected one instance at a time. */
  method CollectWarnings(snaps: map<string, Snapshot>, cpuLimit: real, memLimit: real) returns (warnings: set<Warning>)
    ensures forall w :: w in warnings <==> Warranted(snaps, cpuLimit, memLimit, w)
  {
    var todo := snaps.Keys;
    warnings := {};
    while todo != {}
      invariant todo <= snaps.Keys
      invariant forall w :: w in warnings <==> w.instance !in todo && Warranted(snaps, cpuLimit, memLimit, w)
      decreases todo
    {
      var n :| n in todo;
      warnings := warnings + WarningsFor(n, snaps[n], cpuLimit, memLimit);
      todo := todo - {n};
    }
  }

  /**
   * `monitor_resources`: snapshot every registered instance and collect the warnings
   * due. It returns the warnings instead of logging them and changes nothing.
   */
  method MonitorResources(consolePath: string, devices: Registry, exec: Argv -> Outcome, procsAt: string -> seq<Proc>,
                          cpuLimit: real := DefaultCpuThreshold, memLimit: real := DefaultMemoryThreshold)
    returns (warnings: set<Warning>)
    ensures forall w :: w in warnings <==>
      Warranted(GetAllInstancesResources(consolePath, devices, exec, procsAt), cpuLimit, memLimit, w)
  {
    var snaps := GetAllInstancesResources(consolePath, devices, exec, procsAt);
    warnings := CollectWarnings(snaps, cpuLimit, memLimit);
  }
}
