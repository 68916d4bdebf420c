/**
 * The instance registry of the manager and its lifecycle operations: create,
 * start, stop, install an app and run an app. Every operation is a pure
 * function of the registry and the executor; it returns what the Python method
 * returns or raises, the registry afterwards, and the commands it issued.
 */
module Lifecycle {
  import opened Wrappers
  import opened DeviceRecord
  import opened Commands

  /** The manager's in-memory registry: instance name to record. */
  type Registry = map<string, Device>

  /** The configuration values the manager reads: console path for create/install/run, default properties, instance ceiling. */
  datatype Config = Config(ldplayerPath: string, defaultProperties: Props, maxInstances: int)

  /**
   * What an operation raises. `CapacityReached` and `NotFound` are `InstanceError`s.
   * `CommandFailed` stands both for the `InstanceError` raised on a non-zero exit and
   * for the `OSError` that escapes when the executable cannot be spawned at all; both
   * abort the operation before the registry is touched.
   */
  datatype Error = CapacityReached(limit: int) | NotFound(name: string) | CommandFailed(argv: Argv)

  /**
   * The outcome of one operation: its result or error, the registry afterwards, the
   * commands issued in order, and whether it wrote the state file (`save_state`).
   */
  datatype Step<T> = Step(result: Result<T, Error>, devices: Registry, issued: seq<Argv>, saved: bool)

  /** `properties or settings.default_properties`: no properties and an empty dictionary both select the defaults. */
  function ChosenProps(properties: Option<Props>, defaults: Props): (p: Props)
    ensures properties.Some? && |properties.value| > 0 ==> p == properties.value
    ensures properties.None? || |properties.value| == 0 ==> p == defaults
  {
    match properties
    case Some(ps) => if |ps| > 0 then ps else defaults
    case None => defaults
  }

  /**
   * `create_instance`: refuses when the registry already holds `maxInstances` records,
   * otherwise issues the create command and, only if it succeeds, records a new
   * `created` instance whose index is the registry size before the call.
   */
  function CreateInstance(cfg: Config, devices: Registry, name: string, properties: Option<Props>,
                          exec: Argv -> Outcome): (s: Step<Device>)
    ensures |devices| >= cfg.maxInstances ==> s == Step(Failure(CapacityReached(cfg.maxInstances)), devices, [], false)
    ensures |devices| < cfg.maxInstances ==>
      s.issued == [CreateArgv(cfg.ldplayerPath, name, ChosenProps(properties, cfg.defaultProperties))]
    ensures s.result.Failure? ==> s.devices == devices
    ensures |devices| < cfg.maxInstances && exec(s.issued[0]).Failed? ==> s.result == Failure(CommandFailed(s.issued[0]))
    ensures s.result.Success? <==> |devices| < cfg.maxInstances && exec(s.issued[0]).Output?
    ensures s.saved <==> s.result.Success?
    ensures s.result.Success? ==>
      && s.result.value == Device(name, CreatedStatus, ChosenProps(properties, cfg.defaultProperties), |devices|, None)
      && s.devices.Keys == devices.Keys + {name}
      && s.devices[name] == s.result.value
      && (forall n :: n in devices && n != name ==> s.devices[n] == devices[n])
      && |s.devices| == if name in devices then |devices| else |devices| + 1
  {
    if |devices| >= cfg.maxInstances then
      Step(Failure(CapacityReached(cfg.maxInstances)), devices, [], false)
    else
      var props := ChosenProps(properties, cfg.defaultProperties);
      var argv := CreateArgv(cfg.ldplayerPath, name, props);
      match exec(argv)
      case Failed => Step(Failure(CommandFailed(argv)), devices, [argv], false)
      case Output(_) =>
        var device := Device(name, CreatedStatus, props, |devices|, None);
        Step(Success(device), devices[name := device], [argv], true)
  }

  /** Shared shape of start and stop: look the name up, issue `argv`, and on success set the status. */
  function SetStatusBy(devices: Registry, name: string, argv: Argv, status: string, exec: Argv -> Outcome): Step<bool> {
    if name !in devices then
      Step(Failure(NotFound(name)), devices, [], false)
    else
      match exec(argv)
      case Failed => Step(Failure(CommandFailed(argv)), devices, [argv], false)
      case Output(_) => Step(Success(true), devices[name := devices[name].(status := status)], [argv], true)
  }

  /** The registry after a status change of `name` alone: same keys, that record's status replaced, all else equal. */
  ghost predicate OnlyStatusChanged(before: Registry, after: Registry, name: string, status: string) {
    && name in before
    && after.Keys == before.Keys
    && after[name] == before[name].(status := status)
    && forall n :: n in before && n != name ==> after[n] == before[n]
  }

  /**
   * `start_instance`: an unknown name fails before any command; otherwise the launch
   * command is issued through the hard-coded console path and only its success marks
   * the instance `running`. The current status is not consulted.
   */
  function StartInstance(consolePath: string, devices: Registry, name: string, exec: Argv -> Outcome): (s: Step<bool>)
    ensures name !in devices ==> s == Step(Failure(NotFound(name)), devices, [], false)
    ensures name in devices ==> s.issued == [[consolePath, "launch", "--name", name]]
    ensures name in devices && exec(s.issued[0]).Failed? ==> s == Step(Failure(CommandFailed(s.issued[0])), devices, s.issued, false)
    ensures s.result.Success? <==> name in devices && exec(s.issued[0]).Output?
    ensures s.saved <==> s.result.Success?
    ensures s.result.Success? ==> s.result.value && OnlyStatusChanged(devices, s.devices, name, RunningStatus)
  {
    SetStatusBy(devices, name, LaunchArgv(consolePath, name), RunningStatus, exec)
  }

  /** `stop_instance`: as start, with the quit command and the `stopped` status. */
  function StopInstance(consolePath: string, devices: Registry, name: string, exec: Argv -> Outcome): (s: Step<()>)
    ensures name !in devices ==> s == Step(Failure(NotFound(name)), devices, [], false)
    ensures name in devices ==> s.issued == [[consolePath, "quit", "--name", name]]
    ensures name in devices && exec(s.issued[0]).Failed? ==> s == Step(Failure(CommandFailed(s.issued[0])), devices, s.issued, false)
    ensures s.result.Success? <==> name in devices && exec(s.issued[0]).Output?
    ensures s.saved <==> s.result.Success?
    ensures s.result.Success? ==> OnlyStatusChanged(devices, s.devices, name, StoppedStatus)
  {
    var step := SetStatusBy(devices, name, QuitArgv(consolePath, name), StoppedStatus, exec);
    match step.result
    case Success(_) => Step(Success(()), step.devices, step.issued, step.saved)
    case Failure(e) => Step(Failure(e), step.devices, step.issued, step.saved)
  }

  /** Shared shape of install and run: look the name up, then pass `argv` through; neither the registry nor the file is touched. */
  function PassThrough(devices: Registry, name: string, argv: Argv, exec: Argv -> Outcome): (s: Step<()>)
    ensures s.devices == devices && !s.saved
  {
    if name !in devices then Step(Failure(NotFound(name)), devices, [], false)
    else match exec(argv)
      case Failed => Step(Failure(CommandFailed(argv)), devices, [argv], false)
      case Output(_) => Step(Success(()), devices, [argv], false)
  }

  /** `install_app`: unknown names fail before any command; the install command never changes the registry or the state file. */
  function InstallApp(cfg: Config, devices: Registry, name: string, apkPath: string, exec: Argv -> Outcome): (s: Step<()>)
    ensures s.devices == devices && !s.saved
    ensures name !in devices ==> s.result == Failure(NotFound(name)) && s.issued == []
    ensures name in devices ==> s.issued == [[cfg.ldplayerPath, "install", "--name", name, "--apk", apkPath]]
    ensures s.result.Success? <==> name in devices && exec(s.issued[0]).Output?
    ensures name in devices && exec(s.issued[0]).Failed? ==> s.result == Failure(CommandFailed(s.issued[0]))
  {
    PassThrough(devices, name, InstallArgv(cfg.ldplayerPath, name, apkPath), exec)
  }

  /** `run_app`: unknown names fail before any command; launching a package never changes the registry or the state file. */
  function RunApp(cfg: Config, devices: Registry, name: string, packageName: string, exec: Argv -> Outcome): (s: Step<()>)
    ensures s.devices == devices && !s.saved
    ensures name !in devices ==> s.result == Failure(NotFound(name)) && s.issued == []
    ensures name in devices ==> s.issued == [[cfg.ldplayerPath, "launch", "--name", name, "--packagename", packageName]]
    ensures s.result.Success? <==> name in devices && exec(s.issued[0]).Output?
    ensures name in devices && exec(s.issued[0]).Failed? ==> s.result == Failure(CommandFailed(s.issued[0]))
  {
    PassThrough(devices, name, RunAppArgv(cfg.ldplayerPath, name, packageName), exec)
  }

  // ---------------------------------------------------------------------------
  // Sequences of operations

  /** A lifecycle request as a front end or script issues it. */
  datatype Op =
    | Create(name: string, properties: Option<Props>)
    | Start(name: string)
    | Stop(name: string)
    | Install(name: string, apkPath: string)
    | Run(name: string, packageName: string)

  /** The registry after one request, whatever it returned or raised. */
  function Apply(cfg: Config, consolePath: string, devices: Registry, op: Op, exec: Argv -> Outcome): Registry {
    match op
    case Create(n, p) => CreateInstance(cfg, devices, n, p, exec).devices
    case Start(n) => StartInstance(consolePath, devices, n, exec).devices
    case Stop(n) => StopInstance(consolePath, devices, n, exec).devices
    case Install(n, a) => InstallApp(cfg, devices, n, a, exec).devices
    case Run(n, k) => RunApp(cfg, devices, n, k, exec).devices
  }

  /**
   * The registry after a sequence of requests, each applied to the registry the previous
   * one left. Request `i` sees the console through `execs[i]`, so the same command may
   * succeed at one step and fail at another.
   */
  function ApplyAll(cfg: Config, consolePath: string, devices: Registry, ops: seq<Op>, execs: seq<Argv -> Outcome>): Registry
    requires |execs| == |ops|
    decreases |ops|
  {
    if |ops| == 0 then devices
    else ApplyAll(cfg, consolePath, Apply(cfg, consolePath, devices, ops[0], execs[0]), ops[1..], execs[1..])
  }

  /** Every record is filed under its own name. */
  ghost predicate WellKeyed(devices: Registry) {
    forall n :: n in devices ==> devices[n].name == n
  }

  /** The capacity ceiling is an invariant: starting within it, no sequence of requests exceeds it. */
  lemma {:induction false} CapacityInvariant(cfg: Config, consolePath: string, devices: Registry, ops: seq<Op>,
                                             execs: seq<Argv -> Outcome>)
    requires |execs| == |ops|
    requires |devices| <= cfg.maxInstances
    ensures |ApplyAll(cfg, consolePath, devices, ops, execs)| <= cfg.maxInstances
    decreases |ops|
  {
    if |ops| > 0 {
      var next := Apply(cfg, consolePath, devices, ops[0], execs[0]);
      assert |next| <= cfg.maxInstances;
      CapacityInvariant(cfg, consolePath, next, ops[1..], execs[1..]);
    }
  }

  /**
   * One request removes no instance and adds at most the name it creates; records of a
   * well-keyed registry stay filed under their own names. A loaded registry need not be
   * well-keyed: the state file's keys are used whatever the records' names say.
   */
  lemma ApplyOnlyGrows(cfg: Config, consolePath: string, devices: Registry, op: Op, exec: Argv -> Outcome)
    ensures devices.Keys <= Apply(cfg, consolePath, devices, op, exec).Keys
    ensures WellKeyed(devices) ==> WellKeyed(Apply(cfg, consolePath, devices, op, exec))
    ensures forall n :: n in Apply(cfg, consolePath, devices, op, exec) && n !in devices ==> op.Create? && op.name == n
  {
    match op
    case Create(n, p) =>
      var s := CreateInstance(cfg, devices, n, p, exec);
      if s.result.Success? {
        assert s.devices == devices[n := s.result.value];
      }
    case Start(n) =>
      var s := StartInstance(consolePath, devices, n, exec);
      if s.result.Success? {
        assert s.devices == devices[n := devices[n].(status := RunningStatus)];
      }
    case Stop(n) =>
      var s := StopInstance(consolePath, devices, n, exec);
      if s.result.Success? {
        assert s.devices == devices[n := devices[n].(status := StoppedStatus)];
      }
    case Install(n, a) =>
    case Run(n, k) =>
  }

  /**
   * No request removes an instance and new names come only from create requests, for
   * every registry; records of a well-keyed registry stay filed under their own names.
   */
  lemma {:induction false} RegistryOnlyGrows(cfg: Config, consolePath: string, devices: Registry, ops: seq<Op>,
                                             execs: seq<Argv -> Outcome>)
    requires |execs| == |ops|
    ensures devices.Keys <= ApplyAll(cfg, consolePath, devices, ops, execs).Keys
    ensures WellKeyed(devices) ==> WellKeyed(ApplyAll(cfg, consolePath, devices, ops, execs))
    ensures forall n :: n in ApplyAll(cfg, consolePath, devices, ops, execs) && n !in devices ==>
      exists i :: 0 <= i < |ops| && ops[i].Create? && ops[i].name == n
    decreases |ops|
  {
    if |ops| > 0 {
      var next := Apply(cfg, consolePath, devices, ops[0], execs[0]);
      ApplyOnlyGrows(cfg, consolePath, devices, ops[0], execs[0]);
      RegistryOnlyGrows(cfg, consolePath, next, ops[1..], execs[1..]);
      var final := ApplyAll(cfg, consolePath, devices, ops, execs);
      forall n | n in final && n !in devices
        ensures exists i :: 0 <= i < |ops| && ops[i].Create? && ops[i].name == n
      {
        if n in next {
          assert ops[0].Create? && ops[0].name == n;
        } else {
          var j :| 0 <= j < |ops[1..]| && ops[1..][j].Create? && ops[1..][j].name == n;
          assert ops[j + 1].Create? && ops[j + 1].name == n;
        }
      }
    }
  }

  /** Creation ordinals are distinct and below the registry size. */
  ghost predicate OrdinalsDistinct(devices: Registry) {
    && (forall n :: n in devices ==> 0 <= devices[n].index < |devices|)
    && (forall m, n :: m in devices && n in devices && m != n ==> devices[m].index != devices[n].index)
  }

  /** Creating a name not yet registered keeps ordinals distinct: the new index is the old size. */
  lemma CreateFreshKeepsOrdinals(cfg: Config, devices: Registry, name: string, properties: Option<Props>, exec: Argv -> Outcome)
    requires OrdinalsDistinct(devices) && name !in devices
    ensures OrdinalsDistinct(CreateInstance(cfg, devices, name, properties, exec).devices)
  {
  }

  /** Start and stop keep ordinals distinct: they only change a status. */
  lemma StartStopKeepOrdinals(consolePath: string, devices: Registry, name: string, exec: Argv -> Outcome)
    requires OrdinalsDistinct(devices)
    ensures OrdinalsDistinct(StartInstance(consolePath, devices, name, exec).devices)
    ensures OrdinalsDistinct(StopInstance(consolePath, devices, name, exec).devices)
  {
    StatusChangeKeepsOrdinals(devices, StartInstance(consolePath, devices, name, exec).devices, name, RunningStatus);
    StatusChangeKeepsOrdinals(devices, StopInstance(consolePath, devices, name, exec).devices, name, StoppedStatus);
  }

  lemma StatusChangeKeepsOrdinals(before: Registry, after: Registry, name: string, status: string)
    requires OrdinalsDistinct(before)
    requires after == before || OnlyStatusChanged(before, after, name, status)
    ensures OrdinalsDistinct(after)
  {
    if after != before {
      assert |after| == |after.Keys| == |before.Keys| == |before|;
      assert forall n :: n in after ==> after[n].index == before[n].index;
    }
  }

  /**
   * Re-creating a registered name overwrites its record with the current size as index
   * without growing the registry, so the next create of a new name reuses that index:
   * both records end up with the same creation ordinal.
   */
  lemma DuplicateCreateReusesOrdinal(cfg: Config, devices: Registry, dup: string, newName: string,
                                     props: Option<Props>, exec: Argv -> Outcome)
    requires dup in devices && newName !in devices
    requires |devices| < cfg.maxInstances
    requires exec(CreateArgv(cfg.ldplayerPath, dup, ChosenProps(props, cfg.defaultProperties))).Output?
    requires exec(CreateArgv(cfg.ldplayerPath, newName, ChosenProps(props, cfg.defaultProperties))).Output?
    ensures var after := CreateInstance(cfg, devices, dup, props, exec).devices;
            var last := CreateInstance(cfg, after, newName, props, exec).devices;
            dup in last && newName in last && last[dup].index == last[newName].index == |devices|
  {
    var after := CreateInstance(cfg, devices, dup, props, exec).devices;
    assert |after| == |devices|;
  }

  /**
   * The lifecycle scenario: creating "alpha" with two cores and 2048 MB in an empty
   * registry gives one `created` record with index 0; starting it makes it `running`,
   * stopping it makes it `stopped`.
   */
  lemma AlphaScenario(cfg: Config)
    requires cfg.maxInstances >= 1
    ensures var ok := (argv: Argv) => Output("");
            var props := [Prop("cpu", IntVal(2)), Prop("memory", IntVal(2048))];
            var created := CreateInstance(cfg, map[], "alpha", Some(props), ok);
            var started := StartInstance(HardCodedConsolePath, created.devices, "alpha", ok);
            var stopped := StopInstance(HardCodedConsolePath, started.devices, "alpha", ok);
            && created.devices == map["alpha" := Device("alpha", CreatedStatus, props, 0, None)]
            && started.devices == map["alpha" := Device("alpha", RunningStatus, props, 0, None)]
            && stopped.devices == map["alpha" := Device("alpha", StoppedStatus, props, 0, None)]
  {
  }
}
