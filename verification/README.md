# LDPlayer instance manager: a Dafny model

This project models the core of a manager for LDPlayer Android emulator instances
(`LDPlayerManager` and the `Device` record). It covers:

- the instance registry, a map from instance name to `Device` record;
- the lifecycle operations `create_instance`, `start_instance`, `stop_instance`,
  `install_app` and `run_app`, each with its guard (the instance ceiling or the
  existence check) and the exact argument vector it passes to the console executable;
- the resource snapshot of one instance (`get_instance_resources`) over an abstract
  host process table, the snapshot of every instance, and the threshold monitor;
- `save_state` and the fallback rules of `load_state`;
- the `Device.to_dict` / `Device.from_dict` codec.

Every operation is a pure function. The console executor is passed in as a
function from argument vector to `Outcome` (the stripped output, or `Failed`).
A lifecycle operation returns a `Step`. A `Step` holds the operation's result or
error, the registry afterwards, the argument vectors issued, in order, and
whether the operation wrote the state file. An empty `issued` list means that
no command ran. Start, stop and the liveness
query use the console path hard-coded in the manager. Create, install and run
use the configured path. The model therefore takes the path as a parameter at
each call site.

Modules, one per file:

- `Wrappers` (`wrappers.dfy`): `Option` and `Result`.
- `Text` (`text.dfy`): Python's `in` on strings, ASCII `lower()`, and `str(int)`
  with a decimal reader that undoes it.
- `DeviceRecord` (`device.dfy`): `Device`, property values, record dictionaries, and the codec.
- `Commands` (`commands.dfy`): argument vectors and command outcomes.
- `Lifecycle` (`lifecycle.dfy`): registry, configuration, errors, and the five operations.
  It also has sequences of operations and the invariants they keep.
- `Persistence` (`persistence.dfy`): the state file as a parse result, `SaveState` and `LoadState`.
- `ResourceCollector` (`resources.dfy`): process table, snapshots, and the monitor.

Behaviour of the code that a reader might not expect, and that the model keeps:

- `start_instance` never reads the current status (core/ld_manager.py:57-65), so
  starting a running instance issues the launch command again. `StartInstance` does
  the same.
- The loop over descendant processes adds each metric as soon as it is read
  (core/ld_manager.py:193-198). CPU already sampled from a child whose memory read
  then fails is still counted (`VanishedChildKeepsCpu`). Threads are counted only
  for children whose three reads all succeeded.
- The monitor's memory threshold is documented as a percentage (core/ld_manager.py:243),
  but the code compares it with megabytes. The model compares megabytes.
- A process whose name psutil cannot read is `None`. Calling `.lower()` on it raises
  an error that only the outer handler catches. So the whole snapshot becomes
  `error`, and the model does the same.

## Model

| member | source | states |
|---|---|---|
| Text.IntToString | core/ld_manager.py:39 | `str(n)` is in canonical decimal form: a minus sign exactly for negative numbers, then digits with no leading zero and no "-0" |
| Text.Lower | core/ld_manager.py:153 | `s.lower()` on ASCII text, as used here and for process names at line 165: same length, each letter A–Z lowered, every other character unchanged |
| Text.LowerIdempotent | core/ld_manager.py:153 | lower-casing text that is already lower-cased changes nothing |
| Text.Contains | core/ld_manager.py:153 | Python's `sub in s` holds exactly when some window of `s` equals `sub` |
| Text.IntToStringRoundTrip | core/ld_manager.py:39 | `str(n)` of an integer property value reads back as `n`, so no value is lost on the command line |
| Text.IntToStringInjective | core/ld_manager.py:39 | distinct integer property values give distinct flag values |
| DeviceRecord.Render | core/ld_manager.py:39 | `str(value)` is the string itself for strings; for integers it is the canonical decimal `str(n)`, which reads back to the number |
| DeviceRecord.ToDict | core/device.py:12-19 | `to_dict` yields exactly the keys name, status, properties, index, pid, each holding its field, with a missing pid as null |
| DeviceRecord.FromDict | core/device.py:21-29 | `from_dict` fails naming the first missing required key in lookup order; on success each field equals the dictionary's value and an absent pid means none |
| DeviceRecord.RoundTrip | core/device.py:12-29 | `from_dict(to_dict(d)) == d` for every record |
| DeviceRecord.OptionalPid | core/device.py:22-28 | a dictionary without `pid` decodes with pid `None` and the other four fields copied |
| DeviceRecord.DecodesExactlyEncodings | core/device.py:12-29 | a dictionary decodes to a record `d` exactly when it agrees with `to_dict(d)` on name, status, properties and index, and either holds the same pid or lacks `pid` while `d` has none; other keys are ignored |
| Commands.FlagArgs | core/ld_manager.py:38-39 | one `--key`, `str(value)` pair per property, in dictionary order, and nothing else |
| Commands.CreateArgv | core/ld_manager.py:36-39 | the create command is `<path> create --name <name>` followed by the flag pairs at positions 4+2i and 5+2i |
| Commands.LaunchArgv | core/ld_manager.py:63 | the start command is `<console> launch --name <name>` |
| Commands.QuitArgv | core/ld_manager.py:82 | the stop command is `<console> quit --name <name>` |
| Commands.InstallArgv | core/ld_manager.py:98 | the install command is `<path> install --name <name> --apk <apk>` |
| Commands.RunAppArgv | core/ld_manager.py:106 | the run command is `<path> launch --name <name> --packagename <pkg>` |
| Commands.IsRunningArgv | core/ld_manager.py:149 | the liveness query is `<console> isrunning --name <name>` |
| Commands.InstanceCommandsDistinct | core/ld_manager.py:63-149 | per-instance commands for different instances, or for different actions, are different vectors, so one instance's answer is never read as another's |
| Commands.FlagsReadBack | core/ld_manager.py:38-39 | reading the flags back pairwise recovers each property's key and rendered value in order |
| Commands.FlagValueReadsBack | core/ld_manager.py:39 | an integer property can be read back unchanged from its place in the create command |
| Lifecycle.ChosenProps | core/ld_manager.py:35 | properties that are absent or empty fall back to the configured defaults; otherwise the given ones are used |
| Lifecycle.CreateInstance | core/ld_manager.py:31-55 | at or above the ceiling, fails with no command and no change; otherwise issues exactly the create command; a failed command leaves the registry unchanged; on success maps the name to a `created` record with the chosen properties, no pid and index equal to the old size, keeps all other entries, and grows only for a new name; the state file is written exactly on success |
| Lifecycle.StartInstance | core/ld_manager.py:57-74 | an unknown name fails with no command issued; otherwise issues `<console> launch --name <name>`; on success only that record's status becomes `running` and the state file is written, and on failure nothing changes and nothing is written |
| Lifecycle.StopInstance | core/ld_manager.py:76-92 | as start, with `quit` and status `stopped` |
| Lifecycle.InstallApp | core/ld_manager.py:94-100 | never changes the registry or writes the state file; an unknown name fails with no command issued; otherwise issues `<path> install --name <name> --apk <apk>` and fails exactly when it does |
| Lifecycle.RunApp | core/ld_manager.py:102-108 | never changes the registry or writes the state file; an unknown name fails with no command issued; otherwise issues `<path> launch --name <name> --packagename <pkg>` and fails exactly when it does |
| Lifecycle.CapacityInvariant | core/ld_manager.py:32-33 | from a registry within the ceiling, no sequence of requests takes it above the ceiling, whatever the console answers at each step |
| Lifecycle.RegistryOnlyGrows | core/ld_manager.py:31-108 | for every registry, including one loaded from a file whose keys differ from the records' names, no request removes an instance and every new name comes from a create request; records of a well-keyed registry stay filed under their own name; the console may answer differently at each step |
| Lifecycle.CreateFreshKeepsOrdinals | core/ld_manager.py:43-49 | creating a name that is not registered yet keeps the creation indices distinct and below the registry size |
| Lifecycle.StartStopKeepOrdinals | core/ld_manager.py:57-92 | start and stop keep the creation indices distinct, since they change only a status |
| Lifecycle.DuplicateCreateReusesOrdinal | core/ld_manager.py:43-49 | re-creating a registered name overwrites it with the current size as index without growing the registry, so the next create of a new name gets the same index |
| Lifecycle.AlphaScenario | core/ld_manager.py:31-92 | create, start and stop of "alpha" with two cores and 2048 MB give index 0 and the statuses `created`, `running` and `stopped` in turn |
| Persistence.SaveState | core/ld_manager.py:110-113 | the saved object has the registry's keys, and each value is a full five-key record dictionary |
| Persistence.LoadState | core/ld_manager.py:115-137 | a missing or malformed file, or any entry that fails to decode, yields an empty registry; otherwise every entry is decoded under its own key |
| Persistence.SaveLoadRoundTrip | core/ld_manager.py:110-137 | loading what was saved reproduces the registry exactly |
| Persistence.OneBadEntryEmptiesRegistry | core/ld_manager.py:131-137 | one entry missing a required key empties the whole loaded registry |
| Persistence.CreateAfterMalformedLoad | core/ld_manager.py:135-137 | after a malformed file the registry is empty, and a create with default properties succeeds with index 0 |
| Persistence.CreateThenReload | core/ld_manager.py:41-52 | after a successful create, saving and loading again yields the created record with status `created` |
| ResourceCollector.LivenessIgnoresCase | core/ld_manager.py:153 | an answer counts as running exactly when its lower-cased form does, so the test ignores case |
| ResourceCollector.UpperCaseAnswerRuns | core/ld_manager.py:153 | the answer "RUNNING" counts as running |
| ResourceCollector.MentionOfRunningRuns | core/ld_manager.py:153 | any lower-case answer that contains "running" counts as running, even "not running" |
| ResourceCollector.StopAnswerStops | core/ld_manager.py:153-159 | the console's "stop" answer does not count as running |
| ResourceCollector.PlayerProcesses | core/ld_manager.py:162-168 | keeps exactly the processes whose lower-cased name mentions ldplayer or dnplayer, every one of them, in enumeration order |
| ResourceCollector.FindRoot | core/ld_manager.py:170-179 | picks the first candidate whose readable command line contains the instance name, and reports none when no candidate matches |
| ResourceCollector.NoRootAmongPlayers | core/ld_manager.py:162-179 | the search over the emulator processes finds nothing exactly when no process of the table is an emulator process whose command line names the instance |
| ResourceCollector.FirstRootAmongPlayers | core/ld_manager.py:162-179 | the process found is at the earliest position of the table holding an emulator process whose command line names the instance |
| ResourceCollector.RootIn | core/ld_manager.py:161-179 | there is no root exactly when some process name cannot be read or no emulator process names the instance |
| ResourceCollector.RootInIsFirstMatch | core/ld_manager.py:162-179 | the root found is an emulator process whose command line names the instance, and no earlier process of the table is one |
| ResourceCollector.AddDescendants | core/ld_manager.py:190-198 | the loop over descendants adds to its start values the threads of exactly the descendants whose three reads all succeeded, the CPU of every descendant whose CPU was sampled, and, in MB, the memory of every descendant whose CPU and memory were both read |
| ResourceCollector.VanishedChildKeepsCpu | core/ld_manager.py:193-198 | a child that vanishes after its CPU sample still contributes that CPU, but not its memory or threads |
| ResourceCollector.RootSnapshot | core/ld_manager.py:182-216 | a readable root with readable children gives a `running` snapshot: root threads plus the surviving descendants' threads, root CPU plus every sampled CPU, root memory in MB plus every read memory; otherwise the zeroed `error` snapshot |
| ResourceCollector.GetInstanceResources | core/ld_manager.py:139-225 | a failed liveness query gives zeroed `error`; an answer without "running" gives zeroed `stopped` and nothing else does; `running` exactly when a readable root is found, with CPU, memory and threads summed over the root and the descendants read; all non-running snapshots are zeroed |
| ResourceCollector.StoppedIgnoresProcesses | core/ld_manager.py:149-159 | once the answer reports not running, the snapshot is the same zeroed `stopped` one for every process table |
| ResourceCollector.GetAllInstancesResources | core/ld_manager.py:227-236 | one snapshot per registered name, with exactly the registry's key set |
| ResourceCollector.CollectWarnings | core/ld_manager.py:245-250 | over a map of snapshots, warns exactly for running instances whose CPU or memory strictly exceeds its threshold, carrying the measured value |
| ResourceCollector.MonitorResources | core/ld_manager.py:238-250 | with thresholds defaulting to 80, warns exactly for running instances whose CPU or memory strictly exceeds its threshold, carrying the measured value, and changes nothing |

## Left out

- Spawning the console and capturing its output (`execute_command`): the model takes an `Outcome` per argument vector. Stripping the output is left out because it cannot change whether the output contains "running".
- The actual file I/O of `save_state` and `load_state`: the data directory, the creation of an empty file when none exists, JSON text, and write failures. A save that raises after the in-memory change is not modelled.
- psutil itself: the model takes as inputs the process list, each process's readings, the text of `str(cmdline())` and the recursive child list.
- CPU sampling intervals, and rounding CPU and memory to one decimal (core/ld_manager.py:201-202): the model sums exact reals. The monitor compares the rounded values, so a CPU total of 80.04 warns in the model but not in the source, which compares 80.0.
- Lower-casing covers ASCII only. The few non-ASCII characters that Python's Unicode `lower()` maps onto ASCII letters cannot complete a match of "running", "ldplayer" or "dnplayer".
- DeviceRecord.FromDict: Python's `from_dict` accepts values of any type. The model rejects values whose shape does not match the record's field types, so that `Device` stays typed. Missing keys are reported exactly as Python reports them.
- Persistence.LoadState: because `DeviceRecord.FromDict` rejects ill-typed values, a state file holding one complete entry with an ill-typed value (`"index": "0"`, a float property) loads as an empty registry here, where `load_state` keeps every entry.
- `create_instance` returns the registry's own `Device` object, which later starts and stops change in place. The model returns a value, so that aliasing is not modelled.
- Property values are integers or strings only; `str()` of other JSON values (booleans, floats, nested objects) is not modelled.
- Warnings are returned as a set rather than logged in registry order, so their order is not modelled.
- The UI, the automation script, logging and configuration loading: configuration values are parameters (`Config`), and the hard-coded console path is a constant.
