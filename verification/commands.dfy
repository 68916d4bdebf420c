/**
 * Argument vectors the manager passes to the emulator console executable, and the
 * abstract outcome of running one. The executor itself (spawning the process,
 * capturing and stripping its output) is outside the model: an operation receives
 * it as a function from argument vector to outcome.
 */
module Commands {
  import opened Wrappers
  import opened DeviceRecord
  import Text

  type Argv = seq<string>

  /** What running a command yields: its (stripped) standard output, or a failure (non-zero exit or spawn error). */
  datatype Outcome = Output(stdout: string) | Failed

  /** The console path the manager hard-codes for launch, quit and liveness queries. */
  const HardCodedConsolePath := "D:\\LDPlayer\\LDPlayer9\\ldconsole.exe"

  /** `--key value` for each property in order, the value rendered with `str`. */
  function FlagArgs(props: Props): (r: seq<string>)
    ensures |r| == 2 * |props|
    ensures forall i :: 0 <= i < |props| ==> r[2 * i] == "--" + props[i].key && r[2 * i + 1] == Render(props[i].value)
  {
    if |props| == 0 then []
    else ["--" + props[0].key, Render(props[0].value)] + FlagArgs(props[1..])
  }

  /** `<exe> create --name <name>` followed by one flag pair per property. */
  function CreateArgv(exe: string, name: string, props: Props): (r: Argv)
    ensures |r| == 4 + 2 * |props|
    ensures r[..4] == [exe, "create", "--name", name]
    ensures forall i :: 0 <= i < |props| ==> r[4 + 2 * i] == "--" + props[i].key && r[5 + 2 * i] == Render(props[i].value)
  {
    [exe, "create", "--name", name] + FlagArgs(props)
  }

  /** `<exe> launch --name <name>`: start an instance (`start_instance`). */
  function LaunchArgv(exe: string, name: string): (r: Argv)
    ensures |r| == 4 && r[0] == exe && r[1] == "launch" && r[2] == "--name" && r[3] == name
  {
    [exe, "launch", "--name", name]
  }

  /** `<exe> quit --name <name>`: stop an instance (`stop_instance`). */
  function QuitArgv(exe: string, name: string): (r: Argv)
    ensures |r| == 4 && r[0] == exe && r[1] == "quit" && r[2] == "--name" && r[3] == name
  {
    [exe, "quit", "--name", name]
  }

  /** `<exe> install --name <name> --apk <apk>`: install a package (`install_app`). */
  function InstallArgv(exe: string, name: string, apkPath: string): (r: Argv)
    ensures |r| == 6 && r[0] == exe && r[1] == "install" && r[2] == "--name" && r[3] == name
    ensures r[4] == "--apk" && r[5] == apkPath
  {
    [exe, "install", "--name", name, "--apk", apkPath]
  }

  /** `<exe> launch --name <name> --packagename <pkg>`: run a package (`run_app`). */
  function RunAppArgv(exe: string, name: string, packageName: string): (r: Argv)
    ensures |r| == 6 && r[0] == exe && r[1] == "launch" && r[2] == "--name" && r[3] == name
    ensures r[4] == "--packagename" && r[5] == packageName
  {
    [exe, "launch", "--name", name, "--packagename", packageName]
  }

  /** `<exe> isrunning --name <name>`: the liveness query of `get_instance_resources`. */
  function IsRunningArgv(exe: string, name: string): (r: Argv)
    ensures |r| == 4 && r[0] == exe && r[1] == "isrunning" && r[2] == "--name" && r[3] == name
  {
    [exe, "isrunning", "--name", name]
  }

  /**
   * Every per-instance command names exactly one instance and one action: commands
   * for different instances, or for different actions, are different vectors, so the
   * console's answer to one is never the answer to another. Starting an instance and
   * running a package on it share the verb `launch` but not the length.
   */
  lemma InstanceCommandsDistinct(exe: string, m: string, n: string, apk: string, pkg: string)
    ensures LaunchArgv(exe, m) == LaunchArgv(exe, n) ==> m == n
    ensures QuitArgv(exe, m) == QuitArgv(exe, n) ==> m == n
    ensures IsRunningArgv(exe, m) == IsRunningArgv(exe, n) ==> m == n
    ensures InstallArgv(exe, m, apk) == InstallArgv(exe, n, apk) ==> m == n
    ensures RunAppArgv(exe, m, pkg) == RunAppArgv(exe, n, pkg) ==> m == n
    ensures LaunchArgv(exe, m) != QuitArgv(exe, n) && LaunchArgv(exe, m) != IsRunningArgv(exe, n)
    ensures QuitArgv(exe, m) != IsRunningArgv(exe, n)
    ensures LaunchArgv(exe, m) != RunAppArgv(exe, n, pkg) && InstallArgv(exe, m, apk) != RunAppArgv(exe, n, pkg)
  {
    assert LaunchArgv(exe, m)[1] != QuitArgv(exe, n)[1];
    assert LaunchArgv(exe, m)[1] != IsRunningArgv(exe, n)[1];
    assert QuitArgv(exe, m)[1] != IsRunningArgv(exe, n)[1];
    assert InstallArgv(exe, m, apk)[1] != RunAppArgv(exe, n, pkg)[1];
  }

  /** Reads the flag pairs back out of the tail of a create command. */
  function ParseFlags(args: seq<string>): seq<(string, string)>
    decreases |args|
  {
    if |args| < 2 then [] else [(args[0], args[1])] + ParseFlags(args[2..])
  }

  /** The flags of a create command can be read back pairwise: one `(--key, str(value))` per property, in order. */
  lemma {:induction false} FlagsReadBack(props: Props)
    ensures ParseFlags(FlagArgs(props)) == seq(|props|, i requires 0 <= i < |props| => ("--" + props[i].key, Render(props[i].value)))
  {
    if |props| > 0 {
      var rest := FlagArgs(props[1..]);
      assert FlagArgs(props)[2..] == rest;
      FlagsReadBack(props[1..]);
    }
  }

  /** A property value is recoverable from the command line: integers read back as the same number. */
  lemma FlagValueReadsBack(exe: string, name: string, props: Props, i: int)
    requires 0 <= i < |props| && props[i].value.IntVal?
    ensures Text.ParseInt(CreateArgv(exe, name, props)[5 + 2 * i]) == Some(props[i].value.i)
  {
  }
}
