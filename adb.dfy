/**
  * The device bridge as the reset script sees it: every `adb` invocation is an
  * argument vector, the bridge keeps the ordered trace of the vectors issued,
  * and what a command prints comes from an oracle (`World.respond`) that may
  * depend on everything issued before it. The file-system checks of the host
  * (`os.path.exists`) and the bundled-asset path resolution (`resource_path`)
  * are oracles as well.
  */
module Adb {
  import opened Wrappers

  /** One `adb` command line, as the list handed to `subprocess`. */
  type Argv = seq<string>

  /** What `subprocess.run(..., capture_output=True, text=True)` returns. */
  datatype CommandResult = CommandResult(status: int, stdout: string, stderr: string)

  /** The environment the script runs in, fixed for one run. */
  datatype World = World(
    respond: (seq<Argv>, Argv) -> CommandResult,  // reply of the device to a command, given the commands issued before it
    fileExists: string -> bool,                   // `os.path.exists` on the host
    resourcePath: string -> string                // `resource_path`: bundled asset name to host path
  )

  /** `subprocess.check_output`: the output, or `None` when the exit status is non-zero (it raises). */
  function Checked(r: CommandResult): (out: Option<string>)
    ensures out.Some? <==> r.status == 0
    ensures out.Some? ==> out.value == r.stdout
  {
    if r.status == 0 then Some(r.stdout) else None
  }

  /** `['adb', '-s', serial, 'shell'] + args`. */
  function Shell(serial: string, args: seq<string>): Argv {
    ["adb", "-s", serial, "shell"] + args
  }

  /** `clear_app_data`: `pm clear <package>`. */
  function PmClear(serial: string, pkg: string): Argv {
    Shell(serial, ["pm", "clear", pkg])
  }

  /** `rm -rf <path>` on the device. */
  function RemoveTree(serial: string, path: string): Argv {
    Shell(serial, ["rm", "-rf", path])
  }

  /** `content delete --uri <uri>`. */
  function ContentDelete(serial: string, uri: string): Argv {
    Shell(serial, ["content", "delete", "--uri", uri])
  }

  /** `am force-stop <package>`. */
  function ForceStop(serial: string, pkg: string): Argv {
    Shell(serial, ["am", "force-stop", pkg])
  }

  /** `adb -s <serial> push <local> <remote>`. */
  function Push(serial: string, local: string, remote: string): Argv {
    ["adb", "-s", serial, "push", local, remote]
  }

  /** `app_process` running class `cls` from a helper DEX pushed under `/data/local/tmp`. */
  function AppProcess(serial: string, dex: string, cls: string, args: seq<string>): Argv {
    Shell(serial, ["CLASSPATH=/data/local/tmp/" + dex, "app_process", "/system/bin", cls] + args)
  }

  /** A command that uninstalls a package for user 0. */
  predicate IsUninstall(c: Argv) {
    |c| >= 6 && c[3] == "shell" && c[4] == "pm" && c[5] == "uninstall"
  }

  /** A command that runs the LocaleChanger helper through `app_process`. */
  predicate IsLocaleChange(c: Argv) {
    |c| >= 8 && c[3] == "shell" && c[5] == "app_process" && c[7] == "LocaleChanger"
  }

  /** A command that removes a file tree on the device. */
  predicate IsRemoval(c: Argv) {
    |c| >= 6 && c[3] == "shell" && c[4] == "rm"
  }

  /** A command vector that is neither an uninstall nor a locale change. */
  predicate Neutral(c: Argv) {
    !IsUninstall(c) && !IsLocaleChange(c)
  }

  /**
    * The bridge to the connected devices. `trace` is every command issued so
    * far, in order; `world` fixes the replies.
    */
  class Bridge {
    const world: World
    var trace: seq<Argv>

    constructor (world: World)
      ensures this.world == world
      ensures trace == []
    {
      this.world := world;
      trace := [];
    }

    /** `run_command(cmd)`: issue the command and return the device's reply; never raises. */
    method Run(argv: Argv) returns (r: CommandResult)
      modifies this
      ensures trace == old(trace) + [argv]
      ensures r == world.respond(old(trace), argv)
    {
      r := world.respond(trace, argv);
      trace := trace + [argv];
    }

    /** `subprocess.check_output(cmd)`: the output, or `None` when the command exits non-zero and the call raises. */
    method CheckOutput(argv: Argv) returns (out: Option<string>)
      modifies this
      ensures trace == old(trace) + [argv]
      ensures out == Checked(world.respond(old(trace), argv))
    {
      var r := world.respond(trace, argv);
      out := if r.status == 0 then Some(r.stdout) else None;
      trace := trace + [argv];
    }
  }
}
