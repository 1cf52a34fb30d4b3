/** The mongosync process supervisor (pkg/mongosync/manager.go). The
    operating system's answers (whether the spawn worked, how the process
    exited, whether the kill was delivered) are inputs; `events` logs what
    the manager asked of the operating system, in order. */
module Supervisor {
  import opened Wrappers

  /** Seconds `Start` waits after a successful spawn so that the control
      plane can bind its listener. */
  const SettleSeconds := 5

  /** The prepared command (`exec.Cmd`): its argument vector, and whether
      spawning it produced a process. */
  datatype Command = Command(argv: seq<string>, hasProcess: bool)

  datatype Event = Spawn(argv: seq<string>) | Settle(seconds: nat) | Kill

  datatype ManagerError =
    | LaunchFailed(cause: string)
    | NotStarted
    | ProcessFailed(cause: string)
    | KillFailed(cause: string)

  /** The error waiting reports on a command that never produced a process. */
  const NotStartedCause := "exec: not started"

  /** The command line `Start` runs: the binary, the disclaimer flag and the
      two cluster endpoints. */
  function LaunchArgs(binaryPath: string, sourceURI: string, targetURI: string): (argv: seq<string>)
    ensures |argv| == 6 && argv[0] == binaryPath && argv[1] == "--acceptDisclaimer"
    ensures argv[2] == "--cluster0" && argv[3] == sourceURI
    ensures argv[4] == "--cluster1" && argv[5] == targetURI
  {
    [binaryPath, "--acceptDisclaimer", "--cluster0", sourceURI, "--cluster1", targetURI]
  }

  /** The value that follows the first occurrence of `flag` among the
      arguments after the program name, if any. */
  function FlagValue(argv: seq<string>, flag: string): Option<string>
  {
    if |argv| < 3 then None
    else if argv[1] == flag then Some(argv[2])
    else FlagValue(argv[1..], flag)
  }

  /** The endpoints travel unchanged to the engine: each flag is followed
      by the URI the manager holds for it, unless the source URI is itself
      spelled "--cluster1". */
  lemma LaunchArgsCarryEndpoints(binaryPath: string, sourceURI: string, targetURI: string)
    ensures FlagValue(LaunchArgs(binaryPath, sourceURI, targetURI), "--cluster0") == Some(sourceURI)
    ensures sourceURI != "--cluster1" ==>
      FlagValue(LaunchArgs(binaryPath, sourceURI, targetURI), "--cluster1") == Some(targetURI)
  {
    var argv := LaunchArgs(binaryPath, sourceURI, targetURI);
    assert argv[1..] == ["--acceptDisclaimer", "--cluster0", sourceURI, "--cluster1", targetURI];
    assert argv[1..][1..] == ["--cluster0", sourceURI, "--cluster1", targetURI];
    assert argv[1..][1..][1..] == [sourceURI, "--cluster1", targetURI];
    assert "--cluster0" != "--cluster1" by {
      assert "--cluster0"[9] != "--cluster1"[9];
    }
    if sourceURI != "--cluster1" {
      assert FlagValue(argv[1..][1..][1..], "--cluster1") == Some(targetURI);
      assert FlagValue(argv[1..][1..], "--cluster1") == Some(targetURI);
      assert FlagValue(argv[1..], "--cluster1") == Some(targetURI);
    }
  }

  class Manager {
    const binaryPath: string
    const sourceURI: string
    const targetURI: string
    /** `nil` until `Start` runs. */
    var cmd: Option<Command>
    ghost var events: seq<Event>

    constructor (binaryPath: string, sourceURI: string, targetURI: string)
      ensures this.binaryPath == binaryPath && this.sourceURI == sourceURI && this.targetURI == targetURI
      ensures cmd == None && events == []
    {
      this.binaryPath := binaryPath;
      this.sourceURI := sourceURI;
      this.targetURI := targetURI;
      cmd := None;
      events := [];
    }

    /** `Start`: `cmd` is assigned before the spawn is tried, so it is set
        even when the spawn fails; the settle wait follows only a
        successful spawn. */
    method Start(spawn: RunResult) returns (r: Outcome<ManagerError>)
      modifies this
      ensures cmd == Some(Command(LaunchArgs(binaryPath, sourceURI, targetURI), spawn.Succeeded?))
      ensures spawn.Succeeded? ==>
        r == Pass && events == old(events) + [Spawn(LaunchArgs(binaryPath, sourceURI, targetURI)), Settle(SettleSeconds)]
      ensures spawn.Failed? ==>
        r == Fail(LaunchFailed(spawn.cause)) && events == old(events) + [Spawn(LaunchArgs(binaryPath, sourceURI, targetURI))]
    {
      var argv := LaunchArgs(binaryPath, sourceURI, targetURI);
      cmd := Some(Command(argv, false));
      events := events + [Spawn(argv)];
      if spawn.Failed? {
        return Fail(LaunchFailed(spawn.cause));
      }
      cmd := Some(cmd.value.(hasProcess := true));
      events := events + [Settle(SettleSeconds)];
      r := Pass;
    }

    /** `Wait`: `exit` is what waiting on the process reported. A command
        whose spawn failed has no process, and waiting on it always fails. */
    method Wait(exit: RunResult) returns (r: Outcome<ManagerError>)
      ensures cmd.None? ==> r == Fail(NotStarted)
      ensures cmd.Some? ==> (r.Pass? <==> cmd.value.hasProcess && exit.Succeeded?)
      ensures cmd.Some? && !cmd.value.hasProcess ==> r == Fail(ProcessFailed(NotStartedCause))
      ensures cmd.Some? && cmd.value.hasProcess && exit.Failed? ==> r == Fail(ProcessFailed(exit.cause))
    {
      if cmd.None? {
        return Fail(NotStarted);
      }
      if !cmd.value.hasProcess {
        return Fail(ProcessFailed(NotStartedCause));
      }
      if exit.Failed? {
        return Fail(ProcessFailed(exit.cause));
      }
      r := Pass;
    }

    /** `Stop`: kills the process when there is one; with no command or no
        process it does nothing and succeeds. `kill` is what the kill
        reported. */
    method Stop(kill: RunResult) returns (r: Outcome<ManagerError>)
      modifies this`events
      ensures (cmd.None? || !cmd.value.hasProcess) ==> r == Pass && events == old(events)
      ensures cmd.Some? && cmd.value.hasProcess ==>
        events == old(events) + [Kill]
        && r == (if kill.Succeeded? then Pass else Fail(KillFailed(kill.cause)))
    {
      if cmd.None? || !cmd.value.hasProcess {
        return Pass;
      }
      events := events + [Kill];
      if kill.Failed? {
        return Fail(KillFailed(kill.cause));
      }
      r := Pass;
    }
  }

  /** Stopping a manager that was never started and then starting it
      successfully: the stop sends no kill, the start launches the fixed
      command line and waits once. */
  method StopBeforeStartScenario(kill: RunResult)
    returns (r: Outcome<ManagerError>, s: Outcome<ManagerError>, ghost events: seq<Event>)
    ensures r == Pass && s == Pass
    ensures events == [Spawn(["./mongosync", "--acceptDisclaimer", "--cluster0", "mongodb://src",
                              "--cluster1", "mongodb://dst"]), Settle(5)]
  {
    var m := new Manager("./mongosync", "mongodb://src", "mongodb://dst");
    r := m.Stop(kill);
    s := m.Start(Succeeded);
    events := m.events;
  }

  /** A manager whose spawn failed: the start reports the launch error, the
      wait fails whatever the operating system would report, and the stop
      sends no kill. */
  method FailedStartScenario(spawnCause: string, exit: RunResult, kill: RunResult)
    returns (s: Outcome<ManagerError>, w: Outcome<ManagerError>, k: Outcome<ManagerError>, ghost events: seq<Event>)
    ensures s == Fail(LaunchFailed(spawnCause))
    ensures w == Fail(ProcessFailed(NotStartedCause))
    ensures k == Pass
    ensures events == [Spawn(["./mongosync", "--acceptDisclaimer", "--cluster0", "mongodb://src",
                              "--cluster1", "mongodb://dst"])]
  {
    var m := new Manager("./mongosync", "mongodb://src", "mongodb://dst");
    s := m.Start(Failed(spawnCause));
    w := m.Wait(exit);
    k := m.Stop(kill);
    events := m.events;
  }
}
