/**
 * The command executor: the one-operation capability the connection handler
 * drives (`CommandExecutor.Run`), its production implementation that runs the
 * external `openclaw` agent, and an injected implementation for tests.
 *
 * Spawning the process is outside the model: the operating system is a
 * function `ProcessRunner` from the command to what the process left in its
 * two output buffers and the error `cmd.Run()` returned.
 */
module Executor {
  import opened Wrappers
  import opened GoErrors

  /** The program the production executor runs. */
  const Program := "openclaw"

  /** The fixed prefix of every error the production executor returns. */
  const RunErrorPrefix := "run openclaw agent command: "

  /** The deadline the handler derives for every executor call, in minutes. */
  const CommandTimeoutMinutes := 5

  /** The cancellation context handed to the executor: here only its deadline. */
  datatype Context = Context(timeoutMinutes: nat)

  /**
   * An `exec.Cmd` as built: the program looked up, the full argument vector
   * (program name first) and the context that cancels it.
   */
  datatype Command = Command(path: string, args: seq<string>, ctx: Context)

  /** What a finished process left behind: its stdout and stderr buffers and `cmd.Run()`'s error. */
  datatype ProcessOutcome = ProcessOutcome(stdout: string, stderr: string, err: Option<Error>)

  type ProcessRunner = Command -> ProcessOutcome

  /** The `(string, error)` pair `CommandExecutor.Run` returns. */
  datatype RunResult = RunResult(output: string, err: Option<Error>)

  /**
   * The implementations of `CommandExecutor`: the production `OpenClawExecutor`
   * (an empty struct) or any function of (context, device id, message) that a
   * caller injects, as the tests inject a scripted fake.
   */
  datatype CommandExecutor =
    | OpenClawExecutor
    | Injected(run: (Context, string, string) -> RunResult)

  /**
   * `buildOpenClawCommand`: `openclaw agent --session-id <deviceID> --message <message> --json`,
   * with the device id and the message each passed as one argument, unchanged.
   */
  function BuildOpenClawCommand(ctx: Context, deviceID: string, message: string): (cmd: Command)
    ensures cmd.path == Program && cmd.ctx == ctx
    ensures |cmd.args| == 7
    ensures cmd.args[0] == Program && cmd.args[1] == "agent" && cmd.args[2] == "--session-id"
    ensures cmd.args[3] == deviceID
    ensures cmd.args[4] == "--message"
    ensures cmd.args[5] == message
    ensures cmd.args[6] == "--json"
  {
    Command(Program, [Program, "agent", "--session-id", deviceID, "--message", message, "--json"], ctx)
  }

  /** Reads the device id and the message back out of an agent argument vector. */
  function AgentArguments(args: seq<string>): Option<(string, string)> {
    if |args| == 7 && args[0] == Program && args[1] == "agent" && args[2] == "--session-id"
       && args[4] == "--message" && args[6] == "--json"
    then Some((args[3], args[5]))
    else None
  }

  /** The argument vector carries the device id and the message intact, whatever they contain. */
  lemma BuildOpenClawCommandRoundTrip(ctx: Context, deviceID: string, message: string)
    ensures AgentArguments(BuildOpenClawCommand(ctx, deviceID, message).args) == Some((deviceID, message))
  {
  }

  /** Every agent argument vector is the one built from the device id and message it carries. */
  lemma {:induction false} AgentArgumentsComplete(ctx: Context, args: seq<string>)
    requires AgentArguments(args).Some?
    ensures BuildOpenClawCommand(ctx, AgentArguments(args).value.0, AgentArguments(args).value.1).args == args
  {
    var built := BuildOpenClawCommand(ctx, args[3], args[5]).args;
    assert |built| == |args|;
    forall k | 0 <= k < |args| ensures built[k] == args[k] {
    }
  }

  /**
   * The result shaping at the end of `OpenClawExecutor.Run`: the output is the
   * captured stdout whether or not the process failed, and a failure is
   * reported as the process error wrapped behind the fixed prefix.
   */
  function ShapeRunResult(p: ProcessOutcome): (r: RunResult)
    ensures r.output == p.stdout
    ensures r.err.Some? <==> p.err.Some?
    ensures r.err.Some? ==> Unwrap(r.err.value) == p.err
    ensures r.err.Some? ==> Message(r.err.value) == RunErrorPrefix + Message(p.err.value)
  {
    match p.err
    case None => RunResult(p.stdout, None)
    case Some(e) => RunResult(p.stdout, Some(Wrapped(RunErrorPrefix, e)))
  }

  /** Standard error never reaches the caller: two runs that differ only in it give the same result. */
  lemma StderrNeverReturned(p: ProcessOutcome, stderr: string)
    ensures ShapeRunResult(p.(stderr := stderr)) == ShapeRunResult(p)
  {
  }

  /** `OpenClawExecutor.Run`: build the command, let the system run it, shape the result. */
  function OpenClawRun(os: ProcessRunner, ctx: Context, deviceID: string, message: string): (r: RunResult)
    ensures var p := os(BuildOpenClawCommand(ctx, deviceID, message));
            r.output == p.stdout
            && (r.err.Some? <==> p.err.Some?)
            && (r.err.Some? ==> Unwrap(r.err.value) == p.err && Message(r.err.value) == RunErrorPrefix + Message(p.err.value))
  {
    ShapeRunResult(os(BuildOpenClawCommand(ctx, deviceID, message)))
  }

  /** A call through the `CommandExecutor` interface. */
  function RunExecutor(e: CommandExecutor, os: ProcessRunner, ctx: Context, deviceID: string, message: string): (r: RunResult)
    ensures e.Injected? ==> r == e.run(ctx, deviceID, message)
    ensures e.OpenClawExecutor? ==>
              var p := os(BuildOpenClawCommand(ctx, deviceID, message));
              r.output == p.stdout && (r.err.Some? <==> p.err.Some?)
  {
    match e
    case OpenClawExecutor => OpenClawRun(os, ctx, deviceID, message)
    case Injected(run) => run(ctx, deviceID, message)
  }
}
