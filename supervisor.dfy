/**
 * The start-up and shutdown sequence of `main`, in program order: validate
 * `-i`, connect to the SDK, start the heartbeat, open both pipes, start the
 * forwarders, start the child and wait for it. Each external step's result is
 * supplied in `Env`; the outcome is the ordered list of steps attempted and
 * the reason the wrapper terminates. Every path ends in a fatal exit: there is
 * no non-fatal `Reason`.
 */
module Supervisor {
  import opened Wrappers
  import opened Strings
  import opened Args

  /** What the child is run with: the `-i` value as given and the parsed `-args`. */
  datatype Config = Config(path: string, args: seq<string>)

  /** An action `main` takes, in the order it takes them. */
  datatype Step =
    | ConnectSdk
    | StartHeartbeat
    | OpenStdoutPipe
    | OpenStderrPipe
    | StartForwarders
    | StartChild(path: string, args: seq<string>)
    | WaitChild

  /** Why the wrapper ends (each is a `log.Fatal`). */
  datatype Reason =
    | MissingInput
    | SdkUnavailable
    | StdoutPipeFailed
    | StderrPipeFailed
    | StartFailed
    | ChildExited(waitError: Option<string>)

  /** What the SDK connection, the two pipes, `cmd.Start` and `cmd.Wait` return. */
  datatype Env = Env(sdkOk: bool, stdoutPipeOk: bool, stderrPipeOk: bool, startOk: bool, waitError: Option<string>)

  datatype Termination = Termination(steps: seq<Step>, reason: Reason)

  /**
   * The command-line stage: a blank `-i` gives no configuration; otherwise the
   * child is run with the raw (untrimmed) `-i` value and the parsed `-args`.
   */
  function Configure(input: string, rawArgs: string): (r: Option<Config>)
    ensures r.None? <==> AllIn(input, AsciiSpace)
    ensures r.Some? ==> r.value.path == input && r.value.args == ParseArgs(rawArgs)
  {
    if InputMissing(input) then None else Some(Config(input, ParseArgs(rawArgs)))
  }

  /** Every step of a run that gets as far as waiting on the child. */
  function Plan(cfg: Config): seq<Step> {
    [ConnectSdk, StartHeartbeat, OpenStdoutPipe, OpenStderrPipe, StartForwarders,
     StartChild(cfg.path, cfg.args), WaitChild]
  }

  /** How many steps of the plan were attempted before terminating for `reason`; the last attempted one is the one that failed. */
  function Attempted(reason: Reason): nat {
    match reason
    case MissingInput => 0
    case SdkUnavailable => 1
    case StdoutPipeFailed => 3
    case StderrPipeFailed => 4
    case StartFailed => 6
    case ChildExited(_) => 7
  }

  /**
   * `main` after its arguments are accepted. The steps attempted are a prefix
   * of the plan, cut right after the step that failed, and the reason names
   * the first external step whose outcome in `env` is a failure; `cmd.Wait` is reached
   * exactly when every earlier step succeeded, and then the child's exit is
   * fatal whatever `Wait` returned, a clean exit included.
   */
  function Run(cfg: Config, env: Env): (t: Termination)
    ensures Attempted(t.reason) <= |Plan(cfg)|
    ensures t.steps == Plan(cfg)[..Attempted(t.reason)]
    ensures !t.reason.MissingInput?
    ensures t.reason == SdkUnavailable <==> !env.sdkOk
    ensures t.reason == StdoutPipeFailed <==> env.sdkOk && !env.stdoutPipeOk
    ensures t.reason == StderrPipeFailed <==> env.sdkOk && env.stdoutPipeOk && !env.stderrPipeOk
    ensures t.reason == StartFailed <==> env.sdkOk && env.stdoutPipeOk && env.stderrPipeOk && !env.startOk
    ensures t.reason.ChildExited? <==> env.sdkOk && env.stdoutPipeOk && env.stderrPipeOk && env.startOk
    ensures t.reason.ChildExited? ==> t.reason.waitError == env.waitError
  {
    var reason :=
      if !env.sdkOk then SdkUnavailable
      else if !env.stdoutPipeOk then StdoutPipeFailed
      else if !env.stderrPipeOk then StderrPipeFailed
      else if !env.startOk then StartFailed
      else ChildExited(env.waitError);
    Termination(Plan(cfg)[..Attempted(reason)], reason)
  }

  /**
   * `main`: a blank `-i` is fatal before any SDK connection, pipe or child is
   * attempted, and only a blank `-i` ends that way; any other input runs the
   * configured sequence.
   */
  function Main(input: string, rawArgs: string, env: Env): (t: Termination)
    ensures t.reason.MissingInput? <==> AllIn(input, AsciiSpace)
    ensures t.reason.MissingInput? ==> t.steps == []
    ensures !t.reason.MissingInput? ==> t == Run(Config(input, ParseArgs(rawArgs)), env)
  {
    match Configure(input, rawArgs)
    case None => Termination([], MissingInput)
    case Some(cfg) => Run(cfg, env)
  }

  /**
   * The wait is the last step of every run that reaches it, and it is always
   * followed by a fatal exit: no path through `main` returns normally.
   */
  lemma {:induction false} WaitIsTerminal(cfg: Config, env: Env, i: nat)
    requires i < |Run(cfg, env).steps| && Run(cfg, env).steps[i].WaitChild?
    ensures i == |Run(cfg, env).steps| - 1
    ensures Run(cfg, env).reason.ChildExited?
  {
    var plan := Plan(cfg);
    var t := Run(cfg, env);
    assert t.steps[i] == plan[i];
    assert i == 6 by {
      assert !plan[0].WaitChild? && !plan[1].WaitChild? && !plan[2].WaitChild?;
      assert !plan[3].WaitChild? && !plan[4].WaitChild? && !plan[5].WaitChild?;
    }
  }

  /**
   * A child that is started is started with the configured path and
   * arguments, after the SDK connection, the heartbeat and both pipes and
   * forwarders are in place.
   */
  lemma {:induction false} RunStartsChild(cfg: Config, env: Env, i: nat)
    requires i < |Run(cfg, env).steps| && Run(cfg, env).steps[i].StartChild?
    ensures Run(cfg, env).steps[i] == StartChild(cfg.path, cfg.args)
    ensures Run(cfg, env).steps[..i] ==
      [ConnectSdk, StartHeartbeat, OpenStdoutPipe, OpenStderrPipe, StartForwarders]
  {
    var plan := Plan(cfg);
    var t := Run(cfg, env);
    assert t.steps[i] == plan[i];
    assert i == 5 by {
      assert !plan[0].StartChild? && !plan[1].StartChild? && !plan[2].StartChild?;
      assert !plan[3].StartChild? && !plan[4].StartChild? && !plan[6].StartChild?;
    }
    assert t.steps[..i] == plan[..5];
  }
}
