/**
 * The local benchmark (class `LocalBench` in benchmark/benchmark/local.py):
 * every node runs on this machine in a tmux session of its own.
 *
 * `subprocess.run` and the file write are recorded as an ordered trace of
 * events, all on the local machine. Whether `cargo build` fails and which
 * tmux invocations fail are given as fixed answers; file names come from
 * `PathMaker`, whose definitions are not part of this model.
 */
module Local {
  import opened Wrappers
  import opened Text
  import opened Paths
  import opened Commands
  import opened Effects
  import opened Layout
  import opened Addresses

  /** `LocalBench.BASE_PORT`: node `x` listens on `9000 + x`. */
  const BasePort: int := 9000
  /** `LocalBench.cl_bport`: the first client port. */
  const ClientBasePort: int := 10000
  /** The client run port `run` hands to the configuration generator. */
  const ClientRunPort: int := 9500
  const Loopback: string := "127.0.0.1"

  /** The parts of `BenchParameters` a local run reads. */
  datatype LocalParameters = LocalParameters(
    nodes: seq<int>, rate: seq<int>,
    protocol: PyValue, bfile: PyValue, byzantine: PyValue, crash: PyValue)

  /** How many values `range(n)` yields. */
  function RangeCount(n: int): nat
  {
    if n < 0 then 0 else n
  }

  // ---------------------------------------------------------------- ip_file

  function LoopbackHosts(n: nat): seq<string>
  {
    seq(n, _ => Loopback)
  }

  /** The local `ip_file`: node `x` at `127.0.0.1:(9000 + x)`, one line each. */
  function LocalIpFile(n: nat): string
  {
    Terminated(PortLines(LoopbackHosts(n), BasePort))
  }

  /** The loop of `run` that accumulates `ip_file`. */
  method BuildIpFile(nodes: int) returns (ipFile: string)
    ensures ipFile == LocalIpFile(RangeCount(nodes))
  {
    var n := RangeCount(nodes);
    ghost var hosts := LoopbackHosts(n);
    LoopbackHostsAt(n);
    ipFile := "";
    var x := 0;
    while x < nodes
      invariant 0 <= x <= n
      invariant ipFile == Terminated(PortLines(hosts[..x], BasePort))
    {
      PortLinesStep(hosts, BasePort, x, Loopback, ipFile);
      ipFile := ipFile + AddressLine(Loopback, BasePort + x) + "\n";
      x := x + 1;
    }
    assert hosts[..x] == hosts;
  }

  /**
   * Read back line by line, the local `ip_file` has exactly `nodes` lines,
   * line `x` being `127.0.0.1:(9000 + x)`; unlike the remote one it has no
   * client line after them.
   */
  lemma LocalIpFileLines(n: nat)
    ensures var lines := SplitLines(LocalIpFile(n));
      && |lines| == n
      && forall x :: 0 <= x < n ==> lines[x] == Loopback + ":" + IntToString(BasePort + x)
  {
    var hosts := LoopbackHosts(n);
    LoopbackHostsAt(n);
    PortLinesRead(hosts, BasePort);
  }

  lemma LoopbackHostsAt(n: nat)
    ensures |LoopbackHosts(n)| == n
    ensures forall x :: 0 <= x < n ==> LoopbackHosts(n)[x] == Loopback && NoNewline(LoopbackHosts(n)[x])
  {
    assert NoNewline(Loopback);
  }

  // ------------------------------------------------------------- launches

  /** `_background_run`'s argument vector: the session is named after the log file, whose output it redirects there. */
  function TmuxArgv(command: string, logFile: string): seq<string>
  {
    ["tmux", "new", "-d", "-s", SessionName(logFile), command + " > " + logFile]
  }

  /** The event of one `_background_run`. */
  function TmuxEvent(command: string, logFile: string): Event
  {
    Event(Localhost, Exec(TmuxArgv(command, logFile)))
  }

  /** The session of a launch logging to `dir/stem.ext` is `stem`. */
  lemma TmuxSession(command: string, dir: string, stem: string, ext: string)
    requires NoSlash(stem) && HasNonDot(stem) && NoSlash(ext) && NoDot(ext)
    ensures TmuxArgv(command, PathJoin(dir, stem + "." + ext))[4] == stem
  {
    SessionNameOfLogFile(dir, stem, ext);
  }

  /** The configuration generator, logging to `err.log`, runs in the session `err`. */
  lemma GenconfigSession(command: string)
    ensures TmuxArgv(command, "err.log")[4] == "err"
  {
    assert "err"[0] != '.';
    assert NoSlash("log") && NoDot("log");
    SessionNameOfBareName("err", "log");
    assert "err" + "." + "log" == "err.log";
  }

  /** What `_background_run` raises when tmux fails: a `BenchError` that `run` does not catch. */
  const TmuxFailure: Error := BenchError("Failed to kill testbed", Some(CalledProcessError))

  /** What a background launch of `run` starts, with the arguments its command is rendered from. */
  datatype LocalProgram =
    | GenconfigRun(basePort: int, clientBasePort: int, clientRunPort: int, numNodes: int)
    | PrimaryRun(key: string, protocol: PyValue, bfile: PyValue, byzantine: PyValue, crash: PyValue, debug: bool)

  /** One background launch: what it starts and its log file. */
  datatype LocalLaunch = LocalLaunch(program: LocalProgram, logFile: string)

  /** The command line of a launch; `None` when `run_primary` fails an assertion. */
  function CommandOf(p: LocalProgram): Option<string>
  {
    match p
    case GenconfigRun(b, c, r, n) => Some(GenerateConfigFiles(PyInt(b), PyInt(c), PyInt(r), PyInt(n)))
    case PrimaryRun(key, protocol, bfile, byzantine, crash, debug) =>
      RunPrimary(PyStr(key), protocol, bfile, byzantine, crash, PyBool(debug))
  }

  /** The configuration generator for `n` nodes, logging to `err.log`. */
  function GenconfigLaunch(n: int): LocalLaunch
  {
    LocalLaunch(GenconfigRun(BasePort, ClientBasePort, ClientRunPort, n), "err.log")
  }

  /** Primary `i`, with its key file and the benchmark parameters, logging to `primary_log_file(i)`. */
  function PrimaryLaunch(pm: PathMaker, params: LocalParameters, debug: bool, i: nat): LocalLaunch
  {
    LocalLaunch(PrimaryRun(pm.keyFile(i), params.protocol, params.bfile, params.byzantine, params.crash, debug),
                pm.primaryLogFile(i))
  }

  /**
   * The launches of `run` for `n` nodes once `k` rounds of the primary loop
   * are done: the configuration generator, then primaries `0 .. k-1`.
   */
  function DeploySteps(pm: PathMaker, params: LocalParameters, debug: bool, n: int, k: nat): seq<LocalLaunch>
  {
    if k == 0 then [GenconfigLaunch(n)]
    else DeploySteps(pm, params, debug, n, k - 1) + [PrimaryLaunch(pm, params, debug, k - 1)]
  }

  /**
   * Launch order: the configuration generator first, then primary `i` as
   * launch `i + 1`, for every `i < k`.
   */
  lemma {:induction false} DeployStepsSpec(pm: PathMaker, params: LocalParameters, debug: bool, n: int, k: nat)
    ensures var steps := DeploySteps(pm, params, debug, n, k);
      && |steps| == k + 1
      && steps[0] == GenconfigLaunch(n)
      && forall i :: 0 <= i < k ==> steps[i + 1] == PrimaryLaunch(pm, params, debug, i)
  {
    if k > 0 {
      DeployStepsSpec(pm, params, debug, n, k - 1);
      var prev := DeploySteps(pm, params, debug, n, k - 1);
      var steps := DeploySteps(pm, params, debug, n, k);
      forall i | 0 <= i < k - 1
        ensures steps[i + 1] == PrimaryLaunch(pm, params, debug, i)
      {
        assert steps[i + 1] == prev[i + 1];
      }
    }
  }

  /**
   * The configuration generator gets ports 9000, 10000 and 9500 and the
   * number of nodes, and logs to `err.log`; primary `i` gets `key_file(i)`
   * and logs to `primary_log_file(i)`, and its command is rendered exactly
   * when the benchmark fields have the types `run_primary` asserts, the
   * same for every `i`.
   */
  lemma LaunchCommands(pm: PathMaker, params: LocalParameters, debug: bool, n: int, i: nat)
    ensures CommandOf(GenconfigLaunch(n).program) == Some(GenerateConfigFiles(PyInt(9000), PyInt(10000), PyInt(9500), PyInt(n)))
    ensures GenconfigLaunch(n).logFile == "err.log"
    ensures var l := PrimaryLaunch(pm, params, debug, i);
      && l.program.PrimaryRun? && l.program.key == pm.keyFile(i) && l.logFile == pm.primaryLogFile(i)
      && (CommandOf(l.program).Some? <==>
            params.protocol.PyStr? && params.bfile.PyStr? && params.byzantine.PyBool? && params.crash.PyBool?)
  {
  }

  /** One launch: the command is built first, so a failed assertion starts nothing. */
  function StartOne(tmuxFails: seq<string> -> bool, l: LocalLaunch): (seq<Event>, Option<Error>)
  {
    var command := CommandOf(l.program);
    if command.None? then ([], Some(AssertionError))
    else
      ([TmuxEvent(command.value, l.logFile)],
       if tmuxFails(TmuxArgv(command.value, l.logFile)) then Some(TmuxFailure) else None)
  }

  /**
   * `e` is launch `l` under way: its command was built and runs in a
   * detached tmux session whose output goes to the launch's log file.
   */
  predicate Launches(e: Event, l: LocalLaunch)
  {
    CommandOf(l.program).Some? && e == TmuxEvent(CommandOf(l.program).value, l.logFile)
  }

  /** The launches `steps`, in order, up to the first failure. */
  function Started(tmuxFails: seq<string> -> bool, steps: seq<LocalLaunch>): (seq<Event>, Option<Error>)
  {
    if steps == [] then ([], None)
    else
      var prev := Started(tmuxFails, steps[..|steps| - 1]);
      if prev.1.Some? then prev
      else
        var last := StartOne(tmuxFails, steps[|steps| - 1]);
        (prev.0 + last.0, last.1)
  }

  /** One more launch after successful ones. */
  lemma StartedNext(tmuxFails: seq<string> -> bool, steps: seq<LocalLaunch>, i: nat)
    requires i < |steps| && Started(tmuxFails, steps[..i]).1.None?
    ensures Started(tmuxFails, steps[..i + 1])
         == (Started(tmuxFails, steps[..i]).0 + StartOne(tmuxFails, steps[i]).0, StartOne(tmuxFails, steps[i]).1)
  {
    assert steps[..i + 1][..i] == steps[..i];
  }

  /** The first launch alone. */
  lemma StartedFirst(tmuxFails: seq<string> -> bool, steps: seq<LocalLaunch>)
    requires steps != []
    ensures Started(tmuxFails, steps[..1]) == StartOne(tmuxFails, steps[0])
  {
    assert steps[..1][..0] == [];
    assert [] + StartOne(tmuxFails, steps[0]).0 == StartOne(tmuxFails, steps[0]).0;
  }

  /** Once a launch fails, none after it is started. */
  lemma {:induction false} StartedStops(tmuxFails: seq<string> -> bool, steps: seq<LocalLaunch>, k: nat)
    requires k <= |steps| && Started(tmuxFails, steps[..k]).1.Some?
    ensures Started(tmuxFails, steps) == Started(tmuxFails, steps[..k])
    decreases |steps|
  {
    if k < |steps| {
      var init := steps[..|steps| - 1];
      assert init[..k] == steps[..k];
      StartedStops(tmuxFails, init, k);
    } else {
      assert steps[..k] == steps;
    }
  }

  /**
   * Without a failure every step is started, in order: event `j` is step
   * `j` run as one tmux session logging to its log file.
   */
  lemma {:induction false} StartedSpec(tmuxFails: seq<string> -> bool, steps: seq<LocalLaunch>)
    ensures var (events, err) := Started(tmuxFails, steps);
      err.None? ==> |events| == |steps| && forall j :: 0 <= j < |steps| ==>
        Launches(events[j], steps[j])
    decreases |steps|
  {
    if steps != [] {
      var init := steps[..|steps| - 1];
      var last := steps[|steps| - 1];
      StartedSpec(tmuxFails, init);
      var (events, err) := Started(tmuxFails, steps);
      if err.None? {
        StartedLast(tmuxFails, steps);
        StartOneOk(tmuxFails, last);
        var prev := Started(tmuxFails, init).0;
        var one := StartOne(tmuxFails, last).0;
        Singleton(one);
        Snoc(steps);
        LaunchesSnoc(prev, init, one[0], last);
      }
    }
  }

  /** Matching launches stay matched when one more launch is started. */
  lemma LaunchesSnoc(events: seq<Event>, steps: seq<LocalLaunch>, e: Event, l: LocalLaunch)
    requires |events| == |steps| && forall j :: 0 <= j < |steps| ==> Launches(events[j], steps[j])
    requires Launches(e, l)
    ensures forall j :: 0 <= j < |steps| + 1 ==> Launches((events + [e])[j], (steps + [l])[j])
  {
    forall j | 0 <= j < |steps| + 1
      ensures Launches((events + [e])[j], (steps + [l])[j])
    {
      if j < |steps| {
        assert (events + [e])[j] == events[j] && (steps + [l])[j] == steps[j];
      }
    }
  }

  /** The last launch of a run of launches that all succeeded. */
  lemma StartedLast(tmuxFails: seq<string> -> bool, steps: seq<LocalLaunch>)
    requires steps != [] && Started(tmuxFails, steps).1.None?
    ensures var init := steps[..|steps| - 1];
      && Started(tmuxFails, init).1.None?
      && StartOne(tmuxFails, steps[|steps| - 1]).1.None?
      && Started(tmuxFails, steps).0 == Started(tmuxFails, init).0 + StartOne(tmuxFails, steps[|steps| - 1]).0
  {
  }

  /** A launch that succeeds built its command and started exactly one session. */
  lemma StartOneOk(tmuxFails: seq<string> -> bool, l: LocalLaunch)
    requires StartOne(tmuxFails, l).1.None?
    ensures |StartOne(tmuxFails, l).0| == 1 && Launches(StartOne(tmuxFails, l).0[0], l)
  {
  }

  /** A launch fails only on a failed assertion or a failed tmux invocation. */
  lemma {:induction false} StartedErrors(tmuxFails: seq<string> -> bool, steps: seq<LocalLaunch>)
    ensures var err := Started(tmuxFails, steps).1;
      err.Some? ==> err.value == AssertionError || err.value == TmuxFailure
    decreases |steps|
  {
    if steps != [] {
      StartedErrors(tmuxFails, steps[..|steps| - 1]);
    }
  }

  /** A launch is never the kill command. */
  lemma {:induction false} StartedNoKill(tmuxFails: seq<string> -> bool, steps: seq<LocalLaunch>)
    ensures KillEvent !in Started(tmuxFails, steps).0
    decreases |steps|
  {
    if steps != [] {
      StartedNoKill(tmuxFails, steps[..|steps| - 1]);
      var l := steps[|steps| - 1];
      if CommandOf(l.program).Some? {
        assert |TmuxArgv(CommandOf(l.program).value, l.logFile)| == 6;
      }
    }
  }

  // ------------------------------------------------------------------ run

  const KillEvent: Event := Event(Localhost, Exec(["tmux", "kill-server"]))
  const CompileEvent: Event := Event(Localhost, Exec(["cargo", "build", "--quiet", "--release"]))

  /** `CommandMaker.kill().split()` is the argument vector run to kill the nodes. */
  lemma KillArgv()
    ensures Split(Kill) == KillEvent.action.argv
  {
    var argv := KillEvent.action.argv;
    assert AllWords(argv);
    assert Line(argv) == Kill by {
      assert argv[1..] == ["kill-server"];
    }
    LineWords(argv);
  }

  /** `CommandMaker.compile().split()` is the argument vector of the compilation. */
  lemma CompileArgv()
    ensures Split(Compile) == CompileEvent.action.argv
  {
    var argv := CompileEvent.action.argv;
    CompileWords(argv);
    CompileLine(argv);
    LineWords(argv);
  }

  lemma CompileWords(argv: seq<string>)
    requires argv == ["cargo", "build", "--quiet", "--release"]
    ensures AllWords(argv)
  {
    assert Word(argv[0]) && Word(argv[1]) && Word(argv[2]) && Word(argv[3]);
  }

  lemma CompileLine(argv: seq<string>)
    requires argv == ["cargo", "build", "--quiet", "--release"]
    ensures Line(argv) == Compile
  {
    var w2 := Join(" ", ["--quiet", "--release"]);
    assert ["--quiet", "--release"][1..] == ["--release"];
    assert w2 == "--quiet --release";
    var w1 := Join(" ", ["build", "--quiet", "--release"]);
    assert ["build", "--quiet", "--release"][1..] == ["--quiet", "--release"];
    assert w1 == "build " + w2;
    assert argv[1..] == ["build", "--quiet", "--release"];
  }

  function CleanupEvent(pm: PathMaker): Event
  {
    Event(Localhost, Shell(CleanLogs(pm.logsPath) + " ; " + Cleanup(pm.resultsPath)))
  }

  function AliasEvent(pm: PathMaker): Event
  {
    Event(Localhost, Shell(AliasBinaries(PyStr(pm.binaryPath)).value))
  }

  function IpFileEvent(n: nat): Event
  {
    Event(Localhost, Write("ip_file", LocalIpFile(n)))
  }

  /** The `BenchError` `run` raises after a failed compilation, once the nodes are killed again. */
  const RunFailure: Error := BenchError("Failed to run benchmark", Some(CalledProcessError))

  /**
   * The part of `run` after a successful compilation: alias the binaries,
   * write `ip_file`, then launch the configuration generator and the
   * primaries up to the first failure.
   */
  function Deployed(pm: PathMaker, params: LocalParameters, debug: bool, tmuxFails: seq<string> -> bool, n: int)
    : (seq<Event>, Option<Error>)
  {
    var launched := Started(tmuxFails, DeploySteps(pm, params, debug, n, RangeCount(n)));
    ([AliasEvent(pm), IpFileEvent(RangeCount(n))] + launched.0, launched.1)
  }

  /**
   * The `try` block of `run`: the events and the exception. Only
   * `nodes[0]` and `rate[0]` are read, and an empty list raises
   * `IndexError`, which the handler does not catch; a failed compilation is
   * caught, the nodes are killed, and "Failed to run benchmark" is raised.
   */
  function Testbed(pm: PathMaker, params: LocalParameters, compileFails: bool, tmuxFails: seq<string> -> bool, debug: bool)
    : (seq<Event>, Option<Error>)
  {
    if params.nodes == [] || params.rate == [] then ([], Some(IndexError))
    else if compileFails then ([CleanupEvent(pm), CompileEvent, KillEvent], Some(RunFailure))
    else
      var rest := Deployed(pm, params, debug, tmuxFails, params.nodes[0]);
      ([CleanupEvent(pm), CompileEvent] + rest.0, rest.1)
  }

  /** `LocalBench.run`: a boolean `debug` is asserted, the nodes are killed, then the `try` block runs. */
  function LocalRun(pm: PathMaker, params: LocalParameters, compileFails: bool, tmuxFails: seq<string> -> bool, debug: PyValue)
    : (seq<Event>, Option<Error>)
  {
    if !debug.PyBool? then ([], Some(AssertionError))
    else
      var r := Testbed(pm, params, compileFails, tmuxFails, debug.b);
      ([KillEvent] + r.0, r.1)
  }

  /**
   * Inside the `try` block the nodes are killed only by the handler of a
   * failed compilation, which is the one failure re-raised as "Failed to
   * run benchmark"; any other failure is an empty parameter list, a failed
   * assertion or a failed tmux launch.
   */
  lemma TestbedKills(pm: PathMaker, params: LocalParameters, compileFails: bool, tmuxFails: seq<string> -> bool, debug: bool)
    ensures var (events, err) := Testbed(pm, params, compileFails, tmuxFails, debug);
      && (err == Some(RunFailure) <==> params.nodes != [] && params.rate != [] && compileFails)
      && (err == Some(RunFailure) ==> events == [CleanupEvent(pm), CompileEvent, KillEvent])
      && (err != Some(RunFailure) ==> KillEvent !in events)
      && (err.Some? ==> err.value in {IndexError, RunFailure, AssertionError, TmuxFailure})
  {
    if params.nodes != [] && params.rate != [] && !compileFails {
      var n := params.nodes[0];
      var steps := DeploySteps(pm, params, debug, n, RangeCount(n));
      StartedNoKill(tmuxFails, steps);
      StartedErrors(tmuxFails, steps);
      assert KillEvent != CompileEvent;
      NotInParts(KillEvent, [CleanupEvent(pm), CompileEvent], [AliasEvent(pm), IpFileEvent(RangeCount(n))], Started(tmuxFails, steps).0);
    }
  }

  /**
   * The nodes are killed before anything else, and killed a second time
   * exactly when the compilation fails; every failure is a failed
   * assertion, an empty parameter list, that failed compilation or a
   * failed tmux launch.
   */
  lemma LocalRunKills(pm: PathMaker, params: LocalParameters, compileFails: bool, tmuxFails: seq<string> -> bool, debug: PyValue)
    ensures var (events, err) := LocalRun(pm, params, compileFails, tmuxFails, debug);
      && (debug.PyBool? ==> events != [] && events[0] == KillEvent)
      && (err == Some(RunFailure) <==> debug.PyBool? && params.nodes != [] && params.rate != [] && compileFails)
      && (err == Some(RunFailure) ==> events == [KillEvent, CleanupEvent(pm), CompileEvent, KillEvent])
      && (err != Some(RunFailure) ==> events == [] || KillEvent !in events[1..])
      && (err.Some? ==> err.value in {AssertionError, IndexError, RunFailure, TmuxFailure})
  {
    if debug.PyBool? {
      var r := Testbed(pm, params, compileFails, tmuxFails, debug.b);
      TestbedKills(pm, params, compileFails, tmuxFails, debug.b);
      assert ([KillEvent] + r.0)[1..] == r.0;
    }
  }

  /**
   * A run that raises nothing had a boolean `debug`, non-empty `nodes` and
   * `rate` lists and a successful compilation; it killed the old testbed,
   * cleaned up, compiled, aliased the binaries, wrote the `ip_file` of
   * `nodes[0]` nodes, and launched every step of the deployment in order.
   */
  lemma LocalRunSuccess(pm: PathMaker, params: LocalParameters, compileFails: bool, tmuxFails: seq<string> -> bool, debug: PyValue)
    requires LocalRun(pm, params, compileFails, tmuxFails, debug).1.None?
    ensures debug.PyBool? && params.nodes != [] && params.rate != [] && !compileFails
    ensures var events := LocalRun(pm, params, compileFails, tmuxFails, debug).0;
      var steps := DeploySteps(pm, params, debug.b, params.nodes[0], RangeCount(params.nodes[0]));
      && |events| == 5 + |steps|
      && events[..5] == [KillEvent, CleanupEvent(pm), CompileEvent, AliasEvent(pm), IpFileEvent(RangeCount(params.nodes[0]))]
      && forall j :: 0 <= j < |steps| ==>
           Launches(events[5 + j], steps[j])
  {
    var steps := DeploySteps(pm, params, debug.b, params.nodes[0], RangeCount(params.nodes[0]));
    StartedSpec(tmuxFails, steps);
    var launched := Started(tmuxFails, steps).0;
    var events := LocalRun(pm, params, compileFails, tmuxFails, debug).0;
    Flatten(KillEvent, CleanupEvent(pm), CompileEvent, AliasEvent(pm), IpFileEvent(RangeCount(params.nodes[0])), launched);
  }

  /** `run` reads the parameter lists only through their first elements. */
  lemma LocalRunFirstElements(pm: PathMaker, params: LocalParameters, compileFails: bool, tmuxFails: seq<string> -> bool, debug: PyValue)
    requires params.nodes != [] && params.rate != []
    ensures LocalRun(pm, params, compileFails, tmuxFails, debug)
         == LocalRun(pm, params.(nodes := params.nodes[..1], rate := params.rate[..1]), compileFails, tmuxFails, debug)
  {
    var short := params.(nodes := params.nodes[..1], rate := params.rate[..1]);
    var n := params.nodes[0];
    assert short.nodes[0] == n;
    forall debug: bool
      ensures DeploySteps(pm, params, debug, n, RangeCount(n)) == DeploySteps(pm, short, debug, n, RangeCount(n))
    {
      DeployStepsIgnoresLists(pm, params, short, debug, n, RangeCount(n));
    }
  }

  lemma {:induction false} DeployStepsIgnoresLists(pm: PathMaker, a: LocalParameters, b: LocalParameters, debug: bool, n: int, k: nat)
    requires a.protocol == b.protocol && a.bfile == b.bfile && a.byzantine == b.byzantine && a.crash == b.crash
    ensures DeploySteps(pm, a, debug, n, k) == DeploySteps(pm, b, debug, n, k)
  {
    if k > 0 {
      DeployStepsIgnoresLists(pm, a, b, debug, n, k - 1);
    }
  }

  /** The phases of a successful run, read as one trace. */
  lemma Flatten<T>(a: T, b: T, c: T, d: T, e: T, rest: seq<T>)
    ensures var s := [a] + ([b, c] + ([d, e] + rest));
      && |s| == 5 + |rest|
      && s[..5] == [a, b, c, d, e]
      && forall j :: 0 <= j < |rest| ==> s[5 + j] == rest[j]
  {
  }

  lemma NotInParts<T>(x: T, a: seq<T>, b: seq<T>, c: seq<T>)
    requires x !in a && x !in b && x !in c
    ensures x !in a + (b + c)
  {
  }

  /** Regrouping the phases of a trace. */
  lemma Regroup<T>(a: seq<T>, b: seq<T>, c: seq<T>)
    ensures a + b + c == a + (b + c)
  {
  }

  class LocalBench {
    const paths: PathMaker
    const params: LocalParameters
    /** Whether `cargo build` exits with an error. */
    const compileFails: bool
    /** Whether a tmux invocation exits with an error. */
    const tmuxFails: seq<string> -> bool

    var trace: seq<Event>

    constructor(paths: PathMaker, params: LocalParameters, compileFails: bool, tmuxFails: seq<string> -> bool)
      ensures this.paths == paths && this.params == params
      ensures this.compileFails == compileFails && this.tmuxFails == tmuxFails
      ensures trace == []
    {
      this.paths := paths;
      this.params := params;
      this.compileFails := compileFails;
      this.tmuxFails := tmuxFails;
      trace := [];
    }

    /** `_background_run`: one tmux session, named after the log file. */
    method BackgroundRun(command: string, logFile: string) returns (err: Option<Error>)
      modifies this`trace
      ensures trace == old(trace) + [TmuxEvent(command, logFile)]
      ensures err == if tmuxFails(TmuxArgv(command, logFile)) then Some(TmuxFailure) else None
    {
      var name := SessionName(logFile);
      var cmd := command + " > " + logFile;
      var argv := ["tmux", "new", "-d", "-s", name, cmd];
      trace := trace + [Event(Localhost, Exec(argv))];
      if tmuxFails(argv) {
        return Some(TmuxFailure);
      }
      return None;
    }

    /** `_kill_nodes`: the exit status is not checked, so it never fails. */
    method KillNodes()
      modifies this`trace
      ensures trace == old(trace) + [KillEvent]
    {
      trace := trace + [KillEvent];
    }

    /** One launch of `run`: its command is built first, so a failed assertion starts nothing. */
    method Start(l: LocalLaunch) returns (err: Option<Error>)
      modifies this`trace
      ensures trace == old(trace) + StartOne(tmuxFails, l).0
      ensures err == StartOne(tmuxFails, l).1
    {
      var cmd := CommandOf(l.program);
      if cmd.None? {
        return Some(AssertionError);
      }
      err := BackgroundRun(cmd.value, l.logFile);
    }

    /** The steps of `run` after a successful compilation. */
    method Deploy(nodes: int, debug: bool) returns (err: Option<Error>)
      modifies this`trace
      ensures trace == old(trace) + Deployed(paths, params, debug, tmuxFails, nodes).0
      ensures err == Deployed(paths, params, debug, tmuxFails, nodes).1
    {
      ghost var files := [AliasEvent(paths), IpFileEvent(RangeCount(nodes))];
      trace := trace + [AliasEvent(paths)];
      var ipFile := BuildIpFile(nodes);
      trace := trace + [Event(Localhost, Write("ip_file", ipFile))];
      assert trace == old(trace) + files;
      ghost var t0 := trace;
      err := LaunchAll(nodes, debug);
      Regroup(old(trace), files, Started(tmuxFails, DeploySteps(paths, params, debug, nodes, RangeCount(nodes))).0);
    }

    /** The configuration generator, then the primary loop, up to the first failed launch. */
    method LaunchAll(nodes: int, debug: bool) returns (err: Option<Error>)
      modifies this`trace
      ensures trace == old(trace) + Started(tmuxFails, DeploySteps(paths, params, debug, nodes, RangeCount(nodes))).0
      ensures err == Started(tmuxFails, DeploySteps(paths, params, debug, nodes, RangeCount(nodes))).1
    {
      ghost var steps := DeploySteps(paths, params, debug, nodes, RangeCount(nodes));
      DeployStepsSpec(paths, params, debug, nodes, RangeCount(nodes));
      StartedFirst(tmuxFails, steps);
      err := Start(GenconfigLaunch(nodes));
      var i := 0;
      while i < nodes && err.None?
        invariant 0 <= i <= RangeCount(nodes)
        invariant trace == old(trace) + Started(tmuxFails, steps[..i + 1]).0
        invariant err == Started(tmuxFails, steps[..i + 1]).1
      {
        ghost var before := Started(tmuxFails, steps[..i + 1]).0;
        StartedNext(tmuxFails, steps, i + 1);
        err := Start(PrimaryLaunch(paths, params, debug, i));
        Regroup(old(trace), before, StartOne(tmuxFails, steps[i + 1]).0);
        i := i + 1;
      }
      if err.Some? {
        StartedStops(tmuxFails, steps, i + 1);
      } else {
        assert i + 1 == |steps|;
        assert steps[..i + 1] == steps;
      }
    }

    /** `run`. */
    method Run(debug: PyValue) returns (err: Option<Error>)
      modifies this`trace
      ensures trace == old(trace) + LocalRun(paths, params, compileFails, tmuxFails, debug).0
      ensures err == LocalRun(paths, params, compileFails, tmuxFails, debug).1
    {
      if !debug.PyBool? {
        return Some(AssertionError);
      }
      KillNodes();
      err := SetUpTestbed(debug.b);
      Regroup(old(trace), [KillEvent], Testbed(paths, params, compileFails, tmuxFails, debug.b).0);
    }

    /** The `try` block of `run`. */
    method SetUpTestbed(debug: bool) returns (err: Option<Error>)
      modifies this`trace
      ensures trace == old(trace) + Testbed(paths, params, compileFails, tmuxFails, debug).0
      ensures err == Testbed(paths, params, compileFails, tmuxFails, debug).1
    {
      if params.nodes == [] || params.rate == [] {
        return Some(IndexError);
      }
      var nodes, rate := params.nodes[0], params.rate[0];
      trace := trace + [CleanupEvent(paths)];
      trace := trace + [CompileEvent];
      if compileFails {
        KillNodes();
        return Some(RunFailure);
      }
      ghost var setup := [CleanupEvent(paths), CompileEvent];
      assert trace == old(trace) + setup;
      err := Deploy(nodes, debug);
      Regroup(old(trace), setup, Deployed(paths, params, debug, tmuxFails, nodes).0);
    }
  }
}
