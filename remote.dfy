/**
 * The remote benchmark driver (class `Bench` in benchmark/benchmark/remote.py):
 * what `_config` writes and uploads, where and in which order it boots the
 * nodes, how a background launch is named and checked, and how `pull_logs`
 * reads the latency report back.
 *
 * SSH, `subprocess` and file writes are recorded as an ordered trace of
 * events. What the outside world answers is given as fixed functions: the
 * stderr and stdout a host returns for a command, and whether the local
 * compilation fails. File names come from `PathMaker`, whose definitions
 * are not part of this model, so they are parameters.
 */
module Remote {
  import opened Wrappers
  import opened Text
  import opened Paths
  import opened Commands
  import opened HostSelection
  import opened Effects
  import opened LogFormats
  import opened Grouping
  import opened Layout
  import opened Addresses

  /** The ports of the testbed settings. */
  datatype Settings = Settings(basePort: int, clientBasePort: int, clientRunPort: int)

  /** The benchmark parameters after parsing (`BenchParameters`). */
  datatype BenchParameters = BenchParameters(
    nodes: seq<nat>, workers: nat, collocate: bool, faults: int,
    protocol: PyValue, bfile: PyValue, byzantine: PyValue, crash: PyValue)

  /** `max(nodes)`: `None` is the `ValueError` of an empty list. */
  function MaxNodes(nodes: seq<nat>): (r: Option<nat>)
    ensures r.Some? <==> nodes != []
    ensures r.Some? ==> r.value in nodes && forall i :: 0 <= i < |nodes| ==> nodes[i] <= r.value
  {
    if nodes == [] then None
    else if |nodes| == 1 then Some(nodes[0])
    else
      var m := MaxNodes(nodes[1..]).value;
      assert forall i :: 1 <= i < |nodes| ==> nodes[i] == nodes[1..][i - 1];
      Some(if nodes[0] >= m then nodes[0] else m)
  }

  // ------------------------------------------------------------ stderr checks

  /** What a remote command returns: one result, or one per host of a group. */
  datatype Output = Single(stderr: string) | PerHost(stderrs: seq<string>)

  /** `_check_stderr`: the first non-empty stderr is raised as an `ExecutionError`. */
  method CheckStderr(output: Output) returns (err: Option<Error>)
    ensures output.Single? ==> err == (if output.stderr != [] then Some(ExecutionError(output.stderr)) else None)
    ensures output.PerHost? ==> (err.None? <==> forall i :: 0 <= i < |output.stderrs| ==> output.stderrs[i] == [])
    ensures output.PerHost? && err.Some? ==>
      exists i :: 0 <= i < |output.stderrs| && output.stderrs[i] != [] && err == Some(ExecutionError(output.stderrs[i]))
               && forall j :: 0 <= j < i ==> output.stderrs[j] == []
  {
    match output
    case Single(stderr) =>
      err := if stderr != [] then Some(ExecutionError(stderr)) else None;
    case PerHost(stderrs) =>
      var i := 0;
      while i < |stderrs|
        invariant 0 <= i <= |stderrs|
        invariant forall j :: 0 <= j < i ==> stderrs[j] == []
      {
        if stderrs[i] != [] {
          return Some(ExecutionError(stderrs[i]));
        }
        i := i + 1;
      }
      err := None;
  }

  // -------------------------------------------------------- background runs

  /** The command `_background_run` sends: a detached tmux session teeing into the log file. */
  function TmuxCommand(command: string, logFile: string): string
  {
    "tmux new -d -s \"" + SessionName(logFile) + "\" \"" + command + " |& tee " + logFile + "\""
  }

  /** The unzip launch logs to `unzip.log`, so it runs in the session `unzip`. */
  lemma UnzipSession()
    ensures SessionName("unzip.log") == "unzip"
  {
    assert "unzip"[0] != '.';
    assert NoSlash("log") && NoDot("log");
    SessionNameOfBareName("unzip", "log");
    assert "unzip" + "." + "log" == "unzip.log";
  }

  // ------------------------------------------------------ ip_file and syncer

  /** The two files `_config` writes before uploading. */
  datatype AddressFiles = AddressFiles(ipFile: string, syncer: string)

  /** `ip_file`: every host at its base port, then the first host at the client run port. */
  function IpFileText(hosts: seq<string>, s: Settings): string
    requires hosts != []
  {
    Terminated(PortLines(hosts, s.basePort) + [AddressLine(hosts[0], s.clientRunPort)])
  }

  /** `syncer`: every host at its client base port. */
  function SyncerText(hosts: seq<string>, s: Settings): string
  {
    Terminated(PortLines(hosts, s.clientBasePort))
  }

  /**
   * The loop of `_config` that accumulates both files; an empty host list
   * fails at `hosts[0]` after the loop.
   */
  method BuildAddressFiles(hosts: seq<string>, s: Settings) returns (r: Result<AddressFiles, Error>)
    ensures hosts == [] ==> r == Failure(IndexError)
    ensures hosts != [] ==> r == Success(AddressFiles(IpFileText(hosts, s), SyncerText(hosts, s)))
  {
    var ipFile, syncer := "", "";
    var x := 0;
    while x < |hosts|
      invariant 0 <= x <= |hosts|
      invariant ipFile == Terminated(PortLines(hosts[..x], s.basePort))
      invariant syncer == Terminated(PortLines(hosts[..x], s.clientBasePort))
    {
      var port := s.basePort + x;
      var syncerPort := s.clientBasePort + x;
      PortLinesSnoc(hosts, s.basePort, x);
      PortLinesSnoc(hosts, s.clientBasePort, x);
      ipFile := ipFile + AddressLine(hosts[x], port) + "\n";
      syncer := syncer + AddressLine(hosts[x], syncerPort) + "\n";
      x := x + 1;
    }
    assert hosts[..x] == hosts;
    if hosts == [] {
      return Failure(IndexError);
    }
    TerminatedSnoc(PortLines(hosts, s.basePort), AddressLine(hosts[0], s.clientRunPort));
    ipFile := ipFile + AddressLine(hosts[0], s.clientRunPort) + "\n";
    r := Success(AddressFiles(ipFile, syncer));
  }

  /**
   * Read back line by line, `ip_file` has `len(hosts) + 1` lines, line `x`
   * being `hosts[x]:(base_port + x)` and the last `hosts[0]:client_run_port`.
   */
  lemma IpFileLines(hosts: seq<string>, s: Settings)
    requires hosts != [] && forall x :: 0 <= x < |hosts| ==> NoNewline(hosts[x])
    ensures var ip := SplitLines(IpFileText(hosts, s));
      && |ip| == |hosts| + 1
      && (forall x :: 0 <= x < |hosts| ==> ip[x] == hosts[x] + ":" + IntToString(s.basePort + x))
      && ip[|hosts|] == hosts[0] + ":" + IntToString(s.clientRunPort)
  {
    var lines := PortLines(hosts, s.basePort);
    var ipLines := lines + [AddressLine(hosts[0], s.clientRunPort)];
    PortLinesNoNewline(hosts, s.basePort);
    IntToStringNoNewline(s.clientRunPort);
    assert forall k :: 0 <= k < |ipLines| ==> NoNewline(ipLines[k]) by {
      forall k | 0 <= k < |ipLines|
        ensures NoNewline(ipLines[k])
      {
        if k < |lines| {
          assert ipLines[k] == lines[k];
        }
      }
    }
    SplitTerminated(ipLines);
    forall x | 0 <= x < |hosts|
      ensures ipLines[x] == hosts[x] + ":" + IntToString(s.basePort + x)
    {
      var port := s.basePort + x;
      assert ipLines[x] == lines[x] == AddressLine(hosts[x], port);
    }
  }

  /** Read back line by line, `syncer` has `len(hosts)` lines `hosts[x]:(client_base_port + x)`. */
  lemma SyncerLines(hosts: seq<string>, s: Settings)
    requires forall x :: 0 <= x < |hosts| ==> NoNewline(hosts[x])
    ensures var sy := SplitLines(SyncerText(hosts, s));
      && |sy| == |hosts|
      && forall x :: 0 <= x < |hosts| ==> sy[x] == hosts[x] + ":" + IntToString(s.clientBasePort + x)
  {
    PortLinesRead(hosts, s.clientBasePort);
  }

  // --------------------------------------------------------------- committee

  /** A committee member's address: `workers + 1` copies of its host when collocated, else the host. */
  datatype Address = Many(hosts: seq<string>) | One(host: string)

  /** The `OrderedDict` of names `str(i)` to addresses that `_config` builds. */
  function Committee(hosts: seq<string>, collocate: bool, workers: nat): seq<(string, Address)>
  {
    seq(|hosts|, i requires 0 <= i < |hosts| =>
      (NatToString(i), if collocate then Many(seq(workers + 1, _ => hosts[i])) else One(hosts[i])))
  }

  /**
   * Member `i` is named `str(i)`, names are pairwise distinct (so the
   * dictionary keeps every host), and a collocated member lists its host
   * `workers + 1` times.
   */
  lemma CommitteeSpec(hosts: seq<string>, collocate: bool, workers: nat)
    ensures var c := Committee(hosts, collocate, workers);
      && |c| == |hosts|
      && (forall i, j :: 0 <= i < j < |c| ==> c[i].0 != c[j].0)
      && (forall i :: 0 <= i < |c| ==> c[i].0 == NatToString(i))
      && (forall i :: 0 <= i < |c| && collocate ==>
            c[i].1.Many? && |c[i].1.hosts| == workers + 1 && forall k :: 0 <= k <= workers ==> c[i].1.hosts[k] == hosts[i])
      && (forall i :: 0 <= i < |c| && !collocate ==> c[i].1 == One(hosts[i]))
  {
    var c := Committee(hosts, collocate, workers);
    forall i, j | 0 <= i < j < |c|
      ensures c[i].0 != c[j].0
    {
      if c[i].0 == c[j].0 {
        NatToStringInjective(i, j);
      }
    }
  }

  // ----------------------------------------------------------------- uploads

  /** `[str(x) for x in range(n)]`. */
  function Names(n: nat): seq<string>
  {
    seq(n, x requires 0 <= x < n => NatToString(x))
  }

  /** How many hosts receive configuration files: `len(names[:len(names) - faults])`. */
  function UploadCount(n: nat, faults: int): nat
  {
    |PyPrefix(Names(n), n - faults)|
  }

  /**
   * With `0 <= faults <= n`, the first `n - faults` hosts get files. A
   * negative count of faults uploads to every host; more faults than hosts
   * count from the end of the list, `max(0, 2n - faults)`.
   */
  lemma UploadCountSpec(n: nat, faults: int)
    ensures 0 <= faults <= n ==> UploadCount(n, faults) == n - faults
    ensures faults < 0 ==> UploadCount(n, faults) == n
    ensures faults > n ==> UploadCount(n, faults) == if 2 * n - faults < 0 then 0 else 2 * n - faults
    ensures UploadCount(n, faults) <= n
  {
  }

  /** What `_config` does for host `i` of the upload loop. */
  function HostUploads(pm: PathMaker, i: nat, host: string): seq<Event>
  {
    var t := Host(host);
    [Event(t, Shell(Cleanup(pm.resultsPath) + " || true"))]
    + (if i == 0 then [Event(t, Put(pm.syncerFile))] else [])
    + [Event(t, Put(pm.keyFile(i))), Event(t, Put(pm.tKeyFile)), Event(t, Put(pm.tTestdataFile)), Event(t, Put("ip_file"))]
  }

  /** The upload loop over the first `k` hosts. */
  function UploadEvents(pm: PathMaker, hosts: seq<string>, k: nat): seq<Event>
    requires k <= |hosts|
  {
    if k == 0 then [] else UploadEvents(pm, hosts, k - 1) + HostUploads(pm, k - 1, hosts[k - 1])
  }

  /** Where the uploads of host `i` start: host 0 has one more file, the syncer's. */
  function UploadOffset(i: nat): nat
  {
    if i == 0 then 0 else 5 * i + 1
  }

  /** The block of `ev` that holds the uploads of host `i`, or `[]` past its end. */
  function UploadsAt(ev: seq<Event>, i: nat): seq<Event>
  {
    if UploadOffset(i + 1) <= |ev| then ev[UploadOffset(i)..UploadOffset(i + 1)] else []
  }

  /**
   * The uploads of host `i` are one contiguous block, in host order: the
   * cleanup, the syncer file for host 0 only, key file `i`, the threshold
   * key, the test data, and `ip_file`.
   */
  lemma {:induction false} UploadOrder(pm: PathMaker, hosts: seq<string>, k: nat)
    requires k <= |hosts|
    ensures var ev := UploadEvents(pm, hosts, k);
      && |ev| == UploadOffset(k)
      && forall i :: 0 <= i < k ==> UploadsAt(ev, i) == HostUploads(pm, i, hosts[i])
  {
    if k > 0 {
      UploadOrder(pm, hosts, k - 1);
      var prev := UploadEvents(pm, hosts, k - 1);
      var ev := UploadEvents(pm, hosts, k);
      assert |ev| == UploadOffset(k);
      forall i | 0 <= i < k
        ensures UploadsAt(ev, i) == HostUploads(pm, i, hosts[i])
      {
        if i < k - 1 {
          assert UploadsAt(prev, i) == HostUploads(pm, i, hosts[i]);
          assert ev[UploadOffset(i)..UploadOffset(i + 1)] == prev[UploadOffset(i)..UploadOffset(i + 1)];
        } else {
          assert ev[UploadOffset(i)..UploadOffset(i + 1)] == ev[|prev|..];
        }
      }
    }
  }

  /** Only the first `k` hosts receive anything. */
  lemma {:induction false} UploadTargets(pm: PathMaker, hosts: seq<string>, k: nat)
    requires k <= |hosts|
    ensures forall j :: 0 <= j < |UploadEvents(pm, hosts, k)| ==>
      UploadEvents(pm, hosts, k)[j].target.Host? && UploadEvents(pm, hosts, k)[j].target.address in hosts[..k]
  {
    if k > 0 {
      UploadTargets(pm, hosts, k - 1);
      var ev := UploadEvents(pm, hosts, k);
      var prev := UploadEvents(pm, hosts, k - 1);
      var hu := HostUploads(pm, k - 1, hosts[k - 1]);
      assert ev == prev + hu;
      assert hosts[..k] == hosts[..k - 1] + [hosts[k - 1]];
      assert forall m :: 0 <= m < |hu| ==> hu[m].target == Host(hosts[k - 1]);
      forall j | 0 <= j < |ev|
        ensures ev[j].target.Host? && ev[j].target.address in hosts[..k]
      {
        if j < |prev| {
          assert ev[j] == prev[j];
          assert prev[j].target.address in hosts[..k - 1];
        } else {
          assert ev[j] == hu[j - |prev|];
          assert hosts[..k][k - 1] == hosts[k - 1];
        }
      }
    }
  }

  // -------------------------------------------------------------------- boot

  /** What a background launch starts, with the arguments its command is rendered from. */
  datatype Program =
    | SyncerRun(key: string, testdata: string, byzantine: PyValue)
    | UnzipRun(archive: string)
    | PrimaryRun(key: string, protocol: PyValue, bfile: PyValue, byzantine: PyValue, crash: PyValue)

  /** One background launch: the host, what it starts, and the log file. */
  datatype Launch = Launch(host: string, program: Program, logFile: string)

  /** The command line of a launch; `None` when the renderer's assertions fail. */
  function CommandOf(p: Program): Option<string>
  {
    match p
    case SyncerRun(key, testdata, byzantine) => RunSyncer(PyStr(key), PyStr(testdata), byzantine, PyBool(false))
    case UnzipRun(archive) => Some(UnzipTkeys(PyStr(archive)))
    case PrimaryRun(key, protocol, bfile, byzantine, crash) => RunPrimary(PyStr(key), protocol, bfile, byzantine, crash, PyBool(false))
  }

  /** The syncer, started on the first host with its key and the test data. */
  function SyncerLaunch(pm: PathMaker, byzantine: PyValue, host: string): Launch
  {
    Launch(host, SyncerRun(pm.keyFile(0), pm.tTestdataFile, byzantine), pm.syncerLogFile)
  }

  /** Unpacking the threshold keys, logged to `unzip.log`. */
  function UnzipLaunch(host: string): Launch
  {
    Launch(host, UnzipRun("data.tar.gz"), "unzip.log")
  }

  /** Node `i`'s primary, with the benchmark fields `run` recorded. */
  function PrimaryLaunch(pm: PathMaker, protocol: PyValue, bfile: PyValue, byzantine: PyValue, crash: PyValue,
                         i: nat, host: string): Launch
  {
    Launch(host, PrimaryRun(pm.keyFile(i), protocol, bfile, byzantine, crash), pm.primaryLogFile(i))
  }

  /** The launches of host `i`: the syncer first on host 0, then unzip, then the primary. */
  function HostLaunches(pm: PathMaker, protocol: PyValue, bfile: PyValue, byzantine: PyValue, crash: PyValue,
                        i: nat, host: string): seq<Launch>
  {
    (if i == 0 then [SyncerLaunch(pm, byzantine, host)] else [])
    + [UnzipLaunch(host), PrimaryLaunch(pm, protocol, bfile, byzantine, crash, i, host)]
  }

  /** The boot loop over the first `k` hosts. */
  function BootSteps(pm: PathMaker, protocol: PyValue, bfile: PyValue, byzantine: PyValue, crash: PyValue,
                     hosts: seq<string>, k: nat): seq<Launch>
    requires k <= |hosts|
  {
    if k == 0 then []
    else BootSteps(pm, protocol, bfile, byzantine, crash, hosts, k - 1)
         + HostLaunches(pm, protocol, bfile, byzantine, crash, k - 1, hosts[k - 1])
  }

  /** The syncer is launched first, on the first host, and every host adds two launches. */
  lemma {:induction false} BootLength(pm: PathMaker, protocol: PyValue, bfile: PyValue, byzantine: PyValue, crash: PyValue,
                                      hosts: seq<string>, k: nat)
    requires 0 < k <= |hosts|
    ensures var steps := BootSteps(pm, protocol, bfile, byzantine, crash, hosts, k);
      |steps| == 2 * k + 1 && steps[0] == SyncerLaunch(pm, byzantine, hosts[0])
  {
    if k > 1 {
      BootLength(pm, protocol, bfile, byzantine, crash, hosts, k - 1);
    }
  }

  /**
   * Boot order: after the syncer, every host, including those that
   * received no files, runs unzip and then its primary, host after host.
   */
  lemma {:induction false} BootOrder(pm: PathMaker, protocol: PyValue, bfile: PyValue, byzantine: PyValue, crash: PyValue,
                                     hosts: seq<string>, k: nat)
    requires 0 < k <= |hosts|
    ensures var steps := BootSteps(pm, protocol, bfile, byzantine, crash, hosts, k);
      && |steps| == 2 * k + 1
      && forall i :: 0 <= i < k ==>
           && steps[2 * i + 1] == UnzipLaunch(hosts[i])
           && steps[2 * i + 2] == PrimaryLaunch(pm, protocol, bfile, byzantine, crash, i, hosts[i])
  {
    BootLength(pm, protocol, bfile, byzantine, crash, hosts, k);
    if k > 1 {
      BootOrder(pm, protocol, bfile, byzantine, crash, hosts, k - 1);
      var steps := BootSteps(pm, protocol, bfile, byzantine, crash, hosts, k);
      var prev := BootSteps(pm, protocol, bfile, byzantine, crash, hosts, k - 1);
      var h := HostLaunches(pm, protocol, bfile, byzantine, crash, k - 1, hosts[k - 1]);
      assert steps == prev + h;
      forall i | 0 <= i < k - 1
        ensures steps[2 * i + 1] == UnzipLaunch(hosts[i])
        ensures steps[2 * i + 2] == PrimaryLaunch(pm, protocol, bfile, byzantine, crash, i, hosts[i])
      {
        assert steps[2 * i + 1] == prev[2 * i + 1] && steps[2 * i + 2] == prev[2 * i + 2];
      }
    }
  }

  /** One launch: a missing command fails its assertion; otherwise one remote command whose stderr is checked. */
  function LaunchOne(stderrOf: (string, string) -> string, l: Launch): (seq<Event>, Option<Error>)
  {
    if CommandOf(l.program).None? then ([], Some(AssertionError))
    else
      var cmd := TmuxCommand(CommandOf(l.program).value, l.logFile);
      var stderr := stderrOf(l.host, cmd);
      ([Event(Host(l.host), Shell(cmd))], if stderr != [] then Some(ExecutionError(stderr)) else None)
  }

  /** `_background_run` on every launch in order, up to the first failure: the events and the error. */
  function Launched(stderrOf: (string, string) -> string, steps: seq<Launch>): (seq<Event>, Option<Error>)
  {
    if steps == [] then ([], None)
    else
      var (events, err) := Launched(stderrOf, steps[..|steps| - 1]);
      if err.Some? then (events, err)
      else
        var (e, x) := LaunchOne(stderrOf, steps[|steps| - 1]);
        (events + e, x)
  }

  /**
   * Launching stops at the first failure: with no failure every launch is
   * one event; otherwise the failing launch is the last one tried.
   */
  lemma {:induction false} LaunchedSpec(stderrOf: (string, string) -> string, steps: seq<Launch>)
    ensures var (events, err) := Launched(stderrOf, steps);
      && |events| <= |steps|
      && (err.None? ==> |events| == |steps| && forall i :: 0 <= i < |steps| ==> RunsOn(events[i], steps[i]))
    decreases |steps|
  {
    if steps != [] {
      var init := steps[..|steps| - 1];
      var last := steps[|steps| - 1];
      LaunchedSpec(stderrOf, init);
      LaunchOneSpec(stderrOf, last);
      if Launched(stderrOf, steps).1.None? {
        var prev := Launched(stderrOf, init).0;
        var one := LaunchOne(stderrOf, last).0;
        assert Launched(stderrOf, steps).0 == prev + one;
        Singleton(one);
        Snoc(steps);
        RunsOnSnoc(prev, init, one[0], last);
      }
    }
  }

  /**
   * `e` is launch `l` under way: its command was built and runs in a
   * detached tmux session on the launch's host, logging to its log file.
   */
  predicate RunsOn(e: Event, l: Launch)
  {
    CommandOf(l.program).Some? && e == Event(Host(l.host), Shell(TmuxCommand(CommandOf(l.program).value, l.logFile)))
  }

  /** A launch makes at most one event, and one that succeeds ran its command. */
  lemma LaunchOneSpec(stderrOf: (string, string) -> string, l: Launch)
    ensures |LaunchOne(stderrOf, l).0| <= 1
    ensures LaunchOne(stderrOf, l).1.None? ==> |LaunchOne(stderrOf, l).0| == 1 && RunsOn(LaunchOne(stderrOf, l).0[0], l)
  {
  }

  /** Matching launches stay matched when one more launch is made. */
  lemma RunsOnSnoc(events: seq<Event>, steps: seq<Launch>, e: Event, l: Launch)
    requires |events| == |steps| && forall i :: 0 <= i < |steps| ==> RunsOn(events[i], steps[i])
    requires RunsOn(e, l)
    ensures forall i :: 0 <= i < |steps| + 1 ==> RunsOn((events + [e])[i], (steps + [l])[i])
  {
    forall i | 0 <= i < |steps| + 1
      ensures RunsOn((events + [e])[i], (steps + [l])[i])
    {
      if i < |steps| {
        assert (events + [e])[i] == events[i] && (steps + [l])[i] == steps[i];
      }
    }
  }

  /** Launching `a` then `b` is launching `a`, and `b` only when `a` succeeded. */
  lemma {:induction false} LaunchedAppend(stderrOf: (string, string) -> string, a: seq<Launch>, b: seq<Launch>)
    ensures Launched(stderrOf, a + b) ==
      if Launched(stderrOf, a).1.Some? then Launched(stderrOf, a)
      else (Launched(stderrOf, a).0 + Launched(stderrOf, b).0, Launched(stderrOf, b).1)
  {
    if b == [] {
      assert a + b == a;
      assert Launched(stderrOf, a).0 + [] == Launched(stderrOf, a).0;
    } else {
      assert (a + b)[..|a + b| - 1] == a + b[..|b| - 1];
      LaunchedAppend(stderrOf, a, b[..|b| - 1]);
      var A, B := Launched(stderrOf, a), Launched(stderrOf, b[..|b| - 1]);
      if A.1.None? && B.1.None? {
        var e := LaunchOne(stderrOf, b[|b| - 1]).0;
        assert A.0 + B.0 + e == A.0 + (B.0 + e);
      }
    }
  }

  /** Launching one more step after a successful prefix. */
  lemma LaunchedStep(stderrOf: (string, string) -> string, steps: seq<Launch>, k: nat)
    requires k < |steps| && Launched(stderrOf, steps[..k]).1.None?
    ensures Launched(stderrOf, steps[..k + 1])
         == (Launched(stderrOf, steps[..k]).0 + LaunchOne(stderrOf, steps[k]).0, LaunchOne(stderrOf, steps[k]).1)
  {
    assert steps[..k + 1][..k] == steps[..k];
  }

  /** After a failed launch the remaining steps are not launched. */
  lemma LaunchedStops(stderrOf: (string, string) -> string, steps: seq<Launch>, k: nat)
    requires k <= |steps| && Launched(stderrOf, steps[..k]).1.Some?
    ensures Launched(stderrOf, steps) == Launched(stderrOf, steps[..k])
  {
    assert steps == steps[..k] + steps[k..];
    LaunchedAppend(stderrOf, steps[..k], steps[k..]);
  }

  /** A launch fails only on a missing command or on a host's stderr. */
  lemma {:induction false} LaunchedErrors(stderrOf: (string, string) -> string, steps: seq<Launch>)
    ensures var err := Launched(stderrOf, steps).1;
      err.Some? ==> err.value == AssertionError || err.value.ExecutionError?
  {
    if steps != [] {
      LaunchedErrors(stderrOf, steps[..|steps| - 1]);
    }
  }

  lemma {:induction false} BootPrefix(pm: PathMaker, protocol: PyValue, bfile: PyValue, byzantine: PyValue, crash: PyValue,
                                      hosts: seq<string>, k: nat, n: nat)
    requires k <= n <= |hosts|
    ensures var full := BootSteps(pm, protocol, bfile, byzantine, crash, hosts, n);
      var part := BootSteps(pm, protocol, bfile, byzantine, crash, hosts, k);
      |part| <= |full| && full[..|part|] == part
    decreases n
  {
    if k < n {
      BootPrefix(pm, protocol, bfile, byzantine, crash, hosts, k, n - 1);
    }
  }

  /** Regrouping the phases of a trace. */
  lemma AppendAssoc<T>(a: seq<T>, b: seq<T>, c: seq<T>, d: seq<T>, e: seq<T>)
    ensures a + b + c + d + e == a + (b + c + d + e)
  {
  }

  // ------------------------------------------------------------- pull_logs

  /** The ids of node `i`'s six benchmark messages: `i * 10000 + j` for `j` in 1..6. */
  function IdBlock(i: nat): seq<nat>
  {
    seq(6, j requires 0 <= j < 6 => i * 10000 + j + 1)
  }

  /** Every id `pull_logs` expects from `n` nodes, node by node. */
  function ExpectedIds(n: nat): seq<nat>
  {
    if n == 0 then [] else ExpectedIds(n - 1) + IdBlock(n - 1)
  }

  /** The ids of `expected` absent from `seen`, in order. */
  function MissingFrom(expected: seq<nat>, seen: seq<nat>): seq<nat>
  {
    if expected == [] then []
    else
      var x := expected[|expected| - 1];
      MissingFrom(expected[..|expected| - 1], seen) + (if x in seen then [] else [x])
  }

  /** The nested loops of `pull_logs` that collect the missing ids. */
  method MissingIds(n: nat, seen: seq<nat>) returns (missing: seq<nat>)
    ensures missing == MissingFrom(ExpectedIds(n), seen)
  {
    missing := [];
    var i := 0;
    while i < n
      invariant 0 <= i <= n
      invariant missing == MissingFrom(ExpectedIds(i), seen)
    {
      var base := i * 10000;
      var j := 1;
      assert ExpectedIds(i) + IdBlock(i)[..0] == ExpectedIds(i);
      while j < 7
        invariant 1 <= j <= 7
        invariant missing == MissingFrom(ExpectedIds(i) + IdBlock(i)[..j - 1], seen)
      {
        var done := ExpectedIds(i) + IdBlock(i)[..j - 1];
        assert ExpectedIds(i) + IdBlock(i)[..j] == done + [base + j];
        assert (done + [base + j])[..|done|] == done;
        if base + j !in seen {
          missing := missing + [base + j];
        }
        j := j + 1;
      }
      assert IdBlock(i)[..6] == IdBlock(i);
      i := i + 1;
    }
  }

  /** An id belongs to node `id / 10000` and is its message `id % 10000`. */
  predicate Expected(n: nat, x: nat)
  {
    x / 10000 < n && 1 <= x % 10000 <= 6
  }

  lemma {:induction false} ExpectedIdsSpec(n: nat)
    ensures forall x :: x in ExpectedIds(n) <==> Expected(n, x)
    ensures forall a, b :: 0 <= a < b < |ExpectedIds(n)| ==> ExpectedIds(n)[a] < ExpectedIds(n)[b]
    ensures n > 0 ==> ExpectedIds(n)[|ExpectedIds(n)| - 1] == (n - 1) * 10000 + 6
    ensures |ExpectedIds(n)| == 6 * n
  {
    if n > 0 {
      ExpectedIdsSpec(n - 1);
      var prev, block := ExpectedIds(n - 1), IdBlock(n - 1);
      forall x
        ensures x in block <==> x / 10000 == n - 1 && 1 <= x % 10000 <= 6
      {
        if x / 10000 == n - 1 && 1 <= x % 10000 <= 6 {
          assert x == (n - 1) * 10000 + x % 10000;
          assert block[x % 10000 - 1] == x;
        }
      }
      forall a, b | 0 <= a < b < |prev + block|
        ensures (prev + block)[a] < (prev + block)[b]
      {
        if a < |prev| && b >= |prev| {
          assert prev[a] <= prev[|prev| - 1] || prev == [];
        }
      }
    }
  }

  lemma {:induction false} MissingFromSpec(expected: seq<nat>, seen: seq<nat>)
    ensures forall x :: x in MissingFrom(expected, seen) <==> x in expected && x !in seen
    ensures (forall a, b :: 0 <= a < b < |expected| ==> expected[a] < expected[b]) ==>
      forall a, b :: 0 <= a < b < |MissingFrom(expected, seen)| ==> MissingFrom(expected, seen)[a] < MissingFrom(expected, seen)[b]
  {
    if expected != [] {
      var init, x := expected[..|expected| - 1], expected[|expected| - 1];
      assert expected == init + [x];
      MissingFromSpec(init, seen);
      if forall a, b :: 0 <= a < b < |expected| ==> expected[a] < expected[b] {
        var m := MissingFrom(init, seen);
        forall y | y in m
          ensures y < x
        {
          var a :| 0 <= a < |init| && init[a] == y;
          assert expected[a] < expected[|expected| - 1];
        }
        var tail := if x in seen then [] else [x];
        forall a, b | 0 <= a < b < |m + tail|
          ensures (m + tail)[a] < (m + tail)[b]
        {
          if b >= |m| {
            assert m[a] in m;
          }
        }
      }
    }
  }

  /**
   * The warning's list is exactly the expected ids that were not seen,
   * in ascending order: id `i * 10000 + j` for node `i < n` and message
   * `j` in 1..6.
   */
  lemma MissingIdsSpec(n: nat, seen: seq<nat>)
    ensures var m := MissingFrom(ExpectedIds(n), seen);
      && (forall x :: x in m <==> Expected(n, x) && x !in seen)
      && (forall a, b :: 0 <= a < b < |m| ==> m[a] < m[b])
  {
    ExpectedIdsSpec(n);
    MissingFromSpec(ExpectedIds(n), seen);
  }

  /** The `(int(byte_size), float(latency))` pairs, or `None` when some latency is not a number. */
  function LatencyPairs(recs: seq<LatencyRecord>): Option<seq<(nat, real)>>
    requires forall k :: 0 <= k < |recs| ==> WellFormed(recs[k])
  {
    if recs == [] then Some([])
    else
      var r := recs[|recs| - 1];
      assert WellFormed(r);
      match LatencyPairs(recs[..|recs| - 1])
      case None => None
      case Some(pairs) =>
        match ParseDecimal(r.latency)
        case None => None
        case Some(lat) => Some(pairs + [(DigitsValue(r.size), lat)])
  }

  /** `int(msg_id)` of every record. */
  function SeenIds(recs: seq<LatencyRecord>): seq<nat>
    requires forall k :: 0 <= k < |recs| ==> WellFormed(recs[k])
  {
    if recs == [] then []
    else
      assert WellFormed(recs[|recs| - 1]);
      SeenIds(recs[..|recs| - 1]) + [DigitsValue(recs[|recs| - 1].id)]
  }

  /** `{k: mean(v) for k, v in latency_data.items()}`, rounding left out. */
  function Means(d: Dict<nat, seq<real>>): map<nat, real>
  {
    map k | k in d.entries :: Mean(d.entries[k])
  }

  /**
   * The averages: one per payload size that occurs, the mean of every
   * latency reported for that size, in report order.
   */
  lemma AveragesSpec(pairs: seq<(nat, real)>)
    ensures var m := Means(Group(pairs));
      && (forall k :: k in m <==> HasKey(pairs, k))
      && (forall k :: k in m ==> |Select(pairs, k)| > 0 && m[k] == RealSum(Select(pairs, k)) / (|Select(pairs, k)| as real))
  {
    GroupSpec(pairs);
  }

  /** What `pull_logs` returns: the averages, and the ids the warning names. */
  datatype PullReport = PullReport(averages: map<nat, real>, missing: seq<nat>)

  /** `pull_logs` after the latency script printed `output`, for `n` nodes. */
  function PullResult(output: string, n: nat): Result<PullReport, Error>
  {
    var recs := FindLatencyRecords(output);
    match LatencyPairs(recs)
    case None => Failure(ValueError)
    case Some(pairs) => Success(PullReport(Means(Group(pairs)), MissingFrom(ExpectedIds(n), SeenIds(recs))))
  }

  /** The command that prints the latency report for `n` nodes. */
  function LatencyScript(n: nat): string
  {
    "./reliable-broadcast-protocols/benchmark/latencies.sh " + NatToString(n)
  }

  /** The host `pull_logs` asks: the first selected host, or the first host of the first group. */
  function FirstHost(sel: Selection): string
    requires !IsEmpty(sel) && (sel.Grouped? ==> |sel.groups[0]| > 0)
  {
    if sel.Flat? then sel.hosts[0] else sel.groups[0][0]
  }

  lemma SelectedGroupsNonEmpty(regions: seq<seq<string>>, collocate: bool, workers: nat, nodes: nat)
    ensures var sel := Selected(regions, collocate, workers, nodes);
      sel.Grouped? ==> forall g :: 0 <= g < |sel.groups| ==> |sel.groups[g]| == workers + 1
  {
  }

  /** The machines `_update` reaches: the distinct selected hosts, or every member of every group. */
  function UpdatedMachines(sel: Selection): set<string>
  {
    match sel
    case Flat(hosts) => set h | h in hosts
    case Grouped(groups) => set g, h | g in groups && h in g :: h
  }

  // ----------------------------------------------------------------- config

  /** The local steps of `_config` before it reads the host list: cleanup, compile, alias, genconfig. */
  function SetupEvents(pm: PathMaker, s: Settings, n: nat, compileFails: bool): seq<Event>
  {
    [Event(Localhost, Shell(Cleanup(pm.resultsPath))),
     Event(Localhost, Exec(["cargo", "build", "--quiet", "--release"]))]
    + if compileFails then []
      else [Event(Localhost, Shell(AliasBinaries(PyStr(pm.binaryPath)).value)),
            Event(Localhost, Shell(GenerateConfigFiles(PyInt(s.basePort), PyInt(s.clientBasePort), PyInt(s.clientRunPort), PyInt(n))))]
  }

  /** The files `_config` writes locally once the addresses are known. */
  function FileEvents(pm: PathMaker, s: Settings, hosts: seq<string>): seq<Event>
    requires hosts != []
  {
    [Event(Localhost, Write("ip_file", IpFileText(hosts, s))),
     Event(Localhost, Write("syncer", SyncerText(hosts, s))),
     Event(Localhost, PrintConfig(pm.committeeFile)),
     Event(Localhost, PrintConfig(pm.parametersFile))]
  }

  /** What a run reports when it returns normally. */
  datatype Outcome = Configured(committee: seq<(string, Address)>) | NotEnoughInstances

  /**
   * `_config` on a flat list of hosts: the actions taken and the result.
   * A failed compilation stops it after the local steps; an empty list
   * fails on `hosts[0]`; otherwise it writes the address files, uploads,
   * and boots until the first failed launch.
   */
  function ConfigRun(pm: PathMaker, s: Settings, stderrOf: (string, string) -> string, compileFails: bool,
                     protocol: PyValue, bfile: PyValue, byzantine: PyValue, crash: PyValue,
                     hosts: seq<string>, collocate: bool, workers: nat, faults: int): (seq<Event>, Result<seq<(string, Address)>, Error>)
  {
    if compileFails then (SetupEvents(pm, s, |hosts|, true), Failure(CalledProcessError))
    else if hosts == [] then (SetupEvents(pm, s, 0, false), Failure(IndexError))
    else
      var boot := Launched(stderrOf, BootSteps(pm, protocol, bfile, byzantine, crash, hosts, |hosts|));
      (SetupEvents(pm, s, |hosts|, false) + FileEvents(pm, s, hosts) + UploadEvents(pm, hosts, UploadCount(|hosts|, faults)) + boot.0,
       if boot.1.Some? then Failure(boot.1.value) else Success(Committee(hosts, collocate, workers)))
  }

  /** The `except` of `run` around `_config`: subprocess failures become a `BenchError`. */
  function WrapConfig(r: Result<seq<(string, Address)>, Error>): Result<Outcome, Error>
  {
    match r
    case Success(committee) => Success(Configured(committee))
    case Failure(e) => Failure(if e == CalledProcessError then BenchError("Failed to configure nodes", Some(e)) else e)
  }

  /**
   * `_config` on a selection, as `run` sees it. A grouped selection fails
   * with a `TypeError` on `hosts[x] + ":"` once the local steps are done.
   */
  function ConfigOutcome(pm: PathMaker, s: Settings, stderrOf: (string, string) -> string, compileFails: bool,
                         protocol: PyValue, bfile: PyValue, byzantine: PyValue, crash: PyValue,
                         sel: Selection, params: BenchParameters): (seq<Event>, Result<Outcome, Error>)
  {
    match sel
    case Grouped(groups) =>
      (SetupEvents(pm, s, |groups|, compileFails),
       Failure(if compileFails then BenchError("Failed to configure nodes", Some(CalledProcessError)) else TypeError))
    case Flat(hosts) =>
      var c := ConfigRun(pm, s, stderrOf, compileFails, protocol, bfile, byzantine, crash, hosts, params.collocate, params.workers, params.faults);
      (c.0, WrapConfig(c.1))
  }

  /**
   * A configuration succeeds exactly for a flat, non-empty selection whose
   * compilation and launches all succeed, and then reports the committee.
   */
  lemma ConfigSucceeds(pm: PathMaker, s: Settings, stderrOf: (string, string) -> string, compileFails: bool,
                       protocol: PyValue, bfile: PyValue, byzantine: PyValue, crash: PyValue,
                       sel: Selection, params: BenchParameters)
    ensures var r := ConfigOutcome(pm, s, stderrOf, compileFails, protocol, bfile, byzantine, crash, sel, params).1;
      && (r.Success? <==> sel.Flat? && sel.hosts != [] && !compileFails
                          && Launched(stderrOf, BootSteps(pm, protocol, bfile, byzantine, crash, sel.hosts, |sel.hosts|)).1.None?)
      && (r.Success? ==> r.value == Configured(Committee(sel.hosts, params.collocate, params.workers)))
  {
  }

  /**
   * A successful configuration took the four local steps, wrote the four
   * files, uploaded to every host that keeps its files, and made all
   * `2 * len(hosts) + 1` launches.
   */
  lemma ConfigTraceLength(pm: PathMaker, s: Settings, stderrOf: (string, string) -> string, compileFails: bool,
                          protocol: PyValue, bfile: PyValue, byzantine: PyValue, crash: PyValue,
                          sel: Selection, params: BenchParameters)
    requires ConfigOutcome(pm, s, stderrOf, compileFails, protocol, bfile, byzantine, crash, sel, params).1.Success?
    ensures sel.Flat? && |ConfigOutcome(pm, s, stderrOf, compileFails, protocol, bfile, byzantine, crash, sel, params).0|
            == 4 + 4 + UploadOffset(UploadCount(|sel.hosts|, params.faults)) + 2 * |sel.hosts| + 1
  {
    var steps := BootSteps(pm, protocol, bfile, byzantine, crash, sel.hosts, |sel.hosts|);
    LaunchedSpec(stderrOf, steps);
    BootOrder(pm, protocol, bfile, byzantine, crash, sel.hosts, |sel.hosts|);
    UploadCountSpec(|sel.hosts|, params.faults);
    UploadOrder(pm, sel.hosts, UploadCount(|sel.hosts|, params.faults));
  }

  /** `_config` itself fails only on compilation, an empty host list, or a launch. */
  lemma ConfigRunErrors(pm: PathMaker, s: Settings, stderrOf: (string, string) -> string, compileFails: bool,
                        protocol: PyValue, bfile: PyValue, byzantine: PyValue, crash: PyValue,
                        hosts: seq<string>, collocate: bool, workers: nat, faults: int)
    ensures var r := ConfigRun(pm, s, stderrOf, compileFails, protocol, bfile, byzantine, crash, hosts, collocate, workers, faults).1;
      r.Failure? ==> r.error in {CalledProcessError, IndexError, AssertionError} || r.error.ExecutionError?
  {
    if !compileFails && hosts != [] {
      LaunchedErrors(stderrOf, BootSteps(pm, protocol, bfile, byzantine, crash, hosts, |hosts|));
    }
  }

  /**
   * A failed subprocess is always reported wrapped in a `BenchError`; every
   * other failure is an assertion, a remote stderr, or a type or index
   * error, passed on unchanged.
   */
  lemma ConfigErrors(pm: PathMaker, s: Settings, stderrOf: (string, string) -> string, compileFails: bool,
                     protocol: PyValue, bfile: PyValue, byzantine: PyValue, crash: PyValue,
                     sel: Selection, params: BenchParameters)
    ensures var r := ConfigOutcome(pm, s, stderrOf, compileFails, protocol, bfile, byzantine, crash, sel, params).1;
      r.Failure? ==> r.error == BenchError("Failed to configure nodes", Some(CalledProcessError)) || r.error == TypeError
                     || r.error == IndexError || r.error == AssertionError || r.error.ExecutionError?
  {
    if sel.Flat? {
      ConfigRunErrors(pm, s, stderrOf, compileFails, protocol, bfile, byzantine, crash, sel.hosts, params.collocate, params.workers, params.faults);
    }
  }


  /**
   * The remote benchmark. `protocol`, `bfile`, `byzantine` and `crash`
   * are the fields `run` sets; `trace` is everything done so far.
   */
  class Bench {
    const settings: Settings
    const paths: PathMaker
    /** The testbed's hosts, region by region (`manager.hosts()`). */
    const regions: seq<seq<string>>
    /** Whether `cargo build` exits with an error. */
    const compileFails: bool
    /** Whether the update pipeline fails on some machine. */
    const updateFails: bool
    /** The stderr a host returns for a command. */
    const stderrOf: (string, string) -> string
    /** The stdout a host returns for a command. */
    const stdoutOf: (string, string) -> string

    var protocol: PyValue
    var bfile: PyValue
    var byzantine: PyValue
    var crash: PyValue
    var trace: seq<Event>

    constructor(settings: Settings, paths: PathMaker, regions: seq<seq<string>>, compileFails: bool, updateFails: bool,
                stderrOf: (string, string) -> string, stdoutOf: (string, string) -> string)
      ensures this.settings == settings && this.paths == paths && this.regions == regions
      ensures this.compileFails == compileFails && this.updateFails == updateFails
      ensures this.stderrOf == stderrOf && this.stdoutOf == stdoutOf
      ensures protocol == PyNone && bfile == PyNone && byzantine == PyNone && crash == PyNone
      ensures trace == []
    {
      this.settings := settings;
      this.paths := paths;
      this.regions := regions;
      this.compileFails := compileFails;
      this.updateFails := updateFails;
      this.stderrOf := stderrOf;
      this.stdoutOf := stdoutOf;
      protocol, bfile, byzantine, crash := PyNone, PyNone, PyNone, PyNone;
      trace := [];
    }

    /** `_background_run`: one remote command, whose stderr is then checked. */
    method BackgroundRun(host: string, command: string, logFile: string) returns (err: Option<Error>)
      modifies this`trace
      ensures trace == old(trace) + [Event(Host(host), Shell(TmuxCommand(command, logFile)))]
      ensures var stderr := stderrOf(host, TmuxCommand(command, logFile));
        err == if stderr != [] then Some(ExecutionError(stderr)) else None
    {
      var cmd := TmuxCommand(command, logFile);
      trace := trace + [Event(Host(host), Shell(cmd))];
      err := CheckStderr(Single(stderrOf(host, cmd)));
    }

    /** One launch of the boot loop: its command is built first, so a failed assertion launches nothing. */
    method Start(l: Launch) returns (err: Option<Error>)
      modifies this`trace
      ensures trace == old(trace) + LaunchOne(stderrOf, l).0 && err == LaunchOne(stderrOf, l).1
    {
      var command := CommandOf(l.program);
      if command.None? {
        return Some(AssertionError);
      }
      err := BackgroundRun(l.host, command.value, l.logFile);
    }

    /** Starts `steps` in order, up to the first failed launch. */
    method StartAll(steps: seq<Launch>) returns (err: Option<Error>)
      modifies this`trace
      ensures trace == old(trace) + Launched(stderrOf, steps).0 && err == Launched(stderrOf, steps).1
    {
      var k := 0;
      while k < |steps|
        invariant 0 <= k <= |steps|
        invariant trace == old(trace) + Launched(stderrOf, steps[..k]).0
        invariant Launched(stderrOf, steps[..k]).1.None?
      {
        err := Start(steps[k]);
        LaunchedStep(stderrOf, steps, k);
        if err.Some? {
          LaunchedStops(stderrOf, steps, k + 1);
          return;
        }
        k := k + 1;
      }
      assert steps[..k] == steps;
      err := None;
    }

    /** The boot loop of `_config`: every host's launches, host by host, up to the first failure. */
    method Boot(hosts: seq<string>) returns (err: Option<Error>)
      modifies this`trace
      ensures var boot := Launched(stderrOf, BootSteps(paths, protocol, bfile, byzantine, crash, hosts, |hosts|));
        trace == old(trace) + boot.0 && err == boot.1
    {
      err := StartAll(BootSteps(paths, protocol, bfile, byzantine, crash, hosts, |hosts|));
    }

    /** The upload loop of `_config` over the hosts that receive files. */
    method Upload(hosts: seq<string>, faults: int)
      modifies this`trace
      ensures UploadCount(|hosts|, faults) <= |hosts|
      ensures trace == old(trace) + UploadEvents(paths, hosts, UploadCount(|hosts|, faults))
    {
      var names := PyPrefix(Names(|hosts|), |hosts| - faults);
      var i := 0;
      while i < |names|
        invariant 0 <= i <= |names| <= |hosts|
        invariant trace == old(trace) + UploadEvents(paths, hosts, i)
      {
        UploadTo(i, hosts[i]);
        i := i + 1;
      }
    }

    /** One round of the upload loop: clear the results, then send host `i` its files. */
    method UploadTo(i: nat, host: string)
      modifies this`trace
      ensures trace == old(trace) + HostUploads(paths, i, host)
    {
      var t := Host(host);
      var sent := [Event(t, Shell(Cleanup(paths.resultsPath) + " || true"))];
      if i == 0 {
        sent := sent + [Event(t, Put(paths.syncerFile))];
      }
      sent := sent + [Event(t, Put(paths.keyFile(i))), Event(t, Put(paths.tKeyFile)), Event(t, Put(paths.tTestdataFile)), Event(t, Put("ip_file"))];
      trace := trace + sent;
    }

    /** The local steps of `_config`; `None` unless the compilation fails. */
    method Setup(n: nat) returns (err: Option<Error>)
      modifies this`trace
      ensures trace == old(trace) + SetupEvents(paths, settings, n, compileFails)
      ensures err == if compileFails then Some(CalledProcessError) else None
    {
      trace := trace + [Event(Localhost, Shell(Cleanup(paths.resultsPath)))];
      trace := trace + [Event(Localhost, Exec(["cargo", "build", "--quiet", "--release"]))];
      if compileFails {
        return Some(CalledProcessError);
      }
      var alias := AliasBinaries(PyStr(paths.binaryPath));
      trace := trace + [Event(Localhost, Shell(alias.value))];
      trace := trace + [Event(Localhost, Shell(GenerateConfigFiles(PyInt(settings.basePort), PyInt(settings.clientBasePort),
                                                                    PyInt(settings.clientRunPort), PyInt(n))))];
      err := None;
    }

    /** `_config` on a flat list of hosts. */
    method Config(hosts: seq<string>, collocate: bool, workers: nat, faults: int) returns (r: Result<seq<(string, Address)>, Error>)
      modifies this`trace
      ensures var c := ConfigRun(paths, settings, stderrOf, compileFails, protocol, bfile, byzantine, crash, hosts, collocate, workers, faults);
        trace == old(trace) + c.0 && r == c.1
    {
      var err := Setup(|hosts|);
      if err.Some? {
        return Failure(err.value);
      }
      var files := BuildAddressFiles(hosts, settings);
      if files.Failure? {
        return Failure(files.error);
      }
      var committee := Committee(hosts, collocate, workers);
      ghost var setup := trace;
      trace := trace + [Event(Localhost, Write("ip_file", files.value.ipFile)), Event(Localhost, Write("syncer", files.value.syncer)),
                        Event(Localhost, PrintConfig(paths.committeeFile)), Event(Localhost, PrintConfig(paths.parametersFile))];
      ghost var files' := FileEvents(paths, settings, hosts);
      Upload(hosts, faults);
      ghost var uploads := UploadEvents(paths, hosts, UploadCount(|hosts|, faults));
      err := Boot(hosts);
      ghost var boot := Launched(stderrOf, BootSteps(paths, protocol, bfile, byzantine, crash, hosts, |hosts|)).0;
      ghost var local := SetupEvents(paths, settings, |hosts|, false);
      assert trace == old(trace) + local + files' + uploads + boot;
      AppendAssoc(old(trace), local, files', uploads, boot);
      if err.Some? {
        return Failure(err.value);
      }
      r := Success(committee);
    }

    /**
     * `run`: checks `debug`, records the benchmark parameters, selects the
     * hosts, updates them and configures them.
     */
    method Run(params: BenchParameters, debug: PyValue) returns (r: Result<Outcome, Error>)
      modifies this
      ensures !debug.PyBool? ==> r == Failure(AssertionError) && trace == old(trace)
      ensures !debug.PyBool? ==>
        protocol == old(protocol) && bfile == old(bfile) && byzantine == old(byzantine) && crash == old(crash)
      ensures debug.PyBool? ==>
        protocol == params.protocol && bfile == params.bfile && byzantine == params.byzantine && crash == params.crash
      ensures debug.PyBool? && params.nodes == [] ==> r == Failure(ValueError) && trace == old(trace)
      ensures debug.PyBool? && params.nodes != [] ==>
        var sel := Selected(regions, params.collocate, params.workers, MaxNodes(params.nodes).value);
        var update := Event(Machines(UpdatedMachines(sel)), UpdatePipeline);
        && (IsEmpty(sel) ==> r == Success(NotEnoughInstances) && trace == old(trace))
        && (!IsEmpty(sel) && updateFails ==>
              trace == old(trace) + [update] && r == Failure(BenchError("Failed to update nodes", Some(FabricError))))
        && (!IsEmpty(sel) && !updateFails ==>
              var c := ConfigOutcome(paths, settings, stderrOf, compileFails, protocol, bfile, byzantine, crash, sel, params);
              trace == old(trace) + [update] + c.0 && r == c.1)
    {
      if !debug.PyBool? {
        return Failure(AssertionError);
      }
      protocol := params.protocol;
      bfile := params.bfile;
      byzantine := params.byzantine;
      crash := params.crash;
      var nodes := MaxNodes(params.nodes);
      if nodes.None? {
        return Failure(ValueError);
      }
      var sel := SelectHosts(regions, params.collocate, params.workers, nodes.value);
      if IsEmpty(sel) {
        return Success(NotEnoughInstances);
      }
      trace := trace + [Event(Machines(UpdatedMachines(sel)), UpdatePipeline)];
      if updateFails {
        return Failure(BenchError("Failed to update nodes", Some(FabricError)));
      }
      r := Configure(sel, params);
    }

    /** The `_config` call of `run`, with its subprocess failures wrapped. */
    method Configure(sel: Selection, params: BenchParameters) returns (r: Result<Outcome, Error>)
      modifies this`trace
      ensures var c := ConfigOutcome(paths, settings, stderrOf, compileFails, protocol, bfile, byzantine, crash, sel, params);
        trace == old(trace) + c.0 && r == c.1
    {
      match sel
      case Grouped(groups) =>
        var err := Setup(|groups|);
        r := Failure(if err.Some? then BenchError("Failed to configure nodes", Some(CalledProcessError)) else TypeError);
      case Flat(hosts) =>
        var c := Config(hosts, params.collocate, params.workers, params.faults);
        match c
        case Success(committee) => r := Success(Configured(committee));
        case Failure(e) => r := Failure(if e == CalledProcessError then BenchError("Failed to configure nodes", Some(e)) else e);
    }

    /**
     * `pull_logs`: runs the latency script on the first selected host and
     * reads its report back.
     */
    method PullLogs(params: BenchParameters) returns (r: Result<PullReport, Error>)
      modifies this`trace
      ensures params.nodes == [] ==> r == Failure(ValueError) && trace == old(trace)
      ensures params.nodes != [] ==>
        var n := MaxNodes(params.nodes).value;
        var sel := Selected(regions, params.collocate, params.workers, n);
        && (IsEmpty(sel) ==> r == Failure(BenchError("No hosts available", None)) && trace == old(trace))
        && (!IsEmpty(sel) ==>
              (sel.Grouped? ==> |sel.groups[0]| > 0)
              && var host := FirstHost(sel);
              && trace == old(trace) + [Event(Host(host), Shell(LatencyScript(n)))]
              && r == PullResult(stdoutOf(host, LatencyScript(n)), n))
    {
      var nodes := MaxNodes(params.nodes);
      if nodes.None? {
        return Failure(ValueError);
      }
      var n := nodes.value;
      var sel := SelectHosts(regions, params.collocate, params.workers, n);
      if IsEmpty(sel) {
        return Failure(BenchError("No hosts available", None));
      }
      SelectedGroupsNonEmpty(regions, params.collocate, params.workers, n);
      var host := if sel.Flat? then sel.hosts[0] else sel.groups[0][0];
      var cmd := LatencyScript(n);
      trace := trace + [Event(Host(host), Shell(cmd))];
      r := ReadLatencies(stdoutOf(host, cmd), n);
    }
  }

  /** The parsing half of `pull_logs`: averages per payload size, and the missing ids. */
  method ReadLatencies(output: string, n: nat) returns (r: Result<PullReport, Error>)
    ensures r == PullResult(output, n)
  {
    var matches := FindLatencyRecords(output);
    var latencyData: Dict<nat, seq<real>> := Empty();
    var seenIds: seq<nat> := [];
    var k := 0;
    while k < |matches|
      invariant 0 <= k <= |matches|
      invariant LatencyPairs(matches[..k]).Some?
      invariant latencyData == Group(LatencyPairs(matches[..k]).value)
      invariant seenIds == SeenIds(matches[..k])
    {
      var size := DigitsValue(matches[k].size);
      var latency := ParseDecimal(matches[k].latency);
      if latency.None? {
        LatencyPairsFail(matches, k);
        return Failure(ValueError);
      }
      LatencyStep(matches, k);
      latencyData := AppendTo(latencyData, size, latency.value);
      seenIds := seenIds + [DigitsValue(matches[k].id)];
      k := k + 1;
    }
    assert matches[..k] == matches;
    var averages := Means(latencyData);
    var missing := MissingIds(n, seenIds);
    r := Success(PullReport(averages, missing));
  }

  /** One more parsed record: its pair joins its size's group and its id the seen ids. */
  lemma LatencyStep(recs: seq<LatencyRecord>, k: nat)
    requires forall j :: 0 <= j < |recs| ==> WellFormed(recs[j])
    requires k < |recs| && WellFormed(recs[k]) && LatencyPairs(recs[..k]).Some? && ParseDecimal(recs[k].latency).Some?
    ensures LatencyPairs(recs[..k + 1]).Some?
    ensures Group(LatencyPairs(recs[..k + 1]).value)
         == AppendTo(Group(LatencyPairs(recs[..k]).value), DigitsValue(recs[k].size), ParseDecimal(recs[k].latency).value)
    ensures SeenIds(recs[..k + 1]) == SeenIds(recs[..k]) + [DigitsValue(recs[k].id)]
  {
    assert recs[..k + 1][..k] == recs[..k];
    var pairs := LatencyPairs(recs[..k]).value;
    var p := (DigitsValue(recs[k].size), ParseDecimal(recs[k].latency).value);
    assert LatencyPairs(recs[..k + 1]) == Some(pairs + [p]);
    assert (pairs + [p])[..|pairs|] == pairs;
  }

  lemma {:induction false} LatencyPairsFail(recs: seq<LatencyRecord>, k: nat)
    requires forall j :: 0 <= j < |recs| ==> WellFormed(recs[j])
    requires k < |recs| && WellFormed(recs[k]) && ParseDecimal(recs[k].latency).None?
    ensures LatencyPairs(recs).None?
    decreases |recs|
  {
    if k < |recs| - 1 {
      LatencyPairsFail(recs[..|recs| - 1], k);
    }
  }
}
