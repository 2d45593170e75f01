/**
 * The shell command lines the benchmark driver sends to the hosts
 * (benchmark/benchmark/commands.py, class `CommandMaker`).
 *
 * Arguments are dynamically typed in the source, and several renderers
 * check their arguments' types with `assert isinstance(...)`. Each argument
 * is therefore a `PyValue`, and a renderer that asserts returns `None`
 * exactly when one of its assertions fails (the `AssertionError` path).
 * Every command line is written as its words separated by single spaces,
 * which is the text the f-strings of the source produce.
 */
module Commands {
  import opened Wrappers
  import opened Text
  import opened Paths

  /** The Python values the renderers receive. */
  datatype PyValue =
    | PyStr(s: string)
    | PyInt(i: int)
    | PyBool(b: bool)
    | PyNone
    | PyList(items: seq<PyValue>)

  /** `isinstance(v, int)`: Python's `bool` is a subclass of `int`. */
  predicate IsInt(v: PyValue) { v.PyInt? || v.PyBool? }

  /** The integer value of an `int` (with `True == 1`, `False == 0`). */
  function IntValue(v: PyValue): int
    requires IsInt(v)
  {
    match v
    case PyInt(i) => i
    case PyBool(b) => if b then 1 else 0
  }

  /** `str(v)`, as an f-string placeholder renders `v`; strings inside a list are quoted without escaping. */
  function Str(v: PyValue): string
  {
    match v
    case PyStr(s) => s
    case PyInt(i) => IntToString(i)
    case PyBool(b) => if b then "True" else "False"
    case PyNone => "None"
    case PyList(items) =>
      "[" + Join(", ", seq(|items|, i requires 0 <= i < |items| =>
                            if items[i].PyStr? then "'" + items[i].s + "'" else Str(items[i]))) + "]"
  }

  /** `str(b).lower()` for a flag value. */
  function LowerStr(v: PyValue): (r: string)
    ensures v.PyBool? ==> r == (if v.b then "true" else "false")
  {
    Lower(Str(v))
  }

  /** A command line: the words separated by single spaces. */
  function Line(words: seq<string>): string
  {
    Join(" ", words)
  }

  /** A space-free word: splitting a line on single spaces keeps it whole. */
  predicate Word(s: string) { NoSpace(s) }

  predicate AllWords(ws: seq<string>) { forall i :: 0 <= i < |ws| ==> Word(ws[i]) }

  lemma LineWords(ws: seq<string>)
    requires |ws| > 0 && AllWords(ws)
    ensures Split(Line(ws)) == ws
  {
    SplitJoin(ws);
  }

  // ---------------------------------------------------------------- renderers

  /** `cleanup()`: removes the stores and configurations, keeps a results directory. */
  function CleanupWords(resultsPath: string): seq<string>
  {
    ["rm", "-r", ".db-*", ";", "rm", ".*.json", ";", "mkdir", "-p", resultsPath]
  }

  function Cleanup(resultsPath: string): string
  {
    Line(CleanupWords(resultsPath))
  }

  function CleanLogsWords(logsPath: string): seq<string>
  {
    ["rm", "-r", logsPath, ";", "mkdir", "-p", logsPath]
  }

  function CleanLogs(logsPath: string): string
  {
    Line(CleanLogsWords(logsPath))
  }

  const Compile: string := "cargo build --quiet --release"

  const Kill: string := "tmux kill-server"

  function GenerateKey(filename: PyValue): (r: Option<string>)
    ensures r.Some? <==> filename.PyStr?
  {
    if filename.PyStr? then Some(Line(["./node", "generate_keys", "--filename", filename.s])) else None
  }

  function GenerateConfigWords(bport: PyValue, clientBport: PyValue, clientRunPort: PyValue, numNodes: PyValue): seq<string>
  {
    ["./genconfig", "--blocksize", "100", "--delay", "100", "--base_port", Str(bport),
     "--client_base_port", Str(clientBport), "--NumNodes", Str(numNodes), "--target", ".",
     "--client_run_port", Str(clientRunPort), "--local", "true"]
  }

  /** `generate_config_files(...)`: no assertions, every argument is rendered with `str`. */
  function GenerateConfigFiles(bport: PyValue, clientBport: PyValue, clientRunPort: PyValue, numNodes: PyValue): string
  {
    Line(GenerateConfigWords(bport, clientBport, clientRunPort, numNodes))
  }

  function RunPrimaryWords(key: string, protocol: string, bfile: string, byzantine: bool, crash: bool): seq<string>
  {
    ["ulimit", "-n", "8500;", "./node", "--config", key, "--ip", "ip_file", "--protocol", protocol,
     "--input", "xx", "--syncer", "syncer", "--bfile", bfile,
     "--byzantine", LowerStr(PyBool(byzantine)), "--crash", LowerStr(PyBool(crash))]
  }

  /**
   * `run_primary(...)`: all six arguments are type-checked; `debug` is
   * checked but does not change the command.
   */
  function RunPrimary(key: PyValue, protocol: PyValue, bfile: PyValue, byzantine: PyValue, crash: PyValue, debug: PyValue): (r: Option<string>)
    ensures r.Some? <==> key.PyStr? && protocol.PyStr? && bfile.PyStr? && byzantine.PyBool? && crash.PyBool? && debug.PyBool?
  {
    if key.PyStr? && protocol.PyStr? && bfile.PyStr? && byzantine.PyBool? && crash.PyBool? && debug.PyBool?
    then Some(Line(RunPrimaryWords(key.s, protocol.s, bfile.s, byzantine.b, crash.b)))
    else None
  }

  function RunSyncerWords(key: string, bfile: PyValue, byzantine: PyValue): seq<string>
  {
    ["ulimit", "-n", "8500;", "./node", "--config", key, "--ip", "ip_file", "--protocol", "sync",
     "--input", "xx", "--syncer", "syncer", "--bfile", Str(bfile), "--byzantine", LowerStr(byzantine)]
  }

  /**
   * `run_syncer(...)`: only `key` and `debug` are type-checked; the node
   * runs the `sync` protocol and gets no `--crash` flag.
   */
  function RunSyncer(key: PyValue, bfile: PyValue, byzantine: PyValue, debug: PyValue): (r: Option<string>)
    ensures r.Some? <==> key.PyStr? && debug.PyBool?
  {
    if key.PyStr? && debug.PyBool? then Some(Line(RunSyncerWords(key.s, bfile, byzantine))) else None
  }

  function UnzipTkeys(fileloc: PyValue): string
  {
    Line(["tar", "-xvzf", Str(fileloc)])
  }

  function Verbosity(debug: bool): string
  {
    if debug then "-vvv" else "-vv"
  }

  function RunWorkerWords(keys: string, committee: string, store: PyValue, parameters: string, id: PyValue, debug: bool): seq<string>
  {
    ["./node", Verbosity(debug), "run", "--keys", keys, "--committee", committee,
     "--store", Str(store), "--parameters", parameters, "worker", "--id", Str(id)]
  }

  /** `run_worker(...)`: `store` and `id` are not type-checked. */
  function RunWorker(keys: PyValue, committee: PyValue, store: PyValue, parameters: PyValue, id: PyValue, debug: PyValue): (r: Option<string>)
    ensures r.Some? <==> keys.PyStr? && committee.PyStr? && parameters.PyStr? && debug.PyBool?
  {
    if keys.PyStr? && committee.PyStr? && parameters.PyStr? && debug.PyBool?
    then Some(Line(RunWorkerWords(keys.s, committee.s, store, parameters.s, id, debug.b)))
    else None
  }

  predicate AllStr(items: seq<PyValue>) { forall i :: 0 <= i < |items| ==> items[i].PyStr? }

  function Strs(items: seq<PyValue>): (r: seq<string>)
    requires AllStr(items)
    ensures |r| == |items| && forall i :: 0 <= i < |items| ==> r[i] == items[i].s
  {
    if items == [] then [] else [items[0].s] + Strs(items[1..])
  }

  /** The checks `run_client` makes before rendering. */
  predicate ClientArgsOk(address: PyValue, size: PyValue, rate: PyValue, nodes: PyValue)
  {
    && address.PyStr?
    && IsInt(size) && IntValue(size) > 0
    && IsInt(rate) && IntValue(rate) >= 0
    && nodes.PyList? && AllStr(nodes.items)
  }

  function RunClientWords(address: string, size: PyValue, rate: PyValue, nodes: seq<string>): seq<string>
  {
    ["./benchmark_client", address, "--size", Str(size), "--rate", Str(rate)]
    + (if nodes == [] then [""] else ["--nodes"] + nodes)
  }

  /**
   * `run_client(...)`: the node list is passed after `--nodes` when it is
   * not empty; an empty list leaves a trailing space.
   */
  function RunClient(address: PyValue, size: PyValue, rate: PyValue, nodes: PyValue): (r: Option<string>)
    ensures r.Some? <==> ClientArgsOk(address, size, rate, nodes)
  {
    if ClientArgsOk(address, size, rate, nodes)
    then Some(Line(RunClientWords(address.s, size, rate, Strs(nodes.items))))
    else None
  }

  const RemoveBinaryWords: seq<string> := ["rm", "node", ";", "rm", "benchmark_client", ";", "rm", "genconfig", ";"]

  function LinkWords(target: string): seq<string>
  {
    ["ln", "-s", target, "."]
  }

  function AliasWords(node: string, client: string, genconfig: string): seq<string>
  {
    RemoveBinaryWords + LinkWords(node) + [";"] + LinkWords(client) + [";"] + LinkWords(genconfig)
  }

  /** `alias_binaries(origin)`: links the three binaries built under `origin`. */
  function AliasBinaries(origin: PyValue): (r: Option<string>)
    ensures r.Some? <==> origin.PyStr?
  {
    if origin.PyStr?
    then Some(Line(AliasWords(PathJoin(origin.s, "node"), PathJoin(origin.s, "benchmark_client"), PathJoin(origin.s, "genconfig"))))
    else None
  }

  // ------------------------------------------------- what the binaries receive

  /** The primary node's words, for arguments of the asserted types. */
  lemma RunPrimarySplit(key: string, protocol: string, bfile: string, byzantine: bool, crash: bool, debug: bool)
    requires Word(key) && Word(protocol) && Word(bfile)
    ensures var r := RunPrimary(PyStr(key), PyStr(protocol), PyStr(bfile), PyBool(byzantine), PyBool(crash), PyBool(debug));
      r.Some? && Split(r.value) == RunPrimaryWords(key, protocol, bfile, byzantine, crash)
  {
    RunPrimaryWordsAreWords(key, protocol, bfile, byzantine, crash);
    LineWords(RunPrimaryWords(key, protocol, bfile, byzantine, crash));
  }

  /** The fixed words of the node commands. */
  lemma NodeFlagsAreWords()
    ensures Word("ulimit") && Word("-n") && Word("8500;") && Word("./node") && Word("--config")
    ensures Word("--ip") && Word("ip_file") && Word("--protocol") && Word("sync") && Word("--input") && Word("xx")
    ensures Word("--syncer") && Word("syncer") && Word("--bfile") && Word("--byzantine") && Word("--crash")
    ensures Word("true") && Word("false")
  {
  }

  lemma RunPrimaryWordsAreWords(key: string, protocol: string, bfile: string, byzantine: bool, crash: bool)
    requires Word(key) && Word(protocol) && Word(bfile)
    ensures AllWords(RunPrimaryWords(key, protocol, bfile, byzantine, crash))
  {
    var ws := RunPrimaryWords(key, protocol, bfile, byzantine, crash);
    NodeFlagsAreWords();
    forall i | 0 <= i < |ws| ensures Word(ws[i]) {
    }
  }

  /**
   * The primary node receives its key file, protocol and bench file after
   * their flags, and `--byzantine` / `--crash` as `true` or `false`.
   */
  lemma RunPrimaryArguments(key: string, protocol: string, bfile: string, byzantine: bool, crash: bool, debug: bool)
    requires Word(key) && Word(protocol) && Word(bfile)
    ensures var r := RunPrimary(PyStr(key), PyStr(protocol), PyStr(bfile), PyBool(byzantine), PyBool(crash), PyBool(debug));
      && r.Some?
      && var argv := Split(r.value);
      && |argv| == 20
      && argv[3] == "./node"
      && argv[4] == "--config" && argv[5] == key
      && argv[8] == "--protocol" && argv[9] == protocol
      && argv[14] == "--bfile" && argv[15] == bfile
      && argv[16] == "--byzantine" && argv[17] == (if byzantine then "true" else "false")
      && argv[18] == "--crash" && argv[19] == (if crash then "true" else "false")
  {
    RunPrimarySplit(key, protocol, bfile, byzantine, crash, debug);
    RunPrimaryWordsAt(key, protocol, bfile, byzantine, crash);
  }

  lemma RunPrimaryWordsAt(key: string, protocol: string, bfile: string, byzantine: bool, crash: bool)
    ensures var ws := RunPrimaryWords(key, protocol, bfile, byzantine, crash);
      && |ws| == 20
      && ws[3] == "./node"
      && ws[4] == "--config" && ws[5] == key
      && ws[8] == "--protocol" && ws[9] == protocol
      && ws[14] == "--bfile" && ws[15] == bfile
      && ws[16] == "--byzantine" && ws[17] == (if byzantine then "true" else "false")
      && ws[18] == "--crash" && ws[19] == (if crash then "true" else "false")
  {
  }

  /** The syncer runs the `sync` protocol and gets no `--crash` flag. */
  lemma RunSyncerArguments(key: string, bfile: string, byzantine: bool, debug: bool)
    requires Word(key) && Word(bfile)
    ensures var r := RunSyncer(PyStr(key), PyStr(bfile), PyBool(byzantine), PyBool(debug));
      && r.Some?
      && var argv := Split(r.value);
      && |argv| == 18
      && argv[4] == "--config" && argv[5] == key
      && argv[8] == "--protocol" && argv[9] == "sync"
      && argv[14] == "--bfile" && argv[15] == bfile
      && argv[16] == "--byzantine" && argv[17] == (if byzantine then "true" else "false")
  {
    RunSyncerWordsAreWords(key, bfile, byzantine);
    LineWords(RunSyncerWords(key, PyStr(bfile), PyBool(byzantine)));
  }

  lemma RunSyncerWordsAreWords(key: string, bfile: string, byzantine: bool)
    requires Word(key) && Word(bfile)
    ensures AllWords(RunSyncerWords(key, PyStr(bfile), PyBool(byzantine)))
  {
    var ws := RunSyncerWords(key, PyStr(bfile), PyBool(byzantine));
    NodeFlagsAreWords();
    forall i | 0 <= i < |ws| ensures Word(ws[i]) {
    }
  }

  /** The worker runs at `-vvv` exactly when `debug` is set, and gets its id after `--id`. */
  lemma RunWorkerArguments(keys: string, committee: string, store: string, parameters: string, id: nat, debug: bool)
    requires Word(keys) && Word(committee) && Word(store) && Word(parameters)
    ensures var r := RunWorker(PyStr(keys), PyStr(committee), PyStr(store), PyStr(parameters), PyInt(id), PyBool(debug));
      && r.Some?
      && var argv := Split(r.value);
      && |argv| == 14
      && (argv[1] == "-vvv" <==> debug)
      && argv[3] == "--keys" && argv[4] == keys
      && argv[5] == "--committee" && argv[6] == committee
      && argv[12] == "--id" && argv[13] == NatToString(id)
  {
    RunWorkerWordsAreWords(keys, committee, store, parameters, id, debug);
    LineWords(RunWorkerWords(keys, committee, PyStr(store), parameters, PyInt(id), debug));
  }

  lemma RunWorkerWordsAreWords(keys: string, committee: string, store: string, parameters: string, id: nat, debug: bool)
    requires Word(keys) && Word(committee) && Word(store) && Word(parameters)
    ensures AllWords(RunWorkerWords(keys, committee, PyStr(store), parameters, PyInt(id), debug))
    ensures Str(PyInt(id)) == NatToString(id)
  {
    var ws := RunWorkerWords(keys, committee, PyStr(store), parameters, PyInt(id), debug);
    assert Str(PyInt(id)) == NatToString(id);
    forall i | 0 <= i < |ws| ensures Word(ws[i]) {
    }
  }

  lemma RunClientWordsAreWords(address: string, size: nat, rate: nat, nodes: seq<string>)
    requires Word(address) && AllWords(nodes)
    ensures AllWords(RunClientWords(address, PyInt(size), PyInt(rate), nodes))
  {
    var ws := RunClientWords(address, PyInt(size), PyInt(rate), nodes);
    assert Str(PyInt(size)) == NatToString(size) && Str(PyInt(rate)) == NatToString(rate);
    assert AllDigits(NatToString(size)) && AllDigits(NatToString(rate));
    forall i | 0 <= i < |ws| ensures Word(ws[i]) {
      if i >= 7 { assert ws[i] == nodes[i - 7]; }
    }
  }

  /**
   * The client receives the rendered size and rate and, when the node list
   * is not empty, every node after `--nodes`, in order; with an empty list
   * the command ends with an empty word and there is no `--nodes` flag.
   */
  lemma RunClientArguments(address: string, size: nat, rate: nat, nodes: seq<string>)
    requires Word(address) && size > 0 && AllWords(nodes)
    ensures var items := seq(|nodes|, i requires 0 <= i < |nodes| => PyStr(nodes[i]));
      var r := RunClient(PyStr(address), PyInt(size), PyInt(rate), PyList(items));
      && r.Some?
      && var argv := Split(r.value);
      && |argv| >= 7
      && argv[1] == address
      && argv[2] == "--size" && argv[3] == NatToString(size)
      && argv[4] == "--rate" && argv[5] == NatToString(rate)
      && (nodes == [] ==> argv[6..] == [""])
      && (nodes != [] ==> argv[6] == "--nodes" && argv[7..] == nodes)
  {
    var items := seq(|nodes|, i requires 0 <= i < |nodes| => PyStr(nodes[i]));
    assert Strs(items) == nodes;
    RunClientWordsAreWords(address, size, rate, nodes);
    LineWords(RunClientWords(address, PyInt(size), PyInt(rate), nodes));
  }

  lemma PathJoinWord(a: string, b: string)
    requires Word(a) && Word(b) && (b == [] || b[0] != '/')
    ensures Word(PathJoin(a, b))
  {
    if a == [] || a[|a| - 1] == '/' {
      NoSpaceConcat(a, b);
    } else {
      assert NoSpace("/");
      NoSpaceConcat(a, "/");
      NoSpaceConcat(a + "/", b);
    }
  }

  lemma AllWordsAppend(a: seq<string>, b: seq<string>)
    requires AllWords(a) && AllWords(b)
    ensures AllWords(a + b)
  {
    forall i | 0 <= i < |a + b| ensures Word((a + b)[i]) {
      if i < |a| { assert (a + b)[i] == a[i]; } else { assert (a + b)[i] == b[i - |a|]; }
    }
  }

  lemma AliasWordsAreWords(node: string, client: string, genconfig: string)
    requires Word(node) && Word(client) && Word(genconfig)
    ensures AllWords(AliasWords(node, client, genconfig))
  {
    assert AllWords(RemoveBinaryWords);
    assert AllWords([";"]);
    assert AllWords(LinkWords(node)) && AllWords(LinkWords(client)) && AllWords(LinkWords(genconfig));
    AllWordsAppend(RemoveBinaryWords, LinkWords(node));
    AllWordsAppend(RemoveBinaryWords + LinkWords(node), [";"]);
    AllWordsAppend(RemoveBinaryWords + LinkWords(node) + [";"], LinkWords(client));
    AllWordsAppend(RemoveBinaryWords + LinkWords(node) + [";"] + LinkWords(client), [";"]);
    AllWordsAppend(RemoveBinaryWords + LinkWords(node) + [";"] + LinkWords(client) + [";"], LinkWords(genconfig));
  }

  lemma AliasWordsSplit(node: string, client: string, genconfig: string)
    requires Word(node) && Word(client) && Word(genconfig)
    ensures var ws := AliasWords(node, client, genconfig);
      Split(Line(ws)) == ws && |ws| == 23 && ws[11] == node && ws[16] == client && ws[21] == genconfig
  {
    AliasWordsAreWords(node, client, genconfig);
    LineWords(AliasWords(node, client, genconfig));
  }

  /** A binary's path under `origin` is one word, and ends in the binary's name. */
  lemma JoinedBinary(origin: string, name: string)
    requires Word(origin) && Word(name) && NoSlash(name) && |name| > 0 && name[0] != '/'
    ensures Word(PathJoin(origin, name)) && Basename(PathJoin(origin, name)) == name
  {
    BasenameOfJoin(origin, name);
    PathJoinWord(origin, name);
  }

  /** The links point at the three binaries inside `origin`. */
  lemma AliasBinariesTargets(origin: string)
    requires Word(origin)
    ensures var r := AliasBinaries(PyStr(origin));
      && r.Some?
      && var argv := Split(r.value);
      && |argv| == 23
      && Basename(argv[11]) == "node"
      && Basename(argv[16]) == "benchmark_client"
      && Basename(argv[21]) == "genconfig"
  {
    JoinedBinary(origin, "node");
    JoinedBinary(origin, "benchmark_client");
    JoinedBinary(origin, "genconfig");
    AliasWordsSplit(PathJoin(origin, "node"), PathJoin(origin, "benchmark_client"), PathJoin(origin, "genconfig"));
  }
}
