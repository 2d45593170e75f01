# Reliable-broadcast benchmark: a Dafny model

This project models the core of a repository of reliable-broadcast (RBC) protocols and the tools that benchmark them. Five parts are modelled.

- **The benchmark driver** (`benchmark/benchmark`).
  - `CommandMaker` renders the shell command lines, with its argument assertions.
  - `LocalBench` runs every node on one machine.
  - The remote `Bench` covers four things: how it selects testbed hosts, what `_config` writes, uploads and boots (and in which order), how a background launch is named and checked, and how `pull_logs` reads the latency report back.
- **The log-aggregation scripts** (`scripts/aggregate.py`, `aggregate_msg_sizes.py`, `aggregate_and_plot.py`). They parse lines with regular expressions, group values in nested `defaultdict`s and reduce them to means, curves and plots.
- **The syncer** (`node/src/syncer.rs`), which coordinates a benchmark run:
  - it waits until every replica is ALIVE;
  - it starts one broadcast round with START;
  - it collects COMPLETED reports;
  - it logs the sorted latencies or the diverging values;
  - it sends STOP when its bound is reached.
- **The RBC message handlers** of four protocols:
  - addrbc: the echo phase, with the `get_max_*` counts;
  - ccbrb: INIT, ECHO, READY and message dispatch;
  - ctrbc: ECHO and READY;
  - borbc: ECHO and VOTE.
- **Shared helpers**:
  - `Text`: Python's `str()` of an integer, line and word splitting;
  - `Sorting`: `sorted()`;
  - `Grouping`: `defaultdict(list)`;
  - `LogFormats`: the regular expressions of the scripts;
  - `RbcCommon`: the accumulator loop, sender counting and shard recovery.

**How state is modelled.**
- Python code that mutates state is modelled with Dafny classes and loops:
  - `LocalBench` and `Bench` are classes with an event `trace`;
  - the aggregation loops build their dictionaries step by step.
- Pure renderers are functions.
- Each Rust handler works on one instance's `RBCState`:
  - a method on the state value computes the handler;
  - a step function or predicate specifies it;
  - lemmas prove properties of that step;
  - a `Context` class applies the step to `rbc_context` and to an outbox of effects (sends, broadcasts, `terminate`, panics).

**What is abstracted.**
- Anything the code cannot see is a parameter fixed at construction:
  - what a host prints;
  - whether a compilation or a tmux call fails;
  - hashes, erasure coding, Merkle proofs, `reconstruct_data`, MACs and `bincode`;
  - the iteration order of a `sec_key_map`.
- `HashMap` iteration order is left open: the maxima and the latency list are proved for every order.

Some behaviour of the source is modelled as written:
- ctrbc's echo phase broadcasts its READY even on a crashed replica (`consensus/ctrbc/src/protocol/echo.rs:103`), while the READY amplification checks `crash`.
- In borbc, the `n`-echo branch sets `terminated` before the recovery runs. A failed reconstruction then returns before `terminate` is called (`consensus/borbc/src/protocol/echo.rs:116`, 166-169).
- The syncer never sets `rbc_id` above 1. It therefore sends STOP only when `num_nodes * broadcast_msgs.len()` is at most 1 (`node/src/syncer.rs:204`, 215-217).

## Model

| member | source | states |
|---|---|---|
| Text.NatToString | benchmark/benchmark/remote.py:193-199 | `str(n)` is a non-empty run of digits without a leading zero |
| Text.NatToStringInjective | benchmark/benchmark/remote.py:193 | distinct indices render as distinct names `str(x)` |
| Text.SplitTerminated | benchmark/benchmark/remote.py:199-207 | a file written line by line, each line followed by a newline, reads back as those lines |
| Text.Lower | benchmark/benchmark/commands.py:41 | lower-casing maps each character on its own and keeps the length |
| Text.SplitJoin | benchmark/benchmark/local.py:40-62 | `split(' ')` of a non-empty list of space-free words joined by single spaces gives the list back |
| Commands.LowerStr | benchmark/benchmark/commands.py:41 | `str(b).lower()` of a flag is `true` or `false` |
| Commands.LineWords | benchmark/benchmark/commands.py:40-41 | a command line built from words without whitespace splits back into exactly those words |
| Commands.GenerateKey | benchmark/benchmark/commands.py:24-26 | the key-generation command exists exactly when `filename` is a string (the `assert isinstance` path) |
| Commands.RunPrimary | benchmark/benchmark/commands.py:33-41 | the primary's command exists exactly when key, protocol and bench file are strings and byzantine, crash and debug are booleans |
| Commands.RunSyncer | benchmark/benchmark/commands.py:45-49 | the syncer's command exists exactly when key is a string and debug a boolean; nothing else is checked |
| Commands.RunWorker | benchmark/benchmark/commands.py:57-64 | the worker's command exists exactly when keys, committee and parameters are strings and debug a boolean |
| Commands.Strs | benchmark/benchmark/commands.py:72 | a list of strings keeps its length and each element's text |
| Commands.RunClient | benchmark/benchmark/commands.py:67-74 | the client's command exists exactly when the address is a string, size a positive int, rate a non-negative int and nodes a list of strings |
| Commands.AliasBinaries | benchmark/benchmark/commands.py:81-85 | the alias command exists exactly when `origin` is a string |
| Commands.RunPrimarySplit | benchmark/benchmark/commands.py:40-41 | the primary's command, split on spaces, is its word list |
| Commands.RunPrimaryWordsAreWords | benchmark/benchmark/commands.py:40-41 | every word of the primary's command is a space-free word when key, protocol and bench file are |
| Commands.RunPrimaryArguments | benchmark/benchmark/commands.py:40-41 | the node receives its key, protocol and bench file right after `--config`, `--protocol` and `--bfile`, and `--byzantine`/`--crash` as `true`/`false` |
| Commands.RunPrimaryWordsAt | benchmark/benchmark/commands.py:40-41 | the positions of each flag and value in the primary's word list |
| Commands.RunSyncerArguments | benchmark/benchmark/commands.py:48-49 | the syncer runs the `sync` protocol, receives its key and bench file, and gets no `--crash` flag |
| Commands.RunSyncerWordsAreWords | benchmark/benchmark/commands.py:48-49 | every word of the syncer's command is a space-free word |
| Commands.RunWorkerArguments | benchmark/benchmark/commands.py:62-64 | the worker runs at `-vvv` exactly when debug is set and receives its id after `--id` |
| Commands.RunWorkerWordsAreWords | benchmark/benchmark/commands.py:63-64 | every word of the worker's command is a space-free word, the id rendered in decimal |
| Commands.RunClientWordsAreWords | benchmark/benchmark/commands.py:73-74 | every word of the client's command is a space-free word |
| Commands.RunClientArguments | benchmark/benchmark/commands.py:73-74 | the client receives size and rate in decimal and, for a non-empty node list, every node after `--nodes` in order; an empty list leaves no `--nodes` flag |
| Commands.PathJoinWord | benchmark/benchmark/commands.py:84 | joining two space-free words with `os.path.join` gives a space-free word |
| Commands.AliasWordsAreWords | benchmark/benchmark/commands.py:85 | every word of the alias command is a space-free word |
| Commands.AliasWordsSplit | benchmark/benchmark/commands.py:85 | the alias command removes the three old links and links the three given paths |
| Commands.JoinedBinary | benchmark/benchmark/commands.py:84 | a binary's path under `origin` is a space-free word whose base name is the binary's name |
| Commands.AliasBinariesTargets | benchmark/benchmark/commands.py:81-85 | the links point at `node`, `benchmark_client` and `genconfig` inside `origin` |
| Local.BuildIpFile | benchmark/benchmark/local.py:78-81 | the loop's text is the local `ip_file` of `range(nodes)`: one `127.0.0.1:(9000 + x)` line per node |
| Local.LocalIpFileLines | benchmark/benchmark/local.py:77-83 | read back line by line, the `ip_file` has exactly `nodes` lines, line `x` naming port `9000 + x`, and no client line |
| Local.LoopbackHostsAt | benchmark/benchmark/local.py:79-81 | every node of a local run is on the loopback address |
| Local.TmuxSession | benchmark/benchmark/local.py:27-29 | a launch logging to `dir/stem.ext` runs in the tmux session `stem` |
| Local.GenconfigSession | benchmark/benchmark/local.py:89-90 | the configuration generator, logging to `err.log`, runs in session `err` |
| Local.DeployStepsSpec | benchmark/benchmark/local.py:89-104 | the configuration generator is launched first and primary `i` is launch `i + 1`, for every node |
| Local.LaunchCommands | benchmark/benchmark/local.py:89-104 | the generator gets ports 9000, 10000, 9500 and the node count and logs to `err.log`; primary `i` gets `key_file(i)` and the bench fields and logs to `primary_log_file(i)` |
| Local.StartedNext | benchmark/benchmark/local.py:94-104 | after successful launches the next one is started |
| Local.StartedFirst | benchmark/benchmark/local.py:90 | the first launch alone is one start |
| Local.StartedStops | benchmark/benchmark/local.py:94-107 | once a launch raises, no later launch starts |
| Local.StartedSpec | benchmark/benchmark/local.py:89-104 | without a failure every launch starts, in order, each as one tmux session logging to its file |
| Local.LaunchesSnoc | benchmark/benchmark/local.py:94-104 | matched launches stay matched when one more starts |
| Local.StartedLast | benchmark/benchmark/local.py:94-104 | the events of successful launches end with the last launch's session |
| Local.StartOneOk | benchmark/benchmark/local.py:27-35 | a launch that succeeds rendered its command and started exactly one session |
| Local.StartedErrors | benchmark/benchmark/local.py:32-35 | a launch fails only on a failed `run_primary` assertion or a failed tmux call |
| Local.StartedNoKill | benchmark/benchmark/local.py:94-104 | launching never kills the nodes |
| Local.KillArgv | benchmark/benchmark/local.py:40 | `kill().split()` is `tmux kill-server` |
| Local.CompileArgv | benchmark/benchmark/local.py:62 | `compile().split()` is `cargo build --quiet --release` |
| Local.CompileWords | benchmark/benchmark/commands.py:21 | the compile command's words are space-free words |
| Local.CompileLine | benchmark/benchmark/commands.py:21 | the compile words join to the compile command |
| Local.TestbedKills | benchmark/benchmark/local.py:52-107 | inside `try`, the nodes are killed again exactly when compilation fails, which raises "Failed to run benchmark"; any other failure is an empty list, an assertion or a tmux failure |
| Local.LocalRunKills | benchmark/benchmark/local.py:45-107 | `run` kills the old testbed first, kills again exactly on a failed compilation, and fails only with the four listed errors |
| Local.LocalRunSuccess | benchmark/benchmark/local.py:45-104 | a run that raises nothing had a boolean debug, non-empty lists and a good build; it killed, cleaned, compiled, aliased, wrote `ip_file` and launched every step in order |
| Local.LocalRunFirstElements | benchmark/benchmark/local.py:54 | `run` reads only `nodes[0]` and `rate[0]` |
| Local.DeployStepsIgnoresLists | benchmark/benchmark/local.py:94-102 | the launches depend on the protocol, bench file and flags, not on the parameter lists |
| Local.LocalBench.constructor | benchmark/benchmark/local.py:16-22 | a new bench holds its paths, parameters and failure answers and has done nothing |
| Local.LocalBench.BackgroundRun | benchmark/benchmark/local.py:27-35 | records one tmux launch and fails exactly when that tmux call fails |
| Local.LocalBench.KillNodes | benchmark/benchmark/local.py:38-43 | records the kill and never fails, since its exit status is not checked |
| Local.LocalBench.Start | benchmark/benchmark/local.py:95-104 | renders the command first, so a failed assertion starts nothing; otherwise one background launch |
| Local.LocalBench.Deploy | benchmark/benchmark/local.py:66-104 | aliases the binaries, writes `ip_file`, then launches up to the first failure |
| Local.LocalBench.LaunchAll | benchmark/benchmark/local.py:89-104 | the generator, then the primary loop, up to the first failed launch |
| Local.LocalBench.Run | benchmark/benchmark/local.py:45-107 | its trace and error are those of `LocalRun` |
| Local.LocalBench.SetUpTestbed | benchmark/benchmark/local.py:52-107 | its trace and error are those of the `try` block |
| Paths.AfterLastSpec | benchmark/benchmark/local.py:28 | the index found is just past the last occurrence of the character, and none follows |
| Paths.BasenameNoSlash | benchmark/benchmark/local.py:28 | `basename` holds no slash |
| Paths.SplitextRoot | benchmark/benchmark/local.py:28 | the root `splitext` returns is a prefix of the path |
| Paths.BasenameOfJoin | benchmark/benchmark/commands.py:84 | the base name of `join(dir, name)` is `name` |
| Paths.SplitextRootOfName | benchmark/benchmark/local.py:28 | `splitext` of `stem.ext` keeps `stem` when the stem is not all dots |
| Paths.SessionNameOfLogFile | benchmark/benchmark/local.py:28 | a launch logging to `dir/stem.ext` runs in session `stem`, whatever the directory |
| Paths.SessionNameOfBareName | benchmark/benchmark/local.py:28 | a bare `stem.ext` runs in session `stem` |
| HostSelection.PyPrefix | benchmark/benchmark/remote.py:110 | Python's `s[:stop]` is a prefix of `s`, of length `stop` when in range and counted from the end when negative |
| HostSelection.MinLen | benchmark/benchmark/remote.py:108 | `zip` stops at the length of the shortest region, which is no longer than any region |
| HostSelection.RowsShape | benchmark/benchmark/remote.py:108-109 | the first `k` tuples of `zip(*regions)`, flattened, are `#regions × k` hosts in round-robin order |
| HostSelection.InterleaveShape | benchmark/benchmark/remote.py:108-109 | the interleaving holds `#regions × shortest` hosts, position `p` being host `p / R` of region `p % R` |
| HostSelection.CollocatedNotEnough | benchmark/benchmark/remote.py:102-105 | the collocated policy selects nothing when the regions hold fewer hosts in total than `max(nodes)` |
| HostSelection.CollocatedSelection | benchmark/benchmark/remote.py:98-110 | otherwise it selects the first `max(nodes)` hosts of the round-robin interleaving, `min(max(nodes), #regions × shortest)` of them |
| HostSelection.CollocatedShortRegion | benchmark/benchmark/remote.py:104-110 | regions of three and one host pass the total check for three nodes yet yield only two hosts |
| HostSelection.SelectSeparated | benchmark/benchmark/remote.py:115-130 | the separated policy selects nothing with fewer regions than primaries or when any region, chosen or not, holds fewer than `workers + 1` hosts; otherwise one group per primary, the first `workers + 1` hosts of each of the first regions in order |
| HostSelection.SelectHosts | benchmark/benchmark/remote.py:96-130 | `_select_hosts` returns a flat list under collocation and groups otherwise, as the two policies above |
| Addresses.PortLinesSnoc | benchmark/benchmark/remote.py:196-200 | one more loop round appends one `host:port` line |
| Addresses.PortLinesStep | benchmark/benchmark/remote.py:199 | the text accumulated over `x` rounds plus line `x` is the text of `x + 1` lines |
| Addresses.IntToStringNoNewline | benchmark/benchmark/remote.py:199 | a rendered port holds no newline |
| Addresses.PortLinesNoNewline | benchmark/benchmark/remote.py:199-200 | every `host:port` line of hosts without newlines is one line |
| Addresses.PortLinesRead | benchmark/benchmark/remote.py:196-200 | read back line by line, the text has one `hosts[x]:(base + x)` line per host |
| Addresses.PortLinesSplit | benchmark/benchmark/remote.py:196-200 | splitting the written text gives the lines back |
| Addresses.PortLinesAt | benchmark/benchmark/remote.py:199-200 | line `x` is `hosts[x]:(base + x)` |
| Remote.MaxNodes | benchmark/benchmark/remote.py:99 | `max(nodes)` is an element at least every element, and fails exactly on an empty list |
| Remote.CheckStderr | benchmark/benchmark/remote.py:46-53 | a single result raises its stderr when non-empty; a group raises the first non-empty stderr, and raises nothing exactly when every stderr is empty |
| Remote.UnzipSession | benchmark/benchmark/remote.py:133-259 | the unzip launch runs in the tmux session `unzip` |
| Remote.BuildAddressFiles | benchmark/benchmark/remote.py:193-201 | the loop fails on `hosts[0]` for an empty list, and otherwise yields the `ip_file` and `syncer` texts |
| Remote.IpFileLines | benchmark/benchmark/remote.py:196-204 | read back line by line, `ip_file` has `len(hosts) + 1` lines: `hosts[x]:(base_port + x)`, then `hosts[0]:client_run_port` |
| Remote.SyncerLines | benchmark/benchmark/remote.py:196-207 | `syncer` has `len(hosts)` lines `hosts[x]:(client_base_port + x)` |
| Remote.CommitteeSpec | benchmark/benchmark/remote.py:193-219 | member `i` is named `str(i)`, names are distinct, a collocated member lists its host `workers + 1` times and otherwise maps to the host |
| Remote.UploadCountSpec | benchmark/benchmark/remote.py:226 | `names[:len(names) - faults]` keeps `n - faults` hosts for `0 <= faults <= n`, all for negative `faults`, and Python's negative-slice count beyond `n` |
| Remote.UploadOrder | benchmark/benchmark/remote.py:226-238 | host `i` gets, in order, the cleanup, the syncer file on host 0 only, key file `i`, the threshold key, the test data and `ip_file` |
| Remote.UploadTargets | benchmark/benchmark/remote.py:226-229 | only the first hosts, those not cut off by `faults`, receive anything |
| Remote.BootLength | benchmark/benchmark/remote.py:247-270 | the syncer is launched first, on host 0, and each host adds two launches |
| Remote.BootOrder | benchmark/benchmark/remote.py:247-270 | launch `2i + 1` is host `i`'s unzip and `2i + 2` its primary, for every host including those cut off from the uploads |
| Remote.LaunchedSpec | benchmark/benchmark/remote.py:247-270 | launching stops at the first failure; with none, every launch is one remote command on its host |
| Remote.LaunchOneSpec | benchmark/benchmark/remote.py:132-270 | a launch makes at most one remote command, and one that succeeds ran its tmux command on its host |
| Remote.RunsOnSnoc | benchmark/benchmark/remote.py:247-270 | matched launches stay matched when one more is made |
| Remote.LaunchedAppend | benchmark/benchmark/remote.py:247-270 | launching `a` then `b` launches `b` only when `a` succeeded |
| Remote.LaunchedStep | benchmark/benchmark/remote.py:247-270 | after successful launches the next one is made |
| Remote.LaunchedStops | benchmark/benchmark/remote.py:247-270 | after a failed launch no later one is made |
| Remote.LaunchedErrors | benchmark/benchmark/remote.py:132-270 | a launch fails only on a failed renderer assertion or a non-empty stderr |
| Remote.BootPrefix | benchmark/benchmark/remote.py:247-270 | the boot loop over fewer hosts is a prefix of the full boot loop |
| Remote.ExpectedIdsSpec | benchmark/benchmark/remote.py:490-496 | the expected ids are exactly `i * 10000 + j` for node `i < n` and `j` in 1..6, ascending, `6n` of them |
| Remote.MissingFromSpec | benchmark/benchmark/remote.py:492-496 | the missing list holds exactly the expected ids not seen, ascending when the expected ones are |
| Remote.MissingIds | benchmark/benchmark/remote.py:490-496 | the nested loops collect the expected ids absent from the seen ids, in order |
| Remote.MissingIdsSpec | benchmark/benchmark/remote.py:490-499 | the warning names exactly the expected ids not seen, ascending |
| Remote.AveragesSpec | benchmark/benchmark/remote.py:480-488 | one average per payload size that occurs: the mean of every latency reported for it |
| Remote.SelectedGroupsNonEmpty | benchmark/benchmark/remote.py:469 | a non-empty grouped selection has a first host, so `selected_hosts[0][0]` exists |
| Remote.ConfigSucceeds | benchmark/benchmark/remote.py:164-413 | configuration succeeds exactly for a flat non-empty selection whose build and launches all succeed, and then yields the committee |
| Remote.ConfigTraceLength | benchmark/benchmark/remote.py:164-270 | a successful configuration made four local steps, wrote four files, uploaded to every kept host and made `2 * len(hosts) + 1` launches |
| Remote.ConfigRunErrors | benchmark/benchmark/remote.py:164-273 | `_config` fails only on a failed build, an empty host list, a renderer assertion or a remote stderr |
| Remote.ConfigErrors | benchmark/benchmark/remote.py:407-413 | a failed subprocess reaches `run`'s caller wrapped as "Failed to configure nodes"; any other failure passes unchanged |
| Remote.Bench.constructor | benchmark/benchmark/remote.py:35-44 | a new bench holds the testbed answers, has no benchmark fields set and has done nothing |
| Remote.Bench.BackgroundRun | benchmark/benchmark/remote.py:132-137 | one tmux command on the host, teeing into the log file; it fails exactly when that host's stderr is non-empty |
| Remote.Bench.Start | benchmark/benchmark/remote.py:261-270 | the command is rendered first, so a failed assertion launches nothing |
| Remote.Bench.StartAll | benchmark/benchmark/remote.py:247-270 | launches the steps in order up to the first failure |
| Remote.Bench.Boot | benchmark/benchmark/remote.py:247-270 | its trace and error are those of the boot loop |
| Remote.Bench.Upload | benchmark/benchmark/remote.py:226-238 | uploads to the hosts kept after the fault cut-off, in order |
| Remote.Bench.UploadTo | benchmark/benchmark/remote.py:229-238 | one host's cleanup and file uploads |
| Remote.Bench.Setup | benchmark/benchmark/remote.py:167-192 | cleanup and build, then, unless the build fails, the alias and the configuration generator |
| Remote.Bench.Config | benchmark/benchmark/remote.py:164-273 | its trace and result are those of `_config` on a flat list |
| Remote.Bench.Run | benchmark/benchmark/remote.py:379-413 | asserts `debug`, records the four benchmark fields, fails on an empty `nodes` list, returns when no host is selected, wraps update and configuration failures |
| Remote.Bench.Configure | benchmark/benchmark/remote.py:407-413 | the `_config` call with subprocess failures wrapped; a grouped selection fails on `hosts[x] + ":"` |
| Remote.Bench.PullLogs | benchmark/benchmark/remote.py:452-504 | asks the first selected host for the latency report of `max(nodes)` nodes and returns its parse; no host raises "No hosts available" |
| Remote.ReadLatencies | benchmark/benchmark/remote.py:476-498 | the loops give the per-size averages and the missing ids of the report, or fail when a latency is not a number |
| Remote.LatencyStep | benchmark/benchmark/remote.py:483-485 | one more record adds its latency to its size's group and its id to the seen ids |
| Remote.LatencyPairsFail | benchmark/benchmark/remote.py:484 | one latency that is not a number makes the whole parse fail |
| LogFormats.Run | benchmark/benchmark/remote.py:477 | a greedy character-class run: every character in it is in the class and the next is not |
| LogFormats.RunOfConcat | benchmark/benchmark/remote.py:477 | a run over a class-only prefix stops exactly where the prefix ends |
| LogFormats.Plus | benchmark/benchmark/remote.py:477 | `X+` consumes a non-empty run of the class |
| LogFormats.PlusOfConcat | benchmark/benchmark/remote.py:477 | `X+` on a class-only prefix followed by another character takes exactly that prefix |
| LogFormats.MatchLatencyRecord | benchmark/benchmark/remote.py:477 | a match of the latency pattern yields digit groups for id and size and a digits-and-dots latency |
| LogFormats.FindLatencyRecords | benchmark/benchmark/remote.py:478 | every record `re.findall` yields has the shape its pattern guarantees |
| LogFormats.MatchLatencyLine | benchmark/benchmark/remote.py:477 | a printed latency line matches the pattern with the id, size and latency it was printed with |
| LogFormats.FindLatencyLine | benchmark/benchmark/remote.py:478 | `findall` over a printed line and what follows yields its record, then the records of what follows |
| LogFormats.FindRenderedRecords | benchmark/benchmark/remote.py:477-478 | reading back the latency script's lines yields one record per line, in order, with the printed id, size and latency |
| LogFormats.ParseDecimal | scripts/aggregate.py:34 | `float` of digits and dots succeeds exactly with at most one dot and at least one digit, and is non-negative |
| LogFormats.ParseDecimalOfNat | scripts/aggregate.py:34 | a whole number printed by `str` reads back as itself |
| LogFormats.MatchIdLine | scripts/aggregate_and_plot.py:33 | the id-line pattern yields a digit id and a digits-and-dots latency |
| LogFormats.MatchIdLineRendered | scripts/aggregate_and_plot.py:33 | a line the latency script prints matches with the id and latency it was printed with |
| LogFormats.MatchSizeLine | scripts/aggregate.py:31 | the `N bytes: X ms` pattern yields a digit size and a digits-and-dots time |
| LogFormats.MatchSizeLineRendered | scripts/aggregate.py:31 | a printed `N bytes: X ms` line matches with its size and time |
| LogFormats.LongestSpec | scripts/aggregate_and_plot.py:22 | the candidate chosen is the longest that parses, and none parses exactly when nothing is chosen |
| LogFormats.ParseAtSpec | scripts/aggregate_and_plot.py:22 | a protocol of a given length parses exactly when the rest of the name matches `_(\d+)_(true\|false)_.*\.log` |
| LogFormats.ParseLogFileNameSpec | scripts/aggregate_and_plot.py:22-27 | the protocol `re.match` captures is the longest run of word characters that the rest of the pattern follows; no match exactly when no run works |
| LogFormats.ParseLogFileNameDigits | scripts/aggregate_and_plot.py:27-29 | the captured node count is a run of digits |
| LineReadings.CollectNext | scripts/aggregate.py:28-35 | one more line appends its pair, changes nothing, or stops the script with `ValueError` |
| LineReadings.CollectStops | scripts/aggregate.py:28-35 | once a line's time fails to parse the script has stopped with that error |
| LineReadings.CollectSpec | scripts/aggregate.py:28-35 | the loop fails with `ValueError` exactly when some line's time is not a number, and otherwise yields every pair in order |
| LineReadings.CollectSkip | scripts/aggregate.py:29-30 | a skipped line changes nothing wherever it stands |
| LineReadings.PairsForAbsent | scripts/aggregate_and_plot.py:18-38 | a key no file carries has no pairs |
| LineReadings.PairsForOther | scripts/aggregate_and_plot.py:31-38 | a file with another key adds nothing to a key's pairs |
| LineReadings.NamedSnoc | scripts/aggregate_msg_sizes.py:36-39 | a key is named after one more file exactly when it was before or that file carries it |
| LineReadings.ReadableSnoc | scripts/aggregate_msg_sizes.py:41-58 | the files stay readable exactly when the new one has no unparsable latency |
| Grouping.Empty | scripts/aggregate.py:26 | a new `defaultdict(list)` is a well-formed empty dictionary |
| Grouping.AppendToValid | scripts/aggregate.py:35 | `d[k].append(v)` keeps the dictionary well-formed |
| Grouping.SelectAbsent | scripts/aggregate.py:35 | a key no pair carries selects nothing |
| Grouping.HasKeySnoc | scripts/aggregate.py:35 | a key occurs after one more pair exactly when it did before or the pair carries it |
| Grouping.GroupSpec | scripts/aggregate.py:26-35 | grouping keeps every pair and invents none: a key is present exactly when some pair carries it, its list is those values in order and never empty, keys in order of first occurrence |
| Grouping.AppendAllSnoc | scripts/aggregate_and_plot.py:38 | appending one more pair is one more `append` |
| Grouping.AppendAllGroup | scripts/aggregate_msg_sizes.py:58 | appending more pairs to a grouping groups all the pairs |
| Grouping.StoreValid | scripts/aggregate_msg_sizes.py:36-39 | creating an entry keeps the dictionary well-formed and the entry present |
| Grouping.StoreStore | scripts/aggregate_msg_sizes.py:55-58 | storing twice under one key keeps the second value |
| Grouping.FlattenSnoc | scripts/aggregate_and_plot.py:44-45 | one more key extends the flattened list by that key's list |
| Grouping.FlattenAppend | scripts/aggregate_and_plot.py:38-45 | appending a value under an existing key adds exactly that value to the flattened list |
| Grouping.FlattenSame | scripts/aggregate_and_plot.py:44-45 | flattening depends only on the lists of the keys flattened |
| Grouping.FlattenNew | scripts/aggregate_and_plot.py:38-45 | a value under a new key is appended at the end of the flattened list |
| Grouping.FlattenGroup | scripts/aggregate_and_plot.py:43-45 | flattening a grouping loses and adds nothing: it holds exactly the values of the pairs |
| Sorting.InsertMultiset | scripts/aggregate.py:40 | insertion adds exactly the element |
| Sorting.InsertSorted | scripts/aggregate.py:40 | insertion into an ascending list keeps it ascending |
| Sorting.InsertProperties | scripts/aggregate.py:40 | both of the above |
| Sorting.SortProperties | scripts/aggregate.py:40 | `sorted()` is ascending and a permutation of its input |
| Sorting.SortLength | scripts/aggregate.py:40 | sorting keeps the length |
| Sorting.SortedUnique | scripts/aggregate.py:40 | two ascending arrangements of the same elements are equal |
| Sorting.SameFirst | scripts/aggregate.py:40 | such arrangements start with the same least element |
| Sorting.DropFirst | scripts/aggregate.py:40 | dropping the first element keeps the order and removes one copy |
| Sorting.SortIsCanonical | scripts/aggregate.py:40 | sorting yields the one ascending arrangement of its input |
| Sorting.DistinctOnce | scripts/aggregate.py:40 | each element of a list without repeats occurs once |
| Sorting.TwiceAt | scripts/aggregate.py:40 | an element at two positions occurs at least twice |
| Sorting.SortDistinct | scripts/aggregate.py:40 | sorting distinct keys gives a strictly ascending list of exactly those keys |
| Sorting.SumSnoc | node/src/syncer.rs:190-193 | the sum of a list with one more element adds that element |
| Aggregate.StripStartAt | scripts/aggregate.py:28 | leading whitespace is cut and nothing else |
| Aggregate.StripEndAt | scripts/aggregate.py:28 | trailing whitespace is cut and nothing else |
| Aggregate.StripSpec | scripts/aggregate.py:28 | `strip()` gives a slice that neither starts nor ends with whitespace, and only whitespace is cut |
| Aggregate.Readings | scripts/aggregate.py:28-35 | one reading per line |
| Aggregate.Aggregate | scripts/aggregate.py:26-43 | the script's rows, or the error it stops with, are those of the report of the pasted column |
| Aggregate.CollectTimes | scripts/aggregate.py:26-35 | the reading loop builds `size_to_times` as the grouped pairs of the lines, and fails exactly as the lines do |
| Aggregate.PrintRows | scripts/aggregate.py:40-43 | the printing loop gives one row per size in ascending order |
| Aggregate.Starts256 | scripts/aggregate.py:29 | a size line starts with `256 bytes` only if its size is 256 |
| Aggregate.Printed256 | scripts/aggregate.py:29 | the line for 256-byte messages starts with `256 bytes` |
| Aggregate.ReadPrinted | scripts/aggregate.py:29-35 | a printed line reads back as its size and time, except that a 256-byte line is skipped |
| Aggregate.PrintedNot256 | scripts/aggregate.py:29 | the line for any other size does not start with `256 bytes` |
| Aggregate.RowsSpec | scripts/aggregate.py:38-43 | rows are strictly ascending by size, one per size that occurs, each with the count of its lines and the average of their times |
| MsgSizes.MessageSize | scripts/aggregate_msg_sizes.py:10-53 | an id has a message size exactly when its last digit is 1 to 6; 0 is read as 10 and has none |
| MsgSizes.Samples | scripts/aggregate_msg_sizes.py:42-58 | one reading per line |
| MsgSizes.ReadPrintedIdLine | scripts/aggregate_msg_sizes.py:43-58 | a printed line reads back with its latency and the size of its id, whatever its size column says; an id without size is skipped |
| MsgSizes.Reads | scripts/aggregate_msg_sizes.py:23-30 | one read per directory entry |
| MsgSizes.AggregateLogs | scripts/aggregate_msg_sizes.py:23-58 | the directory loop builds `aggregated_data` as the fold of the files, or stops with the error |
| MsgSizes.AddLog | scripts/aggregate_msg_sizes.py:36-58 | one file: entries created, then its pairs appended, or its error |
| MsgSizes.CreateEntries | scripts/aggregate_msg_sizes.py:36-39 | the entries for the node count and configuration exist afterwards, the others unchanged |
| MsgSizes.ReadLog | scripts/aggregate_msg_sizes.py:41-58 | the line loop appends the file's pairs under their sizes, or fails as the file does |
| MsgSizes.FoldStops | scripts/aggregate_msg_sizes.py:23-58 | once a file fails the script has stopped with that error |
| MsgSizes.FoldSpec | scripts/aggregate_msg_sizes.py:23-58 | the script fails, with `ValueError`, exactly when a read file has an unparsable latency; otherwise it holds an entry for every node count and configuration named by a log file, with the pairs of all such files grouped by size |
| MsgSizes.SkippedHolds | scripts/aggregate_msg_sizes.py:24-30 | a skipped file leaves the table as it was |
| MsgSizes.AddFileHolds | scripts/aggregate_msg_sizes.py:36-58 | a read file keeps the table holding what was read |
| MsgSizes.AddedKeys | scripts/aggregate_msg_sizes.py:36-39 | after a file, entries exist exactly for the configurations named so far |
| MsgSizes.AddedCells | scripts/aggregate_msg_sizes.py:55-58 | after a file, every cell holds its grouped pairs |
| MsgSizes.AddedCell | scripts/aggregate_msg_sizes.py:55-58 | the file's own cell receives its pairs after those already there |
| MsgSizes.FilePairsSpec | scripts/aggregate_msg_sizes.py:41-58 | a file is read without error unless an id line has an unparsable latency, and then with `ValueError` |
| MsgSizes.AggregatedSpec | scripts/aggregate_msg_sizes.py:23-58 | the whole listing as `FoldSpec` states |
| MsgSizes.PlotFigures | scripts/aggregate_msg_sizes.py:61-97 | the plotting loops save exactly the figures of the table |
| MsgSizes.FiguresForSnoc | scripts/aggregate_msg_sizes.py:61-67 | one more node count adds one figure per protocol read for it |
| MsgSizes.FiguresSpec | scripts/aggregate_msg_sizes.py:61-75 | a figure is saved for each protocol read at 16 or 40 nodes and for no other |
| MsgSizes.CurveSpec | scripts/aggregate_msg_sizes.py:75-76 | a curve's sizes are strictly ascending and exactly those read, each with the mean of its latencies |
| MsgSizes.ReportSpec | scripts/aggregate_msg_sizes.py:23-76 | end to end: the figure for a protocol at a node count plots, for each size read from its non-byzantine logs in ascending order, the mean of that size's latencies in listing order |
| AggregateAndPlot.ConfigKeyRoundTrip | scripts/aggregate_and_plot.py:22-28 | a configuration key determines its protocol and flag |
| AggregateAndPlot.Samples | scripts/aggregate_and_plot.py:32-38 | one reading per line |
| AggregateAndPlot.ReadPrintedLatencyLine | scripts/aggregate_and_plot.py:33-38 | a printed line reads back as its id and latency, or as the `ValueError` |
| AggregateAndPlot.Reads | scripts/aggregate_and_plot.py:18-25 | one read per directory entry |
| AggregateAndPlot.AddPairsSpec | scripts/aggregate_and_plot.py:31-38 | a file's appends touch only its own cell, which receives the file's pairs after those already there |
| AggregateAndPlot.AggregateLogs | scripts/aggregate_and_plot.py:18-38 | the directory loop builds `aggregated_data` as the fold of the files, or stops with the error |
| AggregateAndPlot.ReadLog | scripts/aggregate_and_plot.py:31-38 | the line loop appends the file's pairs under their ids, or fails as the file does |
| AggregateAndPlot.FoldStops | scripts/aggregate_and_plot.py:18-38 | once a file fails the script has stopped with that error |
| AggregateAndPlot.FoldSpec | scripts/aggregate_and_plot.py:15-38 | the script fails with `ValueError` exactly when a read file has an unparsable latency; otherwise a cell exists exactly for the node counts and configurations some latency was read for, holding those pairs grouped by message id |
| AggregateAndPlot.NothingAdded | scripts/aggregate_and_plot.py:31-38 | a skipped file, or one without a matching line, adds nothing |
| AggregateAndPlot.AddedHolds | scripts/aggregate_and_plot.py:31-38 | a file with pairs keeps the table holding what was read |
| AggregateAndPlot.AddedShape | scripts/aggregate_and_plot.py:15-38 | storing a cell keeps the table well-formed and its rows non-empty |
| AggregateAndPlot.StoreHas | scripts/aggregate_and_plot.py:38 | storing one cell creates it and leaves the others unchanged |
| AggregateAndPlot.AddedKeys | scripts/aggregate_and_plot.py:38 | after a file, cells exist exactly for the keys with latencies |
| AggregateAndPlot.AddedCell | scripts/aggregate_and_plot.py:38 | the file's own cell is its earlier pairs grouped with the file's pairs appended |
| AggregateAndPlot.AddedCells | scripts/aggregate_and_plot.py:38 | the other cells keep their grouped pairs |
| AggregateAndPlot.FilePairsSpec | scripts/aggregate_and_plot.py:32-38 | a file is read without error unless a line has an unparsable latency, and then with `ValueError` |
| AggregateAndPlot.AggregatedSpec | scripts/aggregate_and_plot.py:18-38 | the whole listing as `FoldSpec` states |
| AggregateAndPlot.SortedIn | scripts/aggregate_and_plot.py:40 | each sorted node count is one of the table's |
| AggregateAndPlot.PlotsForSnoc | scripts/aggregate_and_plot.py:40 | one more node count appends its plots |
| AggregateAndPlot.PlotAll | scripts/aggregate_and_plot.py:40-93 | the plotting loop saves the plots of the table, node counts ascending |
| AggregateAndPlot.DrawHistograms | scripts/aggregate_and_plot.py:41-71 | one histogram per configuration with latencies, in order |
| AggregateAndPlot.DrawBoxPlot | scripts/aggregate_and_plot.py:74-93 | the box plot of the non-empty configurations, none when there is no data |
| AggregateAndPlot.Extend | scripts/aggregate_and_plot.py:43-45 | `all_latencies` is every list of the cell in message-id order |
| AggregateAndPlot.CellLatencies | scripts/aggregate_and_plot.py:43-48 | every built cell's flattened list is non-empty and a rearrangement of all latencies read for it |
| AggregateAndPlot.ValuesLength | scripts/aggregate_and_plot.py:45 | the values of the pairs are as many as the pairs |
| AggregateAndPlot.AllHistograms | scripts/aggregate_and_plot.py:41-48 | with no empty configuration, one histogram per configuration, with its mean |
| AggregateAndPlot.AllLabels | scripts/aggregate_and_plot.py:78-84 | the box plot is labelled with every configuration, in order |
| AggregateAndPlot.AllData | scripts/aggregate_and_plot.py:78-84 | the box data is every configuration's latencies, parallel to the labels |
| AggregateAndPlot.PlotOrder | scripts/aggregate_and_plot.py:40 | node counts are processed strictly ascending, exactly those read |
| AggregateAndPlot.BuiltTable | scripts/aggregate_and_plot.py:15-38 | every table the script builds can be plotted and has no empty configuration |
| AggregateAndPlot.RowKeys | scripts/aggregate_and_plot.py:38 | a node count's configurations are those some latency was read for |
| AggregateAndPlot.RowHistograms | scripts/aggregate_and_plot.py:41-71 | one histogram per configuration, plotting every latency read for it |
| AggregateAndPlot.RowBox | scripts/aggregate_and_plot.py:74-87 | after the histograms comes one box plot labelled with every configuration |
| AggregateAndPlot.ReportSpec | scripts/aggregate_and_plot.py:18-87 | end to end: each node count's plots are one histogram per configuration read, each of all its latencies, then one box plot labelled with all of them |
| Syncer.WrapSub | node/src/syncer.rs:193 | `time - start_time` on `u128` wraps: adding the start back gives the completion time modulo 2^128, and the difference is exact when the start is not later |
| Syncer.ToAll | node/src/syncer.rs:113-120 | a broadcast sends the message once to every replica `0..num_nodes`, in order |
| Syncer.Diffs | node/src/syncer.rs:191-194 | one latency per replica visited, each its completion time minus the start |
| Syncer.HasEnumeration | node/src/syncer.rs:192 | iterating a `HashMap` visits some ordering of its keys |
| Syncer.EnumerationLength | node/src/syncer.rs:192 | such an ordering visits each key once |
| Syncer.EnumerationRemove | node/src/syncer.rs:192 | removing one visit leaves an ordering of the other keys |
| Syncer.DiffsAppend | node/src/syncer.rs:191-194 | the latencies of two visits in turn are those of each |
| Syncer.EnumerationsAgree | node/src/syncer.rs:191-194 | any two iteration orders collect the same latencies, counted with repetition |
| Syncer.LatenciesAnyOrder | node/src/syncer.rs:191-196 | sorting the collected latencies gives the same list whatever order the `HashMap` iterates in |
| Syncer.LatencyReport | node/src/syncer.rs:191-196 | the reported latencies are ascending, one per replica, and are exactly the wrapped differences of the completion times |
| Syncer.CollectLatencies | node/src/syncer.rs:191-194 | the loop pushes each replica's latency once, in some iteration order of the map |
| Syncer.ZeroPayload | node/src/syncer.rs:69-72 | the payload is `rbc_msg_size` zero bytes |
| Syncer.Syncer.constructor | node/src/syncer.rs:55-106 | a new syncer: `num_nodes` is the address map's size, the payload zeros, nothing alive, no round started, all maps empty |
| Syncer.Syncer.Broadcast | node/src/syncer.rs:113-276 | the message is queued to every replica, one cancel handler each, nothing else changes |
| Syncer.Syncer.HandleAlive | node/src/syncer.rs:140-146 | the sender joins `alive`; the syncer becomes ready exactly when it was or every replica is alive; nothing else changes |
| Syncer.Syncer.HandleCompleted | node/src/syncer.rs:150-208 | an undecodable payload panics the syncer; otherwise the completion time and value are recorded for round 0, and when every replica has completed the round is finished |
| Syncer.Syncer.CompleteDecoded | node/src/syncer.rs:157-208 | with the payload decoded, the sender's completion time (overwriting any earlier one) and the value are recorded for round 0; below `num_nodes` completions nothing else changes, at `num_nodes` the syncer is ready and the round is finished |
| Syncer.Syncer.RecordCompletion | node/src/syncer.rs:157-176 | the sender's completion time replaces any earlier one and its value joins the set, creating the round-0 entries when missing |
| Syncer.Syncer.FinishRound | node/src/syncer.rs:177-207 | the syncer becomes ready; a missing start time is logged and nothing more; otherwise the round is reported and STOP broadcast when `rbc_id` reaches the bound |
| Syncer.Syncer.ReportRound | node/src/syncer.rs:191-203 | the report lists the distinct values when replicas disagree, and otherwise the sorted latencies |
| Syncer.Syncer.StopWhenDone | node/src/syncer.rs:204-206 | STOP goes to every replica exactly when `rbc_id >= num_nodes * broadcast_msgs.len()` (a wrapping `usize` product) |
| Syncer.Syncer.Tick | node/src/syncer.rs:212-268 | a tick does nothing unless ready and no round started; then it clears the flag, sets `rbc_id` to 1, sends START to every replica and records the start time |
| Syncer.Syncer.Receive | node/src/syncer.rs:139-210 | ALIVE adds the sender to `alive` and makes the syncer ready exactly when it was or every replica is alive, changing nothing else; COMPLETED panics on an undecodable payload and otherwise records the completion time and value for round 0 and finishes the round once every replica has completed, never touching `rbc_id`, the start times or `alive`; STARTED and any other state change nothing |
| Syncer.Syncer.AtMostOneRound | node/src/syncer.rs:215-262 | no replica receives START twice, and once the round has started every replica has received it |
| Syncer.Syncer.StopOnlyForTinyRuns | node/src/syncer.rs:204-217 | since `rbc_id` never exceeds 1, STOP is never sent when the bound exceeds 1 |
| Addrbc.New | consensus/addrbc/src/protocol/rbc_state.rs:25-88 | a fresh state has no echoes or readys, status INIT, so its counts match its (empty) senders |
| Addrbc.NewMaxima | consensus/addrbc/src/protocol/rbc_state.rs:25-81 | on a fresh state both maxima are `(0, None)` |
| Addrbc.GetMaxEchoCount | consensus/addrbc/src/protocol/rbc_state.rs:58-69 | the count is the largest echo count and the hash one that reaches it; no hash exactly when every count is 0 |
| Addrbc.GetMaxReadyCount | consensus/addrbc/src/protocol/rbc_state.rs:70-81 | the same over the lengths of the READY share vectors |
| Addrbc.EchoSendsAppend | consensus/addrbc/src/protocol/echo.rs:69-95 | the echoes sent by two steps in turn are those of each |
| Addrbc.EchoStepWf | consensus/addrbc/src/protocol/echo.rs:113-137 | handling an echo keeps every count equal to its number of distinct senders, and records the origin |
| Addrbc.EchoStepReady | consensus/addrbc/src/protocol/echo.rs:113-137 | the only status change is ECHO to READY with `sent_ready` and one `start_ready` for a hash with `n - f` echoes, and it happens exactly when a new origin completes such a quorum in ECHO |
| Addrbc.EchoStepSendsNoEcho | consensus/addrbc/src/protocol/echo.rs:113-137 | handling an echo sends no echo |
| Addrbc.PlaceShares | consensus/addrbc/src/protocol/echo.rs:42-52 | the share vector has `n` entries |
| Addrbc.PlaceSharesDefined | consensus/addrbc/src/protocol/echo.rs:50-52 | the vector is built exactly when every emitted share number is below `n`; otherwise the indexing panics |
| Addrbc.PlaceSharesLast | consensus/addrbc/src/protocol/echo.rs:50-52 | each number holds the last share emitted with it |
| Addrbc.PlaceSharesUntouched | consensus/addrbc/src/protocol/echo.rs:42-48 | a number no share was emitted with keeps the empty share |
| Addrbc.PlaceSharesStops | consensus/addrbc/src/protocol/echo.rs:50-52 | once a share is out of range the vector is never built |
| Addrbc.EchoesSpec | consensus/addrbc/src/protocol/echo.rs:69-95 | every other replica gets exactly one echo, with its own share from an honest replica and no data from a Byzantine one, and the replica sends none to itself |
| Addrbc.CountEcho | consensus/addrbc/src/protocol/echo.rs:113-137 | the handler's body takes exactly one echo step |
| Addrbc.EchoSelf | consensus/addrbc/src/protocol/echo.rs:15-22 | the replica's own echo is handled as any other: senders and counts become `Record(…, hash, myid)` (unchanged if it was already a sender), the fragment, READY bookkeeping and output message stay, nothing is sent; its only possible effect is one `start_ready` for a hash that now has `n - f` echoes, and a repeated own echo has none |
| Addrbc.SendEchoes | consensus/addrbc/src/protocol/echo.rs:69-95 | the loop sends exactly the echoes of `EchoesSpec`, one cancel handler each; the echo senders and counts end as `Record(…, hash, myid)` when the replica is a peer and unchanged otherwise; READY bookkeeping, output message and fragment are untouched; every other effect is a `start_ready` of the instance for a hash with `n - f` echoes, and none precedes the replica's own turn |
| Addrbc.EnterEcho | consensus/addrbc/src/protocol/echo.rs:97-109 | the status becomes ECHO, or READY with `sent_ready` exactly when some hash already has `n - f` echoes; an effect is produced exactly when READY is entered, and it is the one `start_ready` for a hash of maximal count with `n - f` echoes; counts, senders, READY bookkeeping and output message are untouched |
| Addrbc.EchoAll | consensus/addrbc/src/protocol/echo.rs:59-109 | after encoding: the fragment is the own share; unless crashed the echoes of `EchoesSpec` are sent and the echo senders and counts become `Record(…, hash, myid)` when the replica is a peer, else they are unchanged; READY bookkeeping and output message are untouched; every effect is an echo or a `start_ready` of the instance for a hash with `n - f` echoes; status ECHO with echoes only, or READY with `sent_ready` and a last effect `start_ready` for a hash of maximal count with `n - f` echoes |
| Addrbc.Context.constructor | consensus/addrbc/src/protocol/echo.rs:14 | a context with the given configuration and no instances, effects or handlers |
| Addrbc.Context.HandleEcho | consensus/addrbc/src/protocol/echo.rs:113-137 | only the instance's state changes, by one echo step, and no cancel handler is added |
| Addrbc.Context.StartEcho | consensus/addrbc/src/protocol/echo.rs:23-111 | a failed `FEC::new` changes nothing; an empty value or an out-of-range share panics; otherwise the instance takes the echo-phase step (`StartEchoStep`: own share as fragment, echoes sent, own echo recorded, READY bookkeeping and output message untouched, other effects only `start_ready` for a quorum hash, and READY exactly when the last effect is `start_ready` for a hash of maximal count), with one cancel handler per echo sent |
| Addrbc.Context.Entry | consensus/addrbc/src/protocol/echo.rs:25-114 | `entry().or_default()` creates the instance's state when missing and changes nothing else |
| Addrbc.Context.EncodeAndEcho | consensus/addrbc/src/protocol/echo.rs:42-109 | panics exactly on an empty value or an out-of-range share, and otherwise takes the echo-phase step `StartEchoStep` (own share as fragment, echoes sent, own echo recorded, READY bookkeeping and output message untouched, other effects only `start_ready` for a quorum hash, and READY exactly when the last effect is `start_ready` for a hash of maximal count) |
| Addrbc.Context.Commit | consensus/addrbc/src/protocol/echo.rs:92-94 | a handler's state and effects are written back, with one cancel handler per echo sent |
| Addrbc.Context.Panics | consensus/addrbc/src/protocol/echo.rs:53 | a failed `assert!` stops the replica and changes no state |
| Addrbc.Context.EchoShares | consensus/addrbc/src/protocol/echo.rs:59-109 | with the shares built, the instance takes the echo-phase step (`StartEchoStep`: own share as fragment, echoes sent, own echo recorded, READY bookkeeping and output message untouched, other effects only `start_ready` for a quorum hash, and READY exactly when the last effect is `start_ready` for a hash of maximal count) and keeps one cancel handler per echo |
| Addrbc.Context.EncodeShares | consensus/addrbc/src/protocol/echo.rs:42-58 | the shares are those `PlaceShares` builds from what the encoder emits |
| Ccbrb.New | consensus/ccbrb/src/protocol/rbc_state.rs:33-83 | a fresh state has nothing recorded, so its counts match its (empty) senders |
| Ccbrb.NewState | consensus/ccbrb/src/protocol/rbc_state.rs:33-76 | a fresh state waits for INIT with the empty fragment and `e == 0`, and both maxima are `(0, None)` |
| Ccbrb.GetMaxEchoCount | consensus/ccbrb/src/protocol/rbc_state.rs:54-64 | the count is the largest echo count and the hash one that reaches it; no hash exactly when every count is 0 |
| Ccbrb.GetMaxReadyCount | consensus/ccbrb/src/protocol/rbc_state.rs:66-76 | the same over the lengths of the READY share vectors |
| Ccbrb.PanicsAppend | consensus/ccbrb/src/protocol/ready.rs:82-86 | effects end in a panic exactly when the later part does, or the earlier part when nothing follows |
| Ccbrb.HandlersAppend | consensus/ccbrb/src/protocol/ready.rs:74-76 | the cancel handlers of two steps in turn add up |
| Ccbrb.CompletionsAppend | consensus/ccbrb/src/process.rs:67-80 | the `terminate` calls of two steps in turn add up |
| Ccbrb.DecodedChanges | consensus/ccbrb/src/protocol/ready.rs:115-160 | decoding changes only the output and the status: nothing, or a non-empty value output and the instance terminated |
| Ccbrb.HandleReadyOn | consensus/ccbrb/src/protocol/ready.rs:81-163 | the handler's body takes exactly one READY step |
| Ccbrb.ReceivedWf | consensus/ccbrb/src/protocol/ready.rs:101-111 | a share from a new origin keeps the vectors matching their senders and records it |
| Ccbrb.ReadyStepWf | consensus/ccbrb/src/protocol/ready.rs:81-163 | a READY keeps every count equal to the number of its distinct senders |
| Ccbrb.ReadyStepTerminates | consensus/ccbrb/src/protocol/ready.rs:88-159 | `terminate` is called at most once, exactly when a non-terminated instance becomes TERMINATED, with the value output; TERMINATED is never left |
| Ccbrb.ReadyStepDecodes | consensus/ccbrb/src/protocol/ready.rs:113-159 | a READY that terminates an instance not yet output has `n - f` shares from distinct origins for some hash, and reports their non-empty decoding |
| Ccbrb.ReadySendsAppend | consensus/ccbrb/src/protocol/ready.rs:66-77 | the READYs sent to two runs of replicas are those of each |
| Ccbrb.ReadySendsSpec | consensus/ccbrb/src/protocol/ready.rs:66-77 | exactly one READY, with the given message, to each other replica; no panic, no completion, one cancel handler each |
| Ccbrb.IndexOf | consensus/ccbrb/src/protocol/ready.rs:66-70 | the first place the replica's own id appears in `sec_key_map` order |
| Ccbrb.ReadySelfOn | consensus/ccbrb/src/protocol/ready.rs:11-30 | while READY, the replica's own fragment is handled as a READY from itself; otherwise nothing happens |
| Ccbrb.ReadyRoundOther | consensus/ccbrb/src/protocol/ready.rs:72-76 | another replica's turn appends its READY |
| Ccbrb.ReadyRoundAfter | consensus/ccbrb/src/protocol/ready.rs:72-76 | a send after its own turn extends the sends that follow it |
| Ccbrb.ReadyRoundAtSelf | consensus/ccbrb/src/protocol/ready.rs:67-69 | at its own turn only sends precede and the state is untouched |
| Ccbrb.ReadyRoundSelf | consensus/ccbrb/src/protocol/ready.rs:67-69 | its own turn takes one READY step |
| Ccbrb.ReadyRoundPanics | consensus/ccbrb/src/protocol/ready.rs:67-86 | a panic in its own READY stops `start_ready` there |
| Ccbrb.ReadyRoundDone | consensus/ccbrb/src/protocol/ready.rs:66-78 | after the last replica the loop is `start_ready`'s whole step |
| Ccbrb.StartReadyOn | consensus/ccbrb/src/protocol/ready.rs:32-79 | the method's loop takes exactly `start_ready`'s step |
| Ccbrb.StartReadyStepWf | consensus/ccbrb/src/protocol/ready.rs:32-79 | `start_ready` keeps the counts matching the senders |
| Ccbrb.StartReadyStepTerminates | consensus/ccbrb/src/protocol/ready.rs:32-79 | nothing happens unless READY and not crashed; `terminate` at most once, exactly when its own share terminates the instance; the status stays or becomes TERMINATED |
| Ccbrb.HandleEchoOn | consensus/ccbrb/src/protocol/echo.rs:51-71 | the handler's body takes exactly one ECHO step |
| Ccbrb.EchoStepWf | consensus/ccbrb/src/protocol/echo.rs:51-71 | an echo keeps the counts matching the senders and records its origin |
| Ccbrb.EchoStepStatus | consensus/ccbrb/src/protocol/echo.rs:51-71 | the status changes only from ECHO, to READY or TERMINATED, and only when a new origin brings a commitment to `n - f`; `terminate` at most once |
| Ccbrb.StartReadyStepKeeps | consensus/ccbrb/src/protocol/ready.rs:32-79 | `start_ready` leaves the echo counts and the fragment alone |
| Ccbrb.ReadyStepKeepsEchoes | consensus/ccbrb/src/protocol/ready.rs:81-163 | a READY leaves the echo counts and the fragment alone |
| Ccbrb.EchoSendsStops | consensus/ccbrb/src/protocol/echo.rs:43 | once a send has panicked, later replicas add nothing |
| Ccbrb.EchoSendsPanics | consensus/ccbrb/src/protocol/echo.rs:43 | the sends panic exactly when some other replica in range has no key |
| Ccbrb.EchoSendsSpec | consensus/ccbrb/src/protocol/echo.rs:19-48 | unless they panic, exactly one ECHO to each other replica in id order, its own shard or an empty one from a Byzantine sender, and no `terminate` |
| Ccbrb.SendEchoesOn | consensus/ccbrb/src/protocol/echo.rs:19-48 | the loop's iterations for a run of replicas send exactly those ECHOs |
| Ccbrb.StartEchoOn | consensus/ccbrb/src/protocol/echo.rs:11-49 | the method takes exactly `start_echo`'s step |
| Ccbrb.StartEchoStepIntro | consensus/ccbrb/src/protocol/echo.rs:38-41 | the replica's own echo step witnesses `start_echo`'s step |
| Ccbrb.StartEchoStepWf | consensus/ccbrb/src/protocol/echo.rs:11-49 | `start_echo` keeps the counts matching the senders, takes `d_j` as fragment and ends in ECHO, READY or TERMINATED |
| Ccbrb.EchoStepKeepsFragment | consensus/ccbrb/src/protocol/echo.rs:51-71 | echoes never change the fragment |
| Ccbrb.Digests | consensus/ccbrb/src/protocol/init.rs:27 | `d_hashes` is the hash of each shard, in order |
| Ccbrb.HandleInitOn | consensus/ccbrb/src/protocol/init.rs:52-66 | a hash vector of the wrong length panics, a shard not matching its hash is ignored, otherwise `start_echo` runs |
| Ccbrb.StartInitOn | consensus/ccbrb/src/protocol/init.rs:9-50 | only from WAITING (else a panic): INIT, `n` shards with `k = f + 1`, own shard as fragment, own INIT handled, then INIT broadcast |
| Ccbrb.OwnInitAccepted | consensus/ccbrb/src/protocol/init.rs:30-65 | the broadcaster's own INIT always passes the hash check, so `start_echo` runs with its own shard and all shard hashes |
| Ccbrb.CheckProposal | consensus/ccbrb/src/process.rs:10-26 | a sender without a key panics; otherwise the message passes exactly when its MAC verifies |
| Ccbrb.Context.constructor | consensus/ccbrb/src/process.rs:9 | a context with a sound configuration and no instances or effects |
| Ccbrb.Context.Commit | consensus/ccbrb/src/process.rs:28-65 | a handler's state and effects are written back, and the replica has panicked exactly when they end in a panic |
| Ccbrb.Context.StartInit | consensus/ccbrb/src/protocol/init.rs:9-50 | only the instance's state changes, by `start_init`'s step |
| Ccbrb.Context.HandleInit | consensus/ccbrb/src/protocol/init.rs:52-66 | only the instance's state changes, by `handle_init`'s step |
| Ccbrb.Context.HandleEcho | consensus/ccbrb/src/protocol/echo.rs:51-71 | only the instance's state changes, by one ECHO step |
| Ccbrb.Context.HandleReady | consensus/ccbrb/src/protocol/ready.rs:81-163 | an empty share panics before `entry()`, leaving the instance map as it was; otherwise only the instance's state changes, by one READY step |
| Ccbrb.Context.ProcessMsg | consensus/ccbrb/src/process.rs:28-65 | a sender without a key panics, a bad MAC is dropped, a READY with an empty share panics with the instance map unchanged, otherwise the message goes to its handler |
| Ccbrb.InitStepWf | consensus/ccbrb/src/protocol/init.rs:52-66 | `handle_init` keeps the counts matching the senders |
| Ccbrb.StartInitWf | consensus/ccbrb/src/protocol/init.rs:9-50 | `start_init` keeps the counts matching the senders |
| Ctrbc.NewWf | consensus/ctrbc/src/protocol/echo.rs:17 | a fresh instance keeps the invariant, is running and has no echo root |
| Ctrbc.Touch | consensus/ctrbc/src/protocol/ready.rs:20-21 | `entry(root).or_default()` on both sender maps adds the root and keeps every stored entry and the rest of the state |
| Ctrbc.Recorded | consensus/ctrbc/src/protocol/ready.rs:20-50 | the READY bookkeeping creates both entries and changes neither the echoes nor the echo root, fragment, value or flag |
| Ctrbc.RecordedWf | consensus/ctrbc/src/protocol/ready.rs:24-50 | a READY shard is recorded only for an origin that echoed for the same root, so the invariant holds |
| Ctrbc.AmplifyKeeps | consensus/ctrbc/src/protocol/ready.rs:64-126 | amplification keeps the invariant, the echoes, the echo root and the flag, and adds only the replica's own share under the root |
| Ctrbc.AmplifyOutput | consensus/ctrbc/src/protocol/ready.rs:77-126 | amplification panics exactly when the shards cannot be recovered into a message, and broadcasts its own share once when not crashed |
| Ctrbc.ReadyCountedProperties | consensus/ctrbc/src/protocol/ready.rs:52-138 | the thresholds keep the invariant, the echoes and the echo root; the flag is set only at exactly `n - f` readys, with one `terminate` carrying the value held |
| Ctrbc.ReadyNextProperties | consensus/ctrbc/src/protocol/ready.rs:10-140 | a READY keeps the invariant, never changes the echo root or stored echoes, leaves a terminated instance alone, and terminates only at exactly `n - f` readys, with one `terminate` |
| Ctrbc.ReadyNextAmplifies | consensus/ctrbc/src/protocol/ready.rs:54-126 | amplification happens only in a replica that is not crashed, for a root the echo phase has not settled on, adding its own share on top of exactly `f + 1` readys |
| Ctrbc.AmplifyWitness | consensus/ctrbc/src/protocol/ready.rs:54-114 | the `f + 1` readys an amplification adds the replica's share to |
| Ctrbc.SettleUnfold | consensus/ctrbc/src/protocol/echo.rs:90-103 | settling handles the replica's own READY on the state with root, fragment and value set, then broadcasts it unless that panicked |
| Ctrbc.SettleProperties | consensus/ctrbc/src/protocol/echo.rs:47-103 | settling keeps the invariant and sets the echo root exactly when the value is recovered from the shards stored for the root |
| Ctrbc.SettleTerminates | consensus/ctrbc/src/protocol/echo.rs:101-103 | settling calls `terminate` only when its own READY terminates the instance, with the value held |
| Ctrbc.EchoCountedProperties | consensus/ctrbc/src/protocol/echo.rs:41-144 | the ECHO thresholds keep the invariant; a settled root never changes; it is settled only from exactly `n - f` shards; `terminate` only for a running instance, never by a crashed replica at `n` |
| Ctrbc.EchoNextProperties | consensus/ctrbc/src/protocol/echo.rs:8-146 | an ECHO keeps the invariant and leaves a terminated instance alone; the root is settled at most once, from exactly `n - f` stored shards; each `terminate` comes with the flag going from clear to set |
| Ctrbc.ReadyOn | consensus/ctrbc/src/protocol/ready.rs:10-140 | the method computes exactly `ReadyNext` |
| Ctrbc.ReadyCountedOn | consensus/ctrbc/src/protocol/ready.rs:52-138 | the method, with its reconstruction loops, computes the READY thresholds |
| Ctrbc.EchoOn | consensus/ctrbc/src/protocol/echo.rs:8-146 | the method computes exactly `EchoNext` |
| Ctrbc.SettleOn | consensus/ctrbc/src/protocol/echo.rs:47-103 | the method, with its loops and the nested `handle_ready`, computes `Settle` |
| Ctrbc.Context.constructor | consensus/ctrbc/src/protocol/echo.rs:7 | a context with a sound configuration and no instances or effects |
| Ctrbc.Context.HandleEcho | consensus/ctrbc/src/protocol/echo.rs:8-146 | only the instance's state changes, as `EchoNext` says, and the replica panics exactly when its effects hold a panic |
| Ctrbc.Context.HandleReady | consensus/ctrbc/src/protocol/ready.rs:10-140 | only the instance's state changes, as `ReadyNext` says, and the replica panics exactly when its effects hold a panic |
| Ctrbc.Context.Commit | consensus/ctrbc/src/protocol/echo.rs:101-103 | a handler's state and effects are written back; a panic stops the replica |
| RbcCommon.Zeros | consensus/ccbrb/src/protocol/ready.rs:50 | `vec![0; len]` has `len` bytes, all zero |
| RbcCommon.MaxCount | consensus/addrbc/src/protocol/rbc_state.rs:58-69 | the accumulator loop returns a count no stored count exceeds, with a key holding it, and `None` exactly when every count is 0 |
| RbcCommon.Lengths | consensus/addrbc/src/protocol/rbc_state.rs:74-76 | the compared counts are the lengths of the share vectors, key for key |
| RbcCommon.RecordCounted | consensus/addrbc/src/protocol/echo.rs:116-120 | counting only first receipts keeps every count equal to its number of distinct senders; a repeated origin changes nothing |
| RbcCommon.Put | consensus/ctrbc/src/protocol/echo.rs:36-38 | inserting a shard adds the origin and keeps the other shards |
| RbcCommon.Unwrap | consensus/ctrbc/src/protocol/echo.rs:69 | unwrapping succeeds exactly when every slot is filled, and then keeps every shard in place |
| RbcCommon.ConcatAppend | consensus/ctrbc/src/protocol/echo.rs:71-74 | the message of a longer prefix extends that of a shorter one |
| RbcCommon.ConcatLength | consensus/ctrbc/src/protocol/echo.rs:71-74 | the message is as long as its shards together |
| RbcCommon.Recover | consensus/ctrbc/src/protocol/echo.rs:50-77 | recovery fails exactly when `reconstruct_data` does; otherwise the value is the first `f + 1` shards joined and the own share is shard `myid` |
| RbcCommon.RecoverKeepsReceived | consensus/ctrbc/src/protocol/echo.rs:50-77 | when reconstruction only fills empty slots, the recovered shards agree with every shard received |
| RbcCommon.RecoverOn | consensus/ctrbc/src/protocol/echo.rs:50-77 | the reconstruction block's loops compute `Recover` |
| Borbc.VoteThreshold | consensus/borbc/src/protocol/echo.rs:65 | `(n + 1) / 2` is `ceil(n/2)`: the least count at least half of `n` |
| Borbc.ReadyThreshold | consensus/borbc/src/protocol/echo.rs:81 | `(n + f - 1 + 1) / 2` is `ceil((n+f-1)/2)` |
| Borbc.OptThreshold | consensus/borbc/src/protocol/echo.rs:94 | `(n + 2f - 2 + 1) / 2` is `ceil((n+2f-2)/2)` |
| Borbc.LatchThreshold | consensus/borbc/src/protocol/echo.rs:99 | `(n - f + 1 + 1) / 2` is `ceil((n-f+1)/2)` |
| Borbc.NewWf | consensus/borbc/src/protocol/rbc_state.rs:26-42 | a fresh state keeps the invariant, with every flag clear and no echo root |
| Borbc.AcceptProperties | consensus/borbc/src/protocol/echo.rs:180-209 | accepting a value changes only the root, fragment, value and, when committing, the termination flag; no VOTE; `terminate` last, with the value, exactly when committing |
| Borbc.RebuildState | consensus/borbc/src/protocol/echo.rs:156-211 | the recovery keeps the invariant, settles only the root, fragment and value from the shards, and terminates only when it commits and returns |
| Borbc.RebuildTerminated | consensus/borbc/src/protocol/echo.rs:190-198 | the recovery sets the termination flag only when it returns |
| Borbc.RebuildFlags | consensus/borbc/src/protocol/echo.rs:156-211 | the recovery leaves the sending flags alone |
| Borbc.RebuildOutput | consensus/borbc/src/protocol/echo.rs:156-211 | the recovery sends no VOTE, calls `terminate` only last when it returns terminated, with the value held, and panics exactly when it runs and a recovered slot is empty |
| Borbc.OneVoteAppend | consensus/borbc/src/protocol/echo.rs:147-154 | appending effects without a VOTE adds none |
| Borbc.NoVoteAppend | consensus/borbc/src/protocol/echo.rs:156-225 | effects without VOTEs stay without |
| Borbc.TerminateLastAppend | consensus/borbc/src/protocol/echo.rs:196-224 | `terminate` stays the last effect when effects without it come first |
| Borbc.AnnounceProperties | consensus/borbc/src/protocol/echo.rs:147-154 | at most one VOTE and at most one READY, each only on its own threshold trigger and when not crashed, carrying the replica's own share; no `terminate` and no panic |
| Borbc.AtNProperties | consensus/borbc/src/protocol/echo.rs:214-225 | the `n` branch sends no VOTE, cannot panic, and ends with `terminate` on the stored value |
| Borbc.FinishVotes | consensus/borbc/src/protocol/echo.rs:156-225 | after the recovery no VOTE is added |
| Borbc.FinishTerminates | consensus/borbc/src/protocol/echo.rs:190-225 | after the recovery `terminate` comes last: the recovery's own when it returned, or the `n` branch's with the stored value |
| Borbc.EchoStoredFrame | consensus/borbc/src/protocol/echo.rs:49-225 | with a shard stored, only the sending flags, the termination flag and the root, fragment and value change |
| Borbc.EchoStoredFlags | consensus/borbc/src/protocol/echo.rs:64-92 | `sent_vote` and `sent_ready` are raised exactly on their thresholds |
| Borbc.EchoStoredSettles | consensus/borbc/src/protocol/echo.rs:156-211 | the invariant holds and the root, fragment and value are settled only from the recovery |
| Borbc.EchoStoredVotes | consensus/borbc/src/protocol/echo.rs:64-150 | at most one VOTE, for the instance, and only when `sent_vote` is raised |
| Borbc.EchoStoredVoteSender | consensus/borbc/src/protocol/echo.rs:64-150 | a VOTE goes out only when not crashed, under the replica's own id, with `ceil(n/2)` echoes for the root |
| Borbc.EchoStoredTerminates | consensus/borbc/src/protocol/echo.rs:190-225 | `terminate` leaves the instance terminated and carries the value it holds |
| Borbc.EchoStoredTerminateLast | consensus/borbc/src/protocol/echo.rs:196-224 | `terminate` is called at most once, and last |
| Borbc.EchoStoredPanics | consensus/borbc/src/protocol/echo.rs:112-170 | under the invariant the handler panics only when the recovery does |
| Borbc.StoredWf | consensus/borbc/src/protocol/echo.rs:49 | storing a shard keeps the invariant |
| Borbc.EchoNextIgnores | consensus/borbc/src/protocol/echo.rs:28-47 | an ECHO to a terminated instance, with a failing proof, or from an origin already stored changes nothing |
| Borbc.EchoNextStores | consensus/borbc/src/protocol/echo.rs:43-211 | any other ECHO stores exactly the origin's shard, and changes root, fragment and value only to what the stored shards recover when they hash to the root, and only when the `k` echoes now stored reach `OptThreshold`, reach `LatchThreshold` with the READY quorum, or equal `n - f` |
| Borbc.EchoNextAccepts | consensus/borbc/src/protocol/echo.rs:94-211 | conversely, when the `k` stored echoes reach one of those thresholds and the shards recover a value hashing to the root, that root and value are settled; at `OptThreshold`, or `LatchThreshold` with the quorum, the instance terminates with `terminate(value)` last and its READY sent unless crashed; at `n - f` alone it stays running and handles and broadcasts its own READY |
| Borbc.EchoStoredThresholds | consensus/borbc/src/protocol/echo.rs:94-124 | with the shard stored, a running instance terminates only at `OptThreshold`, at `LatchThreshold` with the READY quorum, or at `n` echoes with a known root; the echo root changes only at the first two or at `n - f` |
| Borbc.EchoStoredAccepts | consensus/borbc/src/protocol/echo.rs:156-211 | with the shard stored, a recovery at a threshold that hashes to the root settles root, share and value, and terminates exactly on the committing thresholds |
| Borbc.EchoNextWf | consensus/borbc/src/protocol/echo.rs:9-226 | an ECHO keeps the invariant and never lowers `sent_vote` |
| Borbc.EchoNextKeeps | consensus/borbc/src/protocol/echo.rs:9-226 | an ECHO never touches votes, readys or the READY quorum flag, and never lowers `sent_ready` |
| Borbc.EchoNextVotes | consensus/borbc/src/protocol/echo.rs:64-150 | an ECHO sends at most one VOTE, for the instance, only when it raises `sent_vote` and is not crashed |
| Borbc.EchoNextTerminates | consensus/borbc/src/protocol/echo.rs:9-226 | `terminate` at most once, last, only when a running instance terminates; a running instance terminates only when its `k` stored echoes reach `OptThreshold`, reach `LatchThreshold` with the READY quorum, or equal `n` with a known root; a panic only when a recovered slot is empty |
| Borbc.VoteRecordedMaps | consensus/borbc/src/protocol/vote.rs:11-41 | looking at a VOTE creates the root's entries, changes no echo and no other root's votes, and records at most the origin's shard, only for an origin that echoed that shard or whose proof verifies |
| Borbc.VoteRecordedWf | consensus/borbc/src/protocol/vote.rs:11-41 | looking at a VOTE keeps the invariant and changes only the echo and vote maps |
| Borbc.VoteNextState | consensus/borbc/src/protocol/vote.rs:5-65 | a VOTE keeps the invariant, leaves a terminated instance alone, and otherwise changes only the two maps and `sent_ready` |
| Borbc.VoteNextFlag | consensus/borbc/src/protocol/vote.rs:43-48 | a VOTE only raises `sent_ready`, and only with `ceil((n+f-1)/2)` votes for the root |
| Borbc.VoteNextRecords | consensus/borbc/src/protocol/vote.rs:15-41 | a VOTE records at most the origin's shard under the root, only for an origin that echoed that shard or whose proof verifies |
| Borbc.VoteNextReady | consensus/borbc/src/protocol/vote.rs:47-64 | a VOTE sends at most one READY: when it raises `sent_ready` and is not crashed, with the stored fragment or else the message's shard and proof, under the replica's own id |
| Borbc.EchoOn | consensus/borbc/src/protocol/echo.rs:9-226 | the method computes exactly `EchoNext` |
| Borbc.EchoStoredOn | consensus/borbc/src/protocol/echo.rs:49-225 | the method, with its reconstruction loops, computes the thresholds on the recovery the shards give |
| Borbc.RebuildOn | consensus/borbc/src/protocol/echo.rs:156-211 | the method computes the recovery on the shards stored for the root |
| Borbc.VoteOn | consensus/borbc/src/protocol/vote.rs:5-65 | the method computes exactly `VoteNext` |
| Borbc.VoteCountAppend | consensus/borbc/src/protocol/echo.rs:148-150 | the VOTEs of two steps in turn add up |
| Borbc.VoteCountNone | consensus/borbc/src/protocol/echo.rs:148-150 | no VOTE, no count |
| Borbc.VoteCountAtMostOne | consensus/borbc/src/protocol/echo.rs:66-150 | effects with at most one VOTE count it once for its instance and nowhere else |
| Borbc.VotesAfter | consensus/borbc/src/protocol/echo.rs:66-150 | a handler that votes only when it raises `sent_vote` keeps every instance's VOTE count within its flag |
| Borbc.Context.constructor | consensus/borbc/src/protocol/rbc_state.rs:45-49 | a context with a sound configuration and no instances or effects |
| Borbc.Context.HandleEcho | consensus/borbc/src/protocol/echo.rs:9-226 | only the instance's state changes, as `EchoNext` says; every instance still broadcasts a VOTE at most once |
| Borbc.Context.HandleVote | consensus/borbc/src/protocol/vote.rs:5-65 | only the instance's state changes, as `VoteNext` says |
| Borbc.Context.Commit | consensus/borbc/src/protocol/echo.rs:147-225 | a handler's state and effects are written back; a panic stops the replica |

## Left out

- I/O is recorded, not performed. SSH, Fabric `Connection`/`Group`, `subprocess.run`, tmux and file writes become events in an ordered trace. What the outside world answers is a fixed function: stderr and stdout per host and command, and whether compilation or tmux fails.
- Remote.Bench.Upload: never fails. The source's `c.run`/`c.put` (benchmark/benchmark/remote.py:227-238) can raise outside the `except` that wraps subprocess and Group errors; the model records the events only.
- Remote.Bench.UploadTo: never fails, for the same reason: a failing `c.run` or `c.put` on one host is not modelled.
- Remote.Bench.BackgroundRun: a non-zero exit is reported only through non-empty stderr. Fabric's `c.run` raises `UnexpectedExit` on a non-zero exit before `_check_stderr` runs (benchmark/benchmark/remote.py:136-137); that exception is not modelled.
- Remote.Bench.PullLogs: the latency script's non-zero exit status is not modelled. Only its stdout is read (benchmark/benchmark/remote.py:473).
- Remote.ConfigErrors: the error list is closed only because of the three omissions above. The `UnexpectedExit` and upload exceptions of Fabric would add to it.
- Remote.ConfigRunErrors: the same limitation as `Remote.ConfigErrors`.
- These remote operations are not modelled:
  - `install` and `kill` (benchmark/benchmark/remote.py:57-94);
  - `justrun` and `_just_run` (311-343, 416-450), which repeat the boot loop of `_config` without its configuration steps;
  - `_logs` (346-377), which downloads and parses the node logs through classes that are not part of this model.
- The `_update` pipeline of git and cargo commands is one `UpdatePipeline` event, with a fixed answer for whether it fails; its command text is not modelled.
- `exp_setup`, `st_time` and `tri` in `run` are left out (benchmark/benchmark/remote.py:241-246, 275-281); they only time and label the run.
- The content of `committee.print` and `node_parameters.print` is one `PrintConfig` event. `BenchParameters`, `NodeParameters`, `Committee`, `PathMaker` and the SSH key loading are not part of this model: their values are parameters.
- Printing, `Print.info`/`warn`, `progress_bar`, the text of `BenchError` messages from Fabric, and the printed formatting of rows and reports are left out.
- Remote.AveragesSpec: the mean is an exact rational. Python's `round(mean, 3)` and floating-point arithmetic are left out.
- LogFormats.ParseDecimal: `float()` becomes an exact non-negative decimal. Exponents, signs, `inf`/`nan`, underscores and binary rounding are left out; the regular expressions only let digits and dots through anyway.
- Commands.Str: a string inside a list renders as `'s'` with no escaping. Python's `repr` switches to double quotes when the string holds a `'` and no `"`, and escapes backslashes, the quote used and non-printable characters, so such an element renders differently. The list path is reachable through arguments the commands do not check, such as `bfile` in `run_syncer` (benchmark/benchmark/commands.py:45-51).
- Text.Split: models `split(' ')`, where the argv lists at benchmark/benchmark/local.py:40 and benchmark/benchmark/local.py:62 use `split()`. The two agree on a line of non-empty words free of whitespace joined by single spaces, which the command lines there are; `split()` would also split on tabs and newlines and drop empty words. `Commands.Word` is correspondingly only "free of spaces", not a full shell-quoting check.
- Text.SplitLines: splits on '\n' only. Python's `str.splitlines()` (scripts/aggregate.py:28) also splits on '\r', '\v', '\f', '\x1c'-'\x1e', '\x85', '\u2028' and '\u2029'; file iteration with universal newlines (scripts/aggregate_msg_sizes.py:42, scripts/aggregate_and_plot.py:32) also splits on a lone '\r'. A column joined by '\r' is one line in the model and several in Python.
- LogFormats.IsSpace: the ASCII whitespace only. Python's `\s` and `str.strip()` also accept Unicode whitespace.
- Aggregate.Strip: strips ASCII whitespace only (see `LogFormats.IsSpace`).
- Text.Lower: lower-cases the ASCII letters only. Python's `str.lower()` also maps non-ASCII letters.
- LogFormats.MatchIdLine: the regular-expression classes `\d`, `\s` and `\w` are ASCII. Python's `str` patterns and `int()` also accept Unicode digits, whitespace and word characters.
- Statistics and plotting are left out: `np.median`, `np.std`, the error bars, and matplotlib's drawing and file output. Plots are values that record what is drawn and the means.
- The syncer's tokio `select!` loop, the exit channel, and the "networking layer has closed" error are left out. Events are handled one method call at a time, and the clock is a parameter.
- Borbc.OptThreshold: at `n = 1, f = 0` the `usize` expression `n + 2f - 2` underflows; the model takes the release-build result 0, where a debug build panics.
- Syncer.WrapSub: `completion - start` on `u128` is modelled as wrapping, as in a release build; a debug build panics on underflow.
- The syncer's address parsing (`expect("Unable to parse address")`) and its log text are left out. So are the fields the run loop never reads: `rbc_msgs`, `sharing_complete_times`, `recon_start_time`, `timings` and `cli_addr`.
- Calls into code outside the core are recorded as effects, not executed:
  - addrbc's `start_ready`;
  - ccbrb's `broadcast`;
  - ctrbc's and borbc's `broadcast` and `terminate`;
  - borbc's own `handle_ready` after the `n - f` recovery (consensus/borbc/src/protocol/echo.rs:206).
- borbc's `handle_ready` and the code that sets `ready_quorum_reached` are not part of this model. The flag is read as stored.
- Hashing, Merkle trees and proofs, `reconstruct_data`, `get_shards`, FEC encoding and decoding, MAC verification and `bincode` are opaque functions of each replica's configuration.
- The network send layer and `CancelHandler` are reduced to outbox entries and a count of handlers.
