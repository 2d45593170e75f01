/**
 * `scripts/aggregate_and_plot.py`: every `.log` file of the benchmark is
 * read into `aggregated_data[node_count][config_key][msg_id]`, three
 * nested `defaultdict`s whose entries appear when a latency is first
 * appended under them. Then, for each node count in ascending order, a
 * histogram is drawn for each configuration of all its latencies, and
 * one box plot compares the configurations.
 *
 * The directory listing is a parameter; plots are values rather than
 * drawings, and of the statistics only the mean is kept (the median and
 * `std` come from numpy and are left out).
 */
module AggregateAndPlot {
  import opened Wrappers
  import opened Text
  import opened LogFormats
  import opened Grouping
  import opened Sorting
  import opened Effects
  import opened LineReadings

  // -------------------------------------------------------- configurations

  /** `f"{protocol}_{byz}"`. */
  function ConfigKey(protocol: string, byz: string): string
  {
    protocol + "_" + byz
  }

  /** Reads a configuration key back into its protocol and byzantine flag. */
  function SplitConfigKey(key: string): (string, string)
  {
    if EndsWith(key, "_true") then (key[..|key| - 5], "true")
    else if EndsWith(key, "_false") then (key[..|key| - 6], "false")
    else (key, "")
  }

  /**
   * The flag the file-name pattern captures is `true` or `false`, so a
   * configuration key determines its protocol and flag: two runs share a
   * key only when they share both.
   */
  lemma ConfigKeyRoundTrip(protocol: string, byz: string)
    requires byz == "true" || byz == "false"
    ensures SplitConfigKey(ConfigKey(protocol, byz)) == (protocol, byz)
  {
    var key := ConfigKey(protocol, byz);
    if byz == "true" {
      assert key[|key| - 5..] == "_true";
      assert key[..|key| - 5] == protocol;
    } else {
      assert key[|key| - 5..] == "false";
      assert key[|key| - 6..] == "_false";
      assert key[..|key| - 6] == protocol;
    }
  }

  // ------------------------------------------------------------- the lines

  /**
   * One log line: the id line pattern, then `int` of the id and `float`
   * of the latency, which raises `ValueError` on text such as `1.2.3`.
   */
  function ReadLatencyLine(line: string): Reading
  {
    match MatchIdLine(line)
    case None => Skipped
    case Some((id, latency)) =>
      match ParseDecimal(latency)
      case None => NotANumber
      case Some(ms) => Time(DigitsValue(id), ms)
  }

  function Samples(lines: seq<string>): (rs: seq<Reading>)
    ensures |rs| == |lines|
  {
    seq(|lines|, k requires 0 <= k < |lines| => ReadLatencyLine(lines[k]))
  }

  /** The `(msg_id, latency)` pairs of one log file, or the `ValueError`. */
  function FilePairs(text: string): Result<seq<(int, real)>, Error>
  {
    Collect(Samples(SplitLines(text)))
  }

  /** A line the node prints is read back as its id and latency. */
  lemma ReadPrintedLatencyLine(id: nat, size: nat, latency: string, count: nat)
    requires ValidDecimalText(latency)
    ensures var r := ReadLatencyLine(LatencyLine(id, size, latency, count));
      && (ParseDecimal(latency).None? ==> r == NotANumber)
      && (ParseDecimal(latency).Some? ==> r == Time(id, ParseDecimal(latency).value))
  {
    MatchIdLineRendered(id, size, latency, count);
    DigitsValueOfNatToString(id);
  }

  // ------------------------------------------------------------- the files

  /** The node count and configuration key of a log file the script reads. */
  function FileKey(name: string): Option<(nat, string)>
  {
    match LogName(name)
    case None => None
    case Some((protocol, nodes, byz)) => Some((nodes, ConfigKey(protocol, byz)))
  }

  type Read = FileRead<(nat, string)>

  function ReadFile(f: LogFile): Read
  {
    FileRead(FileKey(f.name), FilePairs(f.text))
  }

  function Reads(files: seq<LogFile>): (rs: seq<Read>)
    ensures |rs| == |files|
  {
    seq(|files|, i requires 0 <= i < |files| => ReadFile(files[i]))
  }

  /** Message id to latencies. */
  type Cell = Dict<int, seq<real>>

  /** Configuration key to its cell. */
  type Row = Dict<string, Cell>

  /** `aggregated_data`: node count to its row. */
  type Table = Dict<nat, Row>

  /** `aggregated_data[node_count][config_key][msg_id].append(latency)`. */
  function AddLatency(t: Table, nodes: nat, config: string, id: int, latency: real): Table
  {
    var row := Get(t, nodes, Empty());
    var cell := Get(row, config, Empty());
    Store(t, nodes, Store(row, config, AppendTo(cell, id, latency)))
  }

  /** The appends for one file's pairs, in order. */
  function AddPairs(t: Table, nodes: nat, config: string, ps: seq<(int, real)>): Table
  {
    if ps == [] then t
    else AddLatency(AddPairs(t, nodes, config, ps[..|ps| - 1]), nodes, config, ps[|ps| - 1].0, ps[|ps| - 1].1)
  }

  /** One file, or the error that ends the script. */
  function AddFile(t: Table, r: Read): Result<Table, Error>
  {
    match r.key
    case None => Success(t)
    case Some((nodes, config)) =>
      match r.pairs
      case Failure(e) => Failure(e)
      case Success(ps) => Success(AddPairs(t, nodes, config, ps))
  }

  /** `aggregated_data` after the files read so far, or the error that ended the script. */
  function Fold(rs: seq<Read>): Result<Table, Error>
  {
    if rs == [] then Success(Empty())
    else
      match Fold(rs[..|rs| - 1])
      case Failure(e) => Failure(e)
      case Success(t) => AddFile(t, rs[|rs| - 1])
  }

  /** `aggregated_data` after every file of the listing, or the error that ends the script. */
  function Aggregated(files: seq<LogFile>): Result<Table, Error>
  {
    Fold(Reads(files))
  }

  /**
   * A file's appends touch only its own cell: a file without a matching
   * line creates nothing, and otherwise its cell receives the file's
   * pairs after those already there.
   */
  lemma {:induction false} AddPairsSpec(t: Table, nodes: nat, config: string, ps: seq<(int, real)>)
    requires ps != []
    ensures var row := Get(t, nodes, Empty());
      AddPairs(t, nodes, config, ps) == Store(t, nodes, Store(row, config, AppendAll(Get(row, config, Empty()), ps)))
    decreases |ps|
  {
    var row := Get(t, nodes, Empty());
    var cell := Get(row, config, Empty());
    var init, p := ps[..|ps| - 1], ps[|ps| - 1];
    if init == [] {
      assert AppendAll(cell, ps) == AppendTo(AppendAll(cell, init), p.0, p.1);
    } else {
      AddPairsSpec(t, nodes, config, init);
      var x := AppendAll(cell, init);
      var t1 := Store(t, nodes, Store(row, config, x));
      assert Get(t1, nodes, Empty()) == Store(row, config, x);
      StoreStore(row, config, x, AppendTo(x, p.0, p.1));
      StoreStore(t, nodes, Store(row, config, x), Store(row, config, AppendTo(x, p.0, p.1)));
    }
  }

  /** The script's reading loop over the directory. */
  method AggregateLogs(files: seq<LogFile>) returns (r: Result<Table, Error>)
    ensures r == Aggregated(files)
  {
    ghost var rs := Reads(files);
    var t: Table := Empty();
    for i := 0 to |files|
      invariant Fold(rs[..i]) == Success(t)
    {
      var f := files[i];
      assert rs[..i + 1][..i] == rs[..i];
      assert rs[i] == ReadFile(f);
      var key := FileKey(f.name);
      if key.None? {
        continue;
      }
      var (nodes, config) := key.value;
      var next := ReadLog(t, nodes, config, f.text);
      if next.Failure? {
        FoldStops(rs, i + 1);
        assert rs[..|rs|] == rs;
        return next;
      }
      t := next.value;
    }
    assert rs[..|files|] == rs;
    r := Success(t);
  }

  /** The loop over one file's lines. */
  method ReadLog(t: Table, nodes: nat, config: string, text: string) returns (r: Result<Table, Error>)
    ensures r == AddFile(t, FileRead(Some((nodes, config)), FilePairs(text)))
  {
    var lines := SplitLines(text);
    ghost var rs := Samples(lines);
    var table := t;
    var k := 0;
    while k < |lines|
      invariant 0 <= k <= |lines|
      invariant Collect(rs[..k]).Success?
      invariant table == AddPairs(t, nodes, config, Collect(rs[..k]).value)
    {
      var line := lines[k];
      CollectNext(rs, k);
      assert rs[k] == ReadLatencyLine(line);
      ghost var before := Collect(rs[..k]).value;
      var m := MatchIdLine(line);
      if m.Some? {
        var msgId := DigitsValue(m.value.0);
        var latency := ParseDecimal(m.value.1);
        if latency.None? {
          CollectStops(rs, k + 1);
          assert rs[..|rs|] == rs;
          return Failure(ValueError);
        }
        assert (before + [(msgId, latency.value)])[..|before|] == before;
        table := AddLatency(table, nodes, config, msgId, latency.value);
      }
      k := k + 1;
    }
    assert rs[..k] == rs;
    r := Success(table);
  }

  /** Once a file fails, the script has stopped with that error. */
  lemma {:induction false} FoldStops(rs: seq<Read>, k: nat)
    requires k <= |rs| && Fold(rs[..k]).Failure?
    ensures Fold(rs) == Fold(rs[..k])
    decreases |rs|
  {
    if k < |rs| {
      var init := rs[..|rs| - 1];
      assert init[..k] == rs[..k];
      FoldStops(init, k);
    } else {
      assert rs[..k] == rs;
    }
  }

  // -------------------------------------------------- what the table holds

  /** `config_key in aggregated_data[node_count]`. */
  ghost predicate Has(t: Table, nodes: nat, config: string)
  {
    nodes in t.entries && config in t.entries[nodes].entries
  }

  /** The table and its rows are well-formed dictionaries, and no row is empty. */
  ghost predicate Shaped(t: Table)
  {
    Valid(t) && forall nodes :: nodes in t.entries ==> Valid(t.entries[nodes]) && t.entries[nodes].keys != []
  }

  /** A cell exists exactly for the node counts and configurations some latency was read for. */
  ghost predicate Keyed(rs: seq<Read>, t: Table)
  {
    forall nodes: nat, config: string :: Has(t, nodes, config) <==> PairsFor(rs, (nodes, config)) != []
  }

  /** Each cell holds the pairs read for it, grouped by message id. */
  ghost predicate Grouped(rs: seq<Read>, t: Table)
  {
    forall nodes: nat, config: string :: Has(t, nodes, config) ==>
      t.entries[nodes].entries[config] == Group(PairsFor(rs, (nodes, config)))
  }

  /**
   * The table is a well-formed nested dictionary whose rows are never
   * empty, with a cell exactly for the node counts and configurations
   * some latency was read for, holding those pairs grouped by message id.
   */
  ghost predicate Holds(rs: seq<Read>, t: Table)
  {
    Shaped(t) && Keyed(rs, t) && Grouped(rs, t)
  }

  /**
   * The script fails exactly when some log file it reads has a latency
   * that is not a number, and then with `ValueError`; otherwise the table
   * holds every pair read, grouped by node count, configuration key and
   * message id.
   */
  lemma {:induction false} FoldSpec(rs: seq<Read>)
    requires forall i :: 0 <= i < |rs| && rs[i].pairs.Failure? ==> rs[i].pairs.error == ValueError
    ensures Fold(rs).Success? <==> Readable(rs)
    ensures Fold(rs).Failure? ==> Fold(rs).error == ValueError
    ensures Fold(rs).Success? ==> Holds(rs, Fold(rs).value)
    decreases |rs|
  {
    if rs != [] {
      var init, r := rs[..|rs| - 1], rs[|rs| - 1];
      FoldSpec(init);
      ReadableSnoc(rs);
      if Fold(init).Success? {
        var t0 := Fold(init).value;
        if r.key.None? || r.pairs == Success([]) {
          NothingAdded(rs);
        } else if r.pairs.Success? {
          AddedHolds(rs, t0);
        }
      }
    }
  }

  /** A skipped file, or one without a matching line, leaves every key's pairs as they were. */
  lemma NothingAdded(rs: seq<Read>)
    requires rs != [] && (rs[|rs| - 1].key.None? || rs[|rs| - 1].pairs == Success([]))
    ensures forall key :: PairsFor(rs, key) == PairsFor(rs[..|rs| - 1], key)
  {
    forall key ensures PairsFor(rs, key) == PairsFor(rs[..|rs| - 1], key) {
      var p := PairsFor(rs[..|rs| - 1], key);
      assert p + [] == p;
    }
  }

  /** A file with pairs: the table after it still holds what was read. */
  lemma AddedHolds(rs: seq<Read>, t0: Table)
    requires rs != [] && rs[|rs| - 1].key.Some? && rs[|rs| - 1].pairs.Success? && rs[|rs| - 1].pairs.value != []
    requires Holds(rs[..|rs| - 1], t0)
    ensures AddFile(t0, rs[|rs| - 1]).Success? && Holds(rs, AddFile(t0, rs[|rs| - 1]).value)
  {
    var r := rs[|rs| - 1];
    var (n, c) := r.key.value;
    var ps := r.pairs.value;
    var row := Get(t0, n, Empty());
    var v := AppendAll(Get(row, c, Empty()), ps);
    AddPairsSpec(t0, n, c, ps);
    var t := Store(t0, n, Store(row, c, v));
    assert AddFile(t0, r) == Success(t);
    AddedShape(t0, n, c, v);
    AddedKeys(rs, t0, v);
    AddedCell(rs, t0);
    AddedCells(rs, t0, v);
  }

  /** Storing a cell keeps the table well-formed and its rows non-empty. */
  lemma AddedShape(t0: Table, n: nat, c: string, v: Cell)
    requires Shaped(t0)
    ensures Shaped(Store(t0, n, Store(Get(t0, n, Empty()), c, v)))
  {
    var row := Get(t0, n, Empty());
    StoreValid(row, c, v);
    StoreValid(t0, n, Store(row, c, v));
  }

  /** Which cells exist after storing one, and that the others are unchanged. */
  lemma StoreHas(t0: Table, n: nat, c: string, v: Cell, nodes: nat, config: string)
    ensures var t := Store(t0, n, Store(Get(t0, n, Empty()), c, v));
      && (Has(t, nodes, config) <==> (nodes == n && config == c) || Has(t0, nodes, config))
      && (Has(t, nodes, config) && (nodes != n || config != c) ==>
            t.entries[nodes].entries[config] == t0.entries[nodes].entries[config])
  {
  }

  lemma AddedKeys(rs: seq<Read>, t0: Table, v: Cell)
    requires rs != [] && rs[|rs| - 1].key.Some? && rs[|rs| - 1].pairs.Success? && rs[|rs| - 1].pairs.value != []
    requires Keyed(rs[..|rs| - 1], t0)
    ensures var (n, c) := rs[|rs| - 1].key.value;
      Keyed(rs, Store(t0, n, Store(Get(t0, n, Empty()), c, v)))
  {
    var (n, c) := rs[|rs| - 1].key.value;
    var t := Store(t0, n, Store(Get(t0, n, Empty()), c, v));
    forall nodes: nat, config: string ensures Has(t, nodes, config) <==> PairsFor(rs, (nodes, config)) != [] {
      StoreHas(t0, n, c, v, nodes, config);
      if nodes == n && config == c {
        assert PairsFor(rs, (n, c)) == PairsFor(rs[..|rs| - 1], (n, c)) + rs[|rs| - 1].pairs.value;
      } else {
        PairsForOther(rs, (nodes, config));
      }
    }
  }

  /** The file's own cell: its earlier pairs grouped, with the file's pairs appended. */
  lemma AddedCell(rs: seq<Read>, t0: Table)
    requires rs != [] && rs[|rs| - 1].key.Some? && rs[|rs| - 1].pairs.Success?
    requires Keyed(rs[..|rs| - 1], t0) && Grouped(rs[..|rs| - 1], t0)
    ensures var (n, c) := rs[|rs| - 1].key.value;
      AppendAll(Get(Get(t0, n, Empty()), c, Empty()), rs[|rs| - 1].pairs.value) == Group(PairsFor(rs, (n, c)))
  {
    var init, r := rs[..|rs| - 1], rs[|rs| - 1];
    var (n, c) := r.key.value;
    var ps := r.pairs.value;
    if !Has(t0, n, c) {
      assert PairsFor(init, (n, c)) == [];
    }
    assert Get(Get(t0, n, Empty()), c, Empty()) == Group(PairsFor(init, (n, c)));
    AppendAllGroup(PairsFor(init, (n, c)), ps);
    assert PairsFor(rs, (n, c)) == PairsFor(init, (n, c)) + ps;
  }

  lemma AddedCells(rs: seq<Read>, t0: Table, v: Cell)
    requires rs != [] && rs[|rs| - 1].key.Some?
    requires Grouped(rs[..|rs| - 1], t0)
    requires var (n, c) := rs[|rs| - 1].key.value; v == Group(PairsFor(rs, (n, c)))
    ensures var (n, c) := rs[|rs| - 1].key.value;
      Grouped(rs, Store(t0, n, Store(Get(t0, n, Empty()), c, v)))
  {
    var (n, c) := rs[|rs| - 1].key.value;
    var t := Store(t0, n, Store(Get(t0, n, Empty()), c, v));
    forall nodes: nat, config: string | Has(t, nodes, config)
      ensures t.entries[nodes].entries[config] == Group(PairsFor(rs, (nodes, config)))
    {
      StoreHas(t0, n, c, v, nodes, config);
      if nodes != n || config != c {
        PairsForOther(rs, (nodes, config));
      }
    }
  }

  /** Some line of the file has a latency that is not a number. */
  ghost predicate Malformed(text: string)
  {
    exists k :: 0 <= k < |SplitLines(text)| && ReadLatencyLine(SplitLines(text)[k]).NotANumber?
  }

  /** A file is read without error unless one of its lines has a latency that is not a number. */
  lemma FilePairsSpec(text: string)
    ensures FilePairs(text).Failure? <==> Malformed(text)
    ensures FilePairs(text).Failure? ==> FilePairs(text).error == ValueError
  {
    var samples := Samples(SplitLines(text));
    CollectSpec(samples);
    if Malformed(text) {
      var k :| 0 <= k < |SplitLines(text)| && ReadLatencyLine(SplitLines(text)[k]).NotANumber?;
      assert samples[k].NotANumber?;
    }
    if FilePairs(text).Failure? {
      var k :| 0 <= k < |samples| && samples[k].NotANumber?;
      assert ReadLatencyLine(SplitLines(text)[k]).NotANumber?;
    }
  }

  /** The whole listing: see `FoldSpec`. */
  lemma AggregatedSpec(files: seq<LogFile>)
    ensures Aggregated(files).Success? <==> Readable(Reads(files))
    ensures Aggregated(files).Failure? ==> Aggregated(files).error == ValueError
    ensures Aggregated(files).Success? ==> Holds(Reads(files), Aggregated(files).value)
  {
    var rs := Reads(files);
    forall i | 0 <= i < |rs| && rs[i].pairs.Failure? ensures rs[i].pairs.error == ValueError {
      assert rs[i].pairs == FilePairs(files[i].text);
      FilePairsSpec(files[i].text);
    }
    FoldSpec(rs);
  }

  // ------------------------------------------------------------- the plots

  /** A saved figure: a histogram for one configuration, or the box plot for one node count. */
  datatype Plot =
    | Histogram(nodes: nat, config: string, latencies: seq<real>, mean: real)
    | BoxPlot(nodes: nat, labels: seq<string>, data: seq<seq<real>>)

  ghost predicate RowValid(row: Row)
  {
    Valid(row) && forall config :: config in row.entries ==> Valid(row.entries[config])
  }

  ghost predicate WellFormed(t: Table)
  {
    Valid(t) && forall nodes :: nodes in t.entries ==> RowValid(t.entries[nodes])
  }

  /** `all_latencies`: every list of the cell, in message-id order. */
  function AllLatencies(cell: Cell): seq<real>
    requires Valid(cell)
  {
    Flatten(cell.keys, cell.entries)
  }

  /** The histograms for `configs`, skipping a configuration without latencies. */
  function Histograms(nodes: nat, row: Row, configs: seq<string>): seq<Plot>
    requires RowValid(row) && forall i :: 0 <= i < |configs| ==> configs[i] in row.entries
  {
    if configs == [] then []
    else
      var config := configs[|configs| - 1];
      var all := AllLatencies(row.entries[config]);
      Histograms(nodes, row, configs[..|configs| - 1]) + (if all == [] then [] else [Histogram(nodes, config, all, Mean(all))])
  }

  /** `data_for_box`. */
  function BoxData(row: Row, configs: seq<string>): seq<seq<real>>
    requires RowValid(row) && forall i :: 0 <= i < |configs| ==> configs[i] in row.entries
  {
    if configs == [] then []
    else
      var all := AllLatencies(row.entries[configs[|configs| - 1]]);
      BoxData(row, configs[..|configs| - 1]) + (if all == [] then [] else [all])
  }

  /** `labels`. */
  function BoxLabels(row: Row, configs: seq<string>): seq<string>
    requires RowValid(row) && forall i :: 0 <= i < |configs| ==> configs[i] in row.entries
  {
    if configs == [] then []
    else
      var config := configs[|configs| - 1];
      BoxLabels(row, configs[..|configs| - 1]) + (if AllLatencies(row.entries[config]) == [] then [] else [config])
  }

  /** The figures for one node count: its histograms, then its box plot unless there is no data. */
  function NodePlots(nodes: nat, row: Row): seq<Plot>
    requires RowValid(row)
  {
    var data := BoxData(row, row.keys);
    Histograms(nodes, row, row.keys) + (if data == [] then [] else [BoxPlot(nodes, BoxLabels(row, row.keys), data)])
  }

  /** The figures for the node counts `order`, in that order. */
  function PlotsFor(t: Table, order: seq<nat>): seq<Plot>
    requires WellFormed(t) && forall i :: 0 <= i < |order| ==> order[i] in t.entries
  {
    if order == [] then []
    else PlotsFor(t, order[..|order| - 1]) + NodePlots(order[|order| - 1], t.entries[order[|order| - 1]])
  }

  /** Every figure the script saves, node counts in ascending order. */
  function Plots(t: Table): seq<Plot>
    requires WellFormed(t)
  {
    SortedIn(t);
    PlotsFor(t, Sort(t.keys))
  }

  /** Each sorted node count is one of the table's. */
  lemma SortedIn(t: Table)
    requires WellFormed(t)
    ensures forall i :: 0 <= i < |Sort(t.keys)| ==> Sort(t.keys)[i] in t.entries
  {
    var order := Sort(t.keys);
    SortProperties(t.keys);
    assert forall i :: 0 <= i < |order| ==> order[i] in multiset(t.keys);
  }

  lemma PlotsForSnoc(t: Table, order: seq<nat>, i: nat)
    requires WellFormed(t) && i < |order| && forall j :: 0 <= j < |order| ==> order[j] in t.entries
    ensures PlotsFor(t, order[..i + 1]) == PlotsFor(t, order[..i]) + NodePlots(order[i], t.entries[order[i]])
  {
    assert order[..i + 1][..i] == order[..i];
  }

  /** The script's plotting loop. */
  method PlotAll(t: Table) returns (plots: seq<Plot>)
    requires WellFormed(t)
    ensures plots == Plots(t)
  {
    var order := Sort(t.keys);
    SortedIn(t);
    plots := [];
    for i := 0 to |order|
      invariant plots == PlotsFor(t, order[..i])
    {
      var nodes := order[i];
      var row := t.entries[nodes];
      var histograms := DrawHistograms(nodes, row);
      var box := DrawBoxPlot(nodes, row);
      PlotsForSnoc(t, order, i);
      plots := plots + (histograms + box);
    }
    assert order[..|order|] == order;
  }

  /** The first inner loop: one histogram per configuration with latencies. */
  method DrawHistograms(nodes: nat, row: Row) returns (plots: seq<Plot>)
    requires RowValid(row)
    ensures plots == Histograms(nodes, row, row.keys)
  {
    plots := [];
    for j := 0 to |row.keys|
      invariant plots == Histograms(nodes, row, row.keys[..j])
    {
      var config := row.keys[j];
      assert row.keys[..j + 1][..j] == row.keys[..j];
      var all := Extend(row.entries[config]);
      if all == [] {
        continue;
      }
      var mean := RealSum(all) / (|all| as real);
      plots := plots + [Histogram(nodes, config, all, mean)];
    }
    assert row.keys[..|row.keys|] == row.keys;
  }

  /** The box plot loop: the non-empty configurations and their latencies. */
  method DrawBoxPlot(nodes: nat, row: Row) returns (plots: seq<Plot>)
    requires RowValid(row)
    ensures plots == if BoxData(row, row.keys) == [] then [] else [BoxPlot(nodes, BoxLabels(row, row.keys), BoxData(row, row.keys))]
  {
    var data: seq<seq<real>> := [];
    var labels: seq<string> := [];
    for j := 0 to |row.keys|
      invariant data == BoxData(row, row.keys[..j]) && labels == BoxLabels(row, row.keys[..j])
    {
      var config := row.keys[j];
      assert row.keys[..j + 1][..j] == row.keys[..j];
      var all := Extend(row.entries[config]);
      if all != [] {
        data := data + [all];
        labels := labels + [config];
      }
    }
    assert row.keys[..|row.keys|] == row.keys;
    plots := if data == [] then [] else [BoxPlot(nodes, labels, data)];
  }

  /** `for msg_id, lat_list in msg_dict.items(): all_latencies.extend(lat_list)`. */
  method Extend(cell: Cell) returns (all: seq<real>)
    requires Valid(cell)
    ensures all == AllLatencies(cell)
  {
    all := [];
    for j := 0 to |cell.keys|
      invariant all == Flatten(cell.keys[..j], cell.entries)
    {
      FlattenSnoc(cell.keys, cell.entries, j);
      all := all + cell.entries[cell.keys[j]];
    }
    assert cell.keys[..|cell.keys|] == cell.keys;
  }

  // -------------------------------------------------------- plot properties

  /**
   * Every cell the reading loop builds has latencies: its list is a
   * rearrangement of all the latencies read for its node count and
   * configuration, in message-id order, and is never empty.
   */
  lemma CellLatencies(rs: seq<Read>, t: Table, nodes: nat, config: string)
    requires Holds(rs, t) && Has(t, nodes, config)
    ensures Valid(t.entries[nodes].entries[config])
    ensures var all := AllLatencies(t.entries[nodes].entries[config]);
      all != [] && multiset(all) == multiset(Values(PairsFor(rs, (nodes, config))))
  {
    var ps := PairsFor(rs, (nodes, config));
    GroupSpec(ps);
    FlattenGroup(ps);
    ValuesLength(ps);
  }

  lemma {:induction false} ValuesLength<K(!new), V>(ps: seq<(K, V)>)
    ensures |Values(ps)| == |ps|
  {
    if ps != [] {
      ValuesLength(ps[..|ps| - 1]);
    }
  }

  /** Every configuration of `configs` is in the row and has latencies. */
  ghost predicate NonEmpty(row: Row, configs: seq<string>)
  {
    && RowValid(row)
    && (forall i :: 0 <= i < |configs| ==> configs[i] in row.entries)
    && (forall i :: 0 <= i < |configs| ==> AllLatencies(row.entries[configs[i]]) != [])
  }

  /**
   * When no configuration is empty, as `CellLatencies` shows for every
   * table the script builds, the histogram loop's `if not all_latencies`
   * never skips: one histogram per configuration, in order.
   */
  lemma {:induction false} AllHistograms(nodes: nat, row: Row, configs: seq<string>)
    requires NonEmpty(row, configs)
    ensures var h := Histograms(nodes, row, configs);
      && |h| == |configs|
      && (forall i :: 0 <= i < |configs| ==>
            var all := AllLatencies(row.entries[configs[i]]);
            h[i] == Histogram(nodes, configs[i], all, Mean(all)))
    decreases |configs|
  {
    if configs != [] {
      var init := configs[..|configs| - 1];
      assert NonEmpty(row, init);
      AllHistograms(nodes, row, init);
    }
  }

  /** Likewise the box plot is labelled with every configuration, in order. */
  lemma {:induction false} AllLabels(row: Row, configs: seq<string>)
    requires NonEmpty(row, configs)
    ensures BoxLabels(row, configs) == configs
    decreases |configs|
  {
    if configs != [] {
      var init := configs[..|configs| - 1];
      assert NonEmpty(row, init);
      AllLabels(row, init);
      assert init + [configs[|configs| - 1]] == configs;
    }
  }

  /** And its data is every configuration's latencies, in order. */
  lemma {:induction false} AllData(row: Row, configs: seq<string>)
    requires NonEmpty(row, configs)
    ensures var data := BoxData(row, configs);
      |data| == |configs| && forall i :: 0 <= i < |configs| ==> data[i] == AllLatencies(row.entries[configs[i]])
    decreases |configs|
  {
    if configs != [] {
      var init := configs[..|configs| - 1];
      assert NonEmpty(row, init);
      AllData(row, init);
    }
  }

  /** The sorted node counts are strictly ascending and exactly the node counts read. */
  lemma PlotOrder(t: Table)
    requires WellFormed(t)
    ensures var order := Sort(t.keys);
      && (forall i, j :: 0 <= i < j < |order| ==> order[i] < order[j])
      && (forall nodes :: nodes in order <==> nodes in t.entries)
  {
    SortDistinct(t.keys);
  }

  /** Every table the script builds can be plotted, and none of its configurations is empty. */
  lemma BuiltTable(rs: seq<Read>, t: Table)
    requires Holds(rs, t)
    ensures WellFormed(t)
    ensures forall nodes :: nodes in t.entries ==> NonEmpty(t.entries[nodes], t.entries[nodes].keys)
  {
    forall n | n in t.entries ensures RowValid(t.entries[n]) {
      forall config | config in t.entries[n].entries ensures Valid(t.entries[n].entries[config]) {
        CellLatencies(rs, t, n, config);
      }
    }
    forall n, i | n in t.entries && 0 <= i < |t.entries[n].keys|
      ensures AllLatencies(t.entries[n].entries[t.entries[n].keys[i]]) != []
    {
      CellLatencies(rs, t, n, t.entries[n].keys[i]);
    }
  }

  /** A node count's configurations are those some latency was read for. */
  lemma RowKeys(rs: seq<Read>, t: Table, nodes: nat)
    requires Holds(rs, t) && nodes in t.entries
    ensures forall config: string :: config in t.entries[nodes].keys <==> PairsFor(rs, (nodes, config)) != []
  {
    var row := t.entries[nodes];
    forall config: string ensures config in row.keys <==> PairsFor(rs, (nodes, config)) != [] {
      assert Has(t, nodes, config) <==> config in row.entries;
    }
  }

  /** One histogram per configuration, plotting every latency read for it. */
  lemma RowHistograms(rs: seq<Read>, t: Table, nodes: nat)
    requires Holds(rs, t) && nodes in t.entries && WellFormed(t)
    ensures var row := t.entries[nodes];
      var h := Histograms(nodes, row, row.keys);
      && |h| == |row.keys|
      && (forall i :: 0 <= i < |row.keys| ==>
            h[i].Histogram? && h[i].config == row.keys[i] && h[i].latencies != []
            && multiset(h[i].latencies) == multiset(Values(PairsFor(rs, (nodes, row.keys[i])))))
  {
    BuiltTable(rs, t);
    var row := t.entries[nodes];
    AllHistograms(nodes, row, row.keys);
    forall i | 0 <= i < |row.keys|
      ensures multiset(AllLatencies(row.entries[row.keys[i]])) == multiset(Values(PairsFor(rs, (nodes, row.keys[i]))))
    {
      CellLatencies(rs, t, nodes, row.keys[i]);
    }
  }

  /** After the histograms comes one box plot labelled with every configuration. */
  lemma RowBox(rs: seq<Read>, t: Table, nodes: nat)
    requires Holds(rs, t) && nodes in t.entries && WellFormed(t)
    ensures var row := t.entries[nodes];
      NodePlots(nodes, row) == Histograms(nodes, row, row.keys) + [BoxPlot(nodes, row.keys, BoxData(row, row.keys))]
  {
    BuiltTable(rs, t);
    var row := t.entries[nodes];
    AllLabels(row, row.keys);
    AllData(row, row.keys);
  }

  /**
   * End to end: after reading `files`, each node count's figures are one
   * histogram per configuration read for it, each plotting every latency
   * read for that configuration, then one box plot labelled with all
   * those configurations.
   */
  lemma ReportSpec(files: seq<LogFile>, nodes: nat)
    requires Aggregated(files).Success?
    requires nodes in Aggregated(files).value.entries
    ensures var t := Aggregated(files).value;
      WellFormed(t)
      && var row := t.entries[nodes];
      var h := Histograms(nodes, row, row.keys);
      && |h| == |row.keys|
      && (forall config: string :: config in row.keys <==> PairsFor(Reads(files), (nodes, config)) != [])
      && (forall i :: 0 <= i < |row.keys| ==>
            h[i].Histogram? && h[i].config == row.keys[i] && h[i].latencies != []
            && multiset(h[i].latencies) == multiset(Values(PairsFor(Reads(files), (nodes, row.keys[i])))))
      && NodePlots(nodes, row) == h + [BoxPlot(nodes, row.keys, BoxData(row, row.keys))]
  {
    AggregatedSpec(files);
    var rs := Reads(files);
    var t := Aggregated(files).value;
    BuiltTable(rs, t);
    RowKeys(rs, t, nodes);
    RowHistograms(rs, t, nodes);
    RowBox(rs, t, nodes);
  }
}
