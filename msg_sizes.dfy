/**
 * `scripts/aggregate_msg_sizes.py`: every `.log` file of the message-size
 * benchmark is read into `aggregated_data[node_count][(protocol, byz)]`,
 * a dictionary from message size to latencies, the size being found from
 * the last digit of the message id. Then one figure is drawn per protocol
 * for 16 and for 40 nodes, with the mean latency of each message size of
 * the non-byzantine runs.
 *
 * The directory listing is a parameter (its order is the order of
 * `os.listdir`); figures are values rather than drawings, and the error
 * bars (`np.std`) are left out.
 */
module MsgSizes {
  import opened Wrappers
  import opened Text
  import opened LogFormats
  import opened Grouping
  import opened Sorting
  import opened Effects
  import opened LineReadings

  // --------------------------------------------------------- message sizes

  /** `MESSAGE_SIZES`: the message size for each last digit of a message id. */
  const MessageSizes: map<nat, int> := map[1 := 256, 2 := 1024, 3 := 4096, 4 := 16384, 5 := 65536, 6 := 131072]

  /** The last digit of the id, with 0 read as 10. */
  function UnitDigit(id: nat): nat
  {
    if id % 10 == 0 then 10 else id % 10
  }

  /**
   * `MESSAGE_SIZES.get(unit_digit)`: ids ending in 1 to 6 have a size,
   * and ids ending in 0, 7, 8 or 9 have none.
   */
  function MessageSize(id: nat): (r: Option<int>)
    ensures r.Some? <==> 1 <= id % 10 <= 6
  {
    var d := UnitDigit(id);
    if d in MessageSizes then Some(MessageSizes[d]) else None
  }

  // ------------------------------------------------------------- the lines

  /**
   * One line of a log: the id line pattern, then `float` of the latency
   * (whose `ValueError` comes before the size lookup), then the size of
   * the id; a line that does not match, or whose id has no size, is
   * skipped.
   */
  function ReadIdLine(line: string): Reading
  {
    match MatchIdLine(line)
    case None => Skipped
    case Some((id, latency)) =>
      match ParseDecimal(latency)
      case None => NotANumber
      case Some(ms) =>
        match MessageSize(DigitsValue(id))
        case None => Skipped
        case Some(size) => Time(size, ms)
  }

  function Samples(lines: seq<string>): (rs: seq<Reading>)
    ensures |rs| == |lines|
  {
    seq(|lines|, k requires 0 <= k < |lines| => ReadIdLine(lines[k]))
  }

  /** The `(size, latency)` pairs of one log file, or the `ValueError`. */
  function FilePairs(text: string): Result<seq<(int, real)>, Error>
  {
    Collect(Samples(SplitLines(text)))
  }

  /**
   * A line the node prints is read back with its latency and the size of
   * its id, whatever its size column says.
   */
  lemma ReadPrintedIdLine(id: nat, size: nat, latency: string, count: nat)
    requires ValidDecimalText(latency)
    ensures var r := ReadIdLine(LatencyLine(id, size, latency, count));
      && (ParseDecimal(latency).None? ==> r == NotANumber)
      && (ParseDecimal(latency).Some? && MessageSize(id).None? ==> r == Skipped)
      && (ParseDecimal(latency).Some? && MessageSize(id).Some? ==>
            r == Time(MessageSize(id).value, ParseDecimal(latency).value))
  {
    MatchIdLineRendered(id, size, latency, count);
    DigitsValueOfNatToString(id);
  }

  // ------------------------------------------------------------- the files

  /** `(protocol, byz)`. */
  type Config = (string, string)

  /** Message size to latencies, in the order sizes were first seen. */
  type Cell = Dict<int, seq<real>>

  /** `aggregated_data`. */
  type Table = map<nat, map<Config, Cell>>

  /**
   * The node count and configuration of a log file, or `None` for a file
   * the script skips: one not ending in `.log` or not matching the name
   * pattern.
   */
  function FileKey(name: string): Option<(nat, Config)>
  {
    match LogName(name)
    case None => None
    case Some((protocol, nodes, byz)) => Some((nodes, (protocol, byz)))
  }

  /** What the script takes from one file. */
  type Read = FileRead<(nat, Config)>

  function ReadFile(f: LogFile): Read
  {
    FileRead(FileKey(f.name), FilePairs(f.text))
  }

  function Reads(files: seq<LogFile>): (rs: seq<Read>)
    ensures |rs| == |files|
  {
    seq(|files|, i requires 0 <= i < |files| => ReadFile(files[i]))
  }

  /**
   * One file: its entries are created before its lines are read, then
   * its pairs are appended.
   */
  function AddFile(t: Table, r: Read): Result<Table, Error>
  {
    match r.key
    case None => Success(t)
    case Some((nodes, config)) =>
      var row := if nodes in t then t[nodes] else map[];
      var cell := if config in row then row[config] else Empty();
      match r.pairs
      case Failure(e) => Failure(e)
      case Success(ps) => Success(t[nodes := row[config := AppendAll(cell, ps)]])
  }

  /** `aggregated_data` after the files read so far, or the error that ended the script. */
  function Fold(rs: seq<Read>): Result<Table, Error>
  {
    if rs == [] then Success(map[])
    else
      match Fold(rs[..|rs| - 1])
      case Failure(e) => Failure(e)
      case Success(t) => AddFile(t, rs[|rs| - 1])
  }

  /** `aggregated_data` after every file of the listing, or the error that ends the script. */
  function Aggregated(files: seq<LogFile>): Result<Table, Error>
  {
    Fold(Reads(files))
  }

  /** The script's reading loop over the directory. */
  method AggregateLogs(files: seq<LogFile>) returns (r: Result<Table, Error>)
    ensures r == Aggregated(files)
  {
    ghost var rs := Reads(files);
    var t: Table := map[];
    for i := 0 to |files|
      invariant Fold(rs[..i]) == Success(t)
    {
      var f := files[i];
      assert rs[..i + 1][..i] == rs[..i];
      assert rs[i] == ReadFile(f);
      var key := FileKey(f.name);
      if key.None? {
        continue;
      }
      var (nodes, config) := key.value;
      var next := AddLog(t, nodes, config, f.text);
      if next.Failure? {
        FoldStops(rs, i + 1);
        assert rs[..|rs|] == rs;
        return next;
      }
      t := next.value;
    }
    assert rs[..|files|] == rs;
    r := Success(t);
  }

  /**
   * One log file of a known node count and configuration: its entries
   * are created, then its lines are read into them.
   */
  method AddLog(t: Table, nodes: nat, config: Config, text: string) returns (r: Result<Table, Error>)
    ensures r == AddFile(t, FileRead(Some((nodes, config)), FilePairs(text)))
  {
    ghost var row: map<Config, Cell> := if nodes in t then t[nodes] else map[];
    var table := CreateEntries(t, nodes, config);
    var cell := ReadLog(table[nodes][config], text);
    if cell.Failure? {
      return Failure(cell.error);
    }
    var newRow: map<Config, Cell> := table[nodes][config := cell.value];
    assert newRow == row[config := cell.value];
    var result: Table := table[nodes := newRow];
    assert result == t[nodes := row[config := cell.value]];
    r := Success(result);
  }

  /** The `if ... not in aggregated_data` lines: the entries for `nodes` and `config` exist afterwards. */
  method CreateEntries(t: Table, nodes: nat, config: Config) returns (table: Table)
    ensures var row := if nodes in t then t[nodes] else map[];
      table == t[nodes := row[config := if config in row then row[config] else Empty()]]
  {
    table := t;
    if nodes !in table {
      table := table[nodes := map[]];
    }
    if config !in table[nodes] {
      table := table[nodes := table[nodes][config := Empty()]];
    } else {
      assert table[nodes][config := table[nodes][config]] == table[nodes];
      assert table[nodes := table[nodes]] == table;
    }
  }

  /** The loop over one file's lines. */
  method ReadLog(cell: Cell, text: string) returns (r: Result<Cell, Error>)
    ensures r.Success? <==> FilePairs(text).Success?
    ensures r.Success? ==> r.value == AppendAll(cell, FilePairs(text).value)
    ensures r.Failure? ==> r.error == FilePairs(text).error
  {
    var lines := SplitLines(text);
    ghost var rs := Samples(lines);
    var d := cell;
    var k := 0;
    while k < |lines|
      invariant 0 <= k <= |lines|
      invariant Collect(rs[..k]).Success?
      invariant d == AppendAll(cell, Collect(rs[..k]).value)
    {
      var line := lines[k];
      CollectNext(rs, k);
      assert rs[k] == ReadIdLine(line);
      ghost var before := Collect(rs[..k]).value;
      var m := MatchIdLine(line);
      if m.Some? {
        var msgId := DigitsValue(m.value.0);
        var latency := ParseDecimal(m.value.1);
        if latency.None? {
          CollectStops(rs, k + 1);
          assert rs[..|rs|] == rs;
          return Failure(ValueError);
        }
        var unitDigit := msgId % 10;
        if unitDigit == 0 {
          unitDigit := 10;
        }
        if unitDigit in MessageSizes {
          var msgSize := MessageSizes[unitDigit];
          AppendAllSnoc(cell, before, (msgSize, latency.value));
          d := AppendTo(d, msgSize, latency.value);
        }
      }
      k := k + 1;
    }
    assert rs[..k] == rs;
    r := Success(d);
  }

  /** Once a file fails, the script has stopped with that error. */
  lemma {:induction false} FoldStops(rs: seq<Read>, k: nat)
    requires k <= |rs| && Fold(rs[..k]).Failure?
    ensures Fold(rs) == Fold(rs[..k])
    decreases |rs|
  {
    if k < |rs| {
      var init := rs[..|rs| - 1];
      assert init[..k] == rs[..k];
      FoldStops(init, k);
    } else {
      assert rs[..k] == rs;
    }
  }

  // -------------------------------------------------- what the table holds

  /** `config in aggregated_data[nodes]`. */
  ghost predicate Has(t: Table, nodes: nat, config: Config)
  {
    nodes in t && config in t[nodes]
  }

  /** The table has an entry exactly for the keys read, each holding the grouped pairs of its files. */
  ghost predicate Holds(rs: seq<Read>, t: Table)
  {
    && (forall nodes: nat, config: Config :: Has(t, nodes, config) <==> Named(rs, (nodes, config)))
    && (forall nodes: nat, config: Config :: nodes in t && config in t[nodes] ==>
          t[nodes][config] == Group(PairsFor(rs, (nodes, config))))
  }

  /**
   * The script fails exactly when some log file it reads has a latency
   * that is not a number, and then with `ValueError`; otherwise
   * `aggregated_data` has an entry for every node count and configuration
   * named by a log file, even one with no matching line, holding the
   * pairs of all such files, in listing order, grouped by message size.
   */
  lemma {:induction false} FoldSpec(rs: seq<Read>)
    requires forall i :: 0 <= i < |rs| && rs[i].pairs.Failure? ==> rs[i].pairs.error == ValueError
    ensures Fold(rs).Success? <==> Readable(rs)
    ensures Fold(rs).Failure? ==> Fold(rs).error == ValueError
    ensures Fold(rs).Success? ==> Holds(rs, Fold(rs).value)
    decreases |rs|
  {
    if rs != [] {
      var init, r := rs[..|rs| - 1], rs[|rs| - 1];
      FoldSpec(init);
      ReadableSnoc(rs);
      if Fold(init).Success? {
        var t0 := Fold(init).value;
        if r.key.None? {
          SkippedHolds(rs, t0);
        } else if r.pairs.Success? {
          AddFileHolds(rs, t0);
        }
      }
    }
  }

  lemma SkippedHolds(rs: seq<Read>, t: Table)
    requires rs != [] && rs[|rs| - 1].key.None?
    requires Holds(rs[..|rs| - 1], t)
    ensures Holds(rs, t)
  {
    forall nodes: nat, config: Config ensures Named(rs, (nodes, config)) <==> Named(rs[..|rs| - 1], (nodes, config)) {
      NamedSnoc(rs, (nodes, config));
    }
    forall nodes: nat, config: Config | nodes in t && config in t[nodes]
      ensures t[nodes][config] == Group(PairsFor(rs, (nodes, config)))
    {
      PairsForOther(rs, (nodes, config));
    }
  }

  lemma AddFileHolds(rs: seq<Read>, t0: Table)
    requires rs != [] && rs[|rs| - 1].key.Some? && rs[|rs| - 1].pairs.Success?
    requires Holds(rs[..|rs| - 1], t0)
    ensures AddFile(t0, rs[|rs| - 1]).Success? && Holds(rs, AddFile(t0, rs[|rs| - 1]).value)
  {
    var r := rs[|rs| - 1];
    var (n, c) := r.key.value;
    var row := if n in t0 then t0[n] else map[];
    var cell := if c in row then row[c] else Empty();
    var v := AppendAll(cell, r.pairs.value);
    assert AddFile(t0, r) == Success(t0[n := row[c := v]]);
    AddedKeys(rs, t0, v);
    AddedCells(rs, t0);
  }

  lemma AddedKeys(rs: seq<Read>, t0: Table, v: Cell)
    requires rs != [] && rs[|rs| - 1].key.Some?
    requires forall nodes: nat, config: Config :: Has(t0, nodes, config) <==> Named(rs[..|rs| - 1], (nodes, config))
    ensures var (n, c) := rs[|rs| - 1].key.value;
      var t := t0[n := (if n in t0 then t0[n] else map[])[c := v]];
      forall nodes: nat, config: Config :: Has(t, nodes, config) <==> Named(rs, (nodes, config))
  {
    var (n, c) := rs[|rs| - 1].key.value;
    var row := if n in t0 then t0[n] else map[];
    var t := t0[n := row[c := v]];
    forall nodes: nat, config: Config ensures Has(t, nodes, config) <==> Named(rs, (nodes, config)) {
      NamedSnoc(rs, (nodes, config));
      assert rs[|rs| - 1].key == Some((nodes, config)) <==> nodes == n && config == c;
      assert Named(rs[..|rs| - 1], (nodes, config)) <==> Has(t0, nodes, config);
      if nodes == n {
        assert config in t[nodes] <==> config == c || config in row;
        assert config in row <==> nodes in t0 && config in t0[nodes];
      } else {
        assert nodes in t <==> nodes in t0;
      }
    }
  }

  lemma AddedCells(rs: seq<Read>, t0: Table)
    requires rs != [] && rs[|rs| - 1].key.Some? && rs[|rs| - 1].pairs.Success?
    requires Holds(rs[..|rs| - 1], t0)
    ensures var (n, c) := rs[|rs| - 1].key.value;
      var row := if n in t0 then t0[n] else map[];
      var cell := if c in row then row[c] else Empty();
      var t := t0[n := row[c := AppendAll(cell, rs[|rs| - 1].pairs.value)]];
      forall nodes: nat, config: Config :: nodes in t && config in t[nodes] ==> t[nodes][config] == Group(PairsFor(rs, (nodes, config)))
  {
    var init, r := rs[..|rs| - 1], rs[|rs| - 1];
    var (n, c) := r.key.value;
    var ps := r.pairs.value;
    var row := if n in t0 then t0[n] else map[];
    var cell := if c in row then row[c] else Empty();
    var t := t0[n := row[c := AppendAll(cell, ps)]];
    forall nodes: nat, config: Config | nodes in t && config in t[nodes]
      ensures t[nodes][config] == Group(PairsFor(rs, (nodes, config)))
    {
      if nodes != n || config != c {
        assert t[nodes][config] == t0[nodes][config];
        PairsForOther(rs, (nodes, config));
      } else {
        AddedCell(rs, t0);
      }
    }
  }

  lemma AddedCell(rs: seq<Read>, t0: Table)
    requires rs != [] && rs[|rs| - 1].key.Some? && rs[|rs| - 1].pairs.Success?
    requires Holds(rs[..|rs| - 1], t0)
    ensures var (n, c) := rs[|rs| - 1].key.value;
      var row := if n in t0 then t0[n] else map[];
      var cell := if c in row then row[c] else Empty();
      AppendAll(cell, rs[|rs| - 1].pairs.value) == Group(PairsFor(rs, (n, c)))
  {
    var init, r := rs[..|rs| - 1], rs[|rs| - 1];
    var (n, c) := r.key.value;
    var ps := r.pairs.value;
    var row := if n in t0 then t0[n] else map[];
    if c !in row {
      assert !Named(init, (n, c));
      PairsForAbsent(init, (n, c));
    }
    AppendAllGroup(PairsFor(init, (n, c)), ps);
    assert PairsFor(rs, (n, c)) == PairsFor(init, (n, c)) + ps;
  }

  /** Some id line of the file has a latency that is not a number. */
  ghost predicate Malformed(text: string)
  {
    exists k :: 0 <= k < |SplitLines(text)| && ReadIdLine(SplitLines(text)[k]).NotANumber?
  }

  /** A file is read without error unless one of its id lines has a latency that is not a number. */
  lemma FilePairsSpec(text: string)
    ensures FilePairs(text).Failure? <==> Malformed(text)
    ensures FilePairs(text).Failure? ==> FilePairs(text).error == ValueError
  {
    var samples := Samples(SplitLines(text));
    CollectSpec(samples);
    if Malformed(text) {
      var k :| 0 <= k < |SplitLines(text)| && ReadIdLine(SplitLines(text)[k]).NotANumber?;
      assert samples[k].NotANumber?;
    }
    if FilePairs(text).Failure? {
      var k :| 0 <= k < |samples| && samples[k].NotANumber?;
      assert ReadIdLine(SplitLines(text)[k]).NotANumber?;
    }
  }

  /** The whole listing: see `FoldSpec`. */
  lemma AggregatedSpec(files: seq<LogFile>)
    ensures Aggregated(files).Success? <==> Readable(Reads(files))
    ensures Aggregated(files).Failure? ==> Aggregated(files).error == ValueError
    ensures Aggregated(files).Success? ==> Holds(Reads(files), Aggregated(files).value)
  {
    var rs := Reads(files);
    forall i | 0 <= i < |rs| && rs[i].pairs.Failure? ensures rs[i].pairs.error == ValueError {
      assert rs[i].pairs == FilePairs(files[i].text);
      FilePairsSpec(files[i].text);
    }
    FoldSpec(rs);
  }

  // ------------------------------------------------------------ the figures

  /** One curve: message sizes ascending and the mean latency of each. */
  datatype Curve = Curve(sizes: seq<int>, means: seq<real>)

  /** One saved figure; its curve is missing when no non-byzantine run was read. */
  datatype Figure = Figure(nodes: nat, protocol: string, curve: Option<Curve>)

  ghost predicate WellFormed(t: Table)
  {
    forall nodes: nat, config: Config :: nodes in t && config in t[nodes] ==> Valid(t[nodes][config])
  }

  /** `msg_sizes` and `means` for one configuration. */
  function CurveOf(cell: Cell): Curve
    requires Valid(cell)
  {
    var sizes := Sort(cell.keys);
    SortProperties(cell.keys);
    Curve(sizes, seq(|sizes|, i requires 0 <= i < |sizes| => (assert sizes[i] in multiset(cell.keys); Mean(cell.entries[sizes[i]]))))
  }

  /** `set(p for (p, b) in aggregated_data[node_count].keys())`. */
  function Protocols(row: map<Config, Cell>): set<string>
  {
    set config | config in row :: config.0
  }

  /** The figure for one protocol: the curve of `(protocol, "false")` when it was read. */
  function FigureOf(nodes: nat, row: map<Config, Cell>, protocol: string): Figure
    requires forall config :: config in row ==> Valid(row[config])
  {
    var key := (protocol, "false");
    Figure(nodes, protocol, if key in row then Some(CurveOf(row[key])) else None)
  }

  /** The figures for the node counts `counts` that were read. */
  function FiguresFor(t: Table, counts: seq<nat>): set<Figure>
    requires WellFormed(t)
  {
    set nodes, protocol | nodes in counts && nodes in t && protocol in Protocols(t[nodes]) :: FigureOf(nodes, t[nodes], protocol)
  }

  /** Every figure the script saves. */
  function Figures(t: Table): set<Figure>
    requires WellFormed(t)
  {
    FiguresFor(t, [16, 40])
  }

  /** The script's plotting loops. */
  method PlotFigures(t: Table) returns (figures: set<Figure>)
    requires WellFormed(t)
    ensures figures == Figures(t)
  {
    figures := {};
    var counts: seq<nat> := [16, 40];
    for ci := 0 to |counts|
      invariant figures == FiguresFor(t, counts[..ci])
    {
      var nodes := counts[ci];
      FiguresForSnoc(t, counts[..ci], nodes);
      assert counts[..ci + 1] == counts[..ci] + [nodes];
      if nodes !in t {
        continue;
      }
      var protocols := Protocols(t[nodes]);
      ghost var done: set<string> := {};
      while protocols != {}
        invariant protocols + done == Protocols(t[nodes]) && protocols !! done
        invariant figures == FiguresFor(t, counts[..ci]) + set p | p in done :: FigureOf(nodes, t[nodes], p)
        decreases protocols
      {
        var protocol :| protocol in protocols;
        var key := (protocol, "false");
        var curve := None;
        if key in t[nodes] {
          curve := Some(CurveOf(t[nodes][key]));
        }
        figures := figures + {Figure(nodes, protocol, curve)};
        protocols := protocols - {protocol};
        done := done + {protocol};
      }
    }
    assert counts[..|counts|] == counts;
  }

  lemma FiguresForSnoc(t: Table, counts: seq<nat>, nodes: nat)
    requires WellFormed(t) && nodes !in counts
    ensures FiguresFor(t, counts + [nodes])
      == FiguresFor(t, counts) + (if nodes in t then set p | p in Protocols(t[nodes]) :: FigureOf(nodes, t[nodes], p) else {})
  {
  }

  /**
   * The saved figures: one for each protocol read at 16 or 40 nodes and
   * no other, each curve present exactly when that protocol's
   * non-byzantine runs were read, with the sizes read in strictly
   * ascending order and for each the mean of its latencies.
   */
  lemma FiguresSpec(t: Table)
    requires WellFormed(t)
    ensures forall fig :: fig in Figures(t) ==>
      && (fig.nodes == 16 || fig.nodes == 40)
      && fig.nodes in t && fig.protocol in Protocols(t[fig.nodes])
      && fig == FigureOf(fig.nodes, t[fig.nodes], fig.protocol)
    ensures forall nodes, protocol :: (nodes == 16 || nodes == 40) && nodes in t && protocol in Protocols(t[nodes]) ==>
      FigureOf(nodes, t[nodes], protocol) in Figures(t)
  {
  }

  /**
   * One curve: the sizes strictly ascending and exactly those read, and
   * each mean that of the latencies read for its size.
   */
  lemma CurveSpec(cell: Cell)
    requires Valid(cell)
    ensures var c := CurveOf(cell);
      && |c.sizes| == |c.means|
      && (forall i, j :: 0 <= i < j < |c.sizes| ==> c.sizes[i] < c.sizes[j])
      && (forall size :: size in c.sizes <==> size in cell.entries)
      && (forall i :: 0 <= i < |c.sizes| ==> c.sizes[i] in cell.entries && c.means[i] == Mean(cell.entries[c.sizes[i]]))
  {
    SortDistinct(cell.keys);
  }

  /**
   * End to end: for the listing `files`, the figure for `protocol` at
   * `nodes` nodes plots, for each message size read from its
   * non-byzantine logs in ascending order, the mean of the latencies of
   * that size in listing order.
   */
  lemma ReportSpec(files: seq<LogFile>, nodes: nat, protocol: string)
    requires Aggregated(files).Success?
    requires Named(Reads(files), (nodes, (protocol, "false")))
    ensures var t := Aggregated(files).value;
      var ps := PairsFor(Reads(files), (nodes, (protocol, "false")));
      && WellFormed(t) && nodes in t
      && FigureOf(nodes, t[nodes], protocol).curve.Some?
      && var c := FigureOf(nodes, t[nodes], protocol).curve.value;
      && (forall size :: size in c.sizes <==> HasKey(ps, size))
      && (forall i :: 0 <= i < |c.sizes| ==> c.means[i] == Mean(Select(ps, c.sizes[i])))
  {
    AggregatedSpec(files);
    var t := Aggregated(files).value;
    forall n, config | n in t && config in t[n] ensures Valid(t[n][config]) {
      GroupSpec(PairsFor(Reads(files), (n, config)));
    }
    var ps := PairsFor(Reads(files), (nodes, (protocol, "false")));
    GroupSpec(ps);
    CurveSpec(t[nodes][(protocol, "false")]);
  }
}
