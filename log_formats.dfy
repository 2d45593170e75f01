/**
 * The text formats the benchmark scripts read back: the latency lines a
 * node's latency script prints, the `ID ... | ... bytes | ...` log lines,
 * the `N bytes: X ms` summary lines, and the log file names
 * `<protocol>_<nodes>_<true|false>_....log`.
 *
 * Each pattern is matched the way Python's `re` does. In every pattern a
 * repeated character class is followed by a character outside that class,
 * so the greedy run is the only run that can lead to a match and the
 * matchers below need no backtracking; the file-name pattern is the
 * exception and is matched by trying protocol lengths longest first.
 * Character classes are ASCII (`\s`, `\d`, `\w`).
 */
module LogFormats {
  import opened Wrappers
  import opened Text

  predicate IsSpace(c: char) { c == ' ' || c == '\t' || c == '\n' || c == '\r' || c == '\U{B}' || c == '\U{C}' }

  predicate IsWordChar(c: char) { 'a' <= c <= 'z' || 'A' <= c <= 'Z' || IsDigit(c) || c == '_' }

  predicate IsDecimalChar(c: char) { IsDigit(c) || c == '.' }

  /** The character classes the patterns repeat. */
  datatype Class = Digit | Space | Word | Decimal

  predicate In(c: char, cls: Class)
  {
    match cls
    case Digit => IsDigit(c)
    case Space => IsSpace(c)
    case Word => IsWordChar(c)
    case Decimal => IsDecimalChar(c)
  }

  // ------------------------------------------------------------- combinators

  /** The longest prefix of `s` whose characters all satisfy `p`. */
  function Run(s: string, p: Class): (k: nat)
    ensures k <= |s|
    ensures forall j :: 0 <= j < k ==> In(s[j], p)
    ensures k < |s| ==> !In(s[k], p)
  {
    if s == [] || !In(s[0], p) then 0
    else
      var k := 1 + Run(s[1..], p);
      assert forall j :: 1 <= j < k ==> s[j] == s[1..][j - 1];
      k
  }

  lemma RunOfConcat(a: string, b: string, p: Class)
    requires forall j :: 0 <= j < |a| ==> In(a[j], p)
    requires b == [] || !In(b[0], p)
    ensures Run(a + b, p) == |a|
  {
    assert forall j :: 0 <= j < |a| ==> (a + b)[j] == a[j];
    if b != [] {
      assert (a + b)[|a|] == b[0];
    }
  }

  /** `X+` for a character class: the run and what follows it. */
  function Plus(s: string, p: Class): (r: Option<(string, string)>)
    ensures r.Some? ==> |r.value.0| > 0 && |r.value.1| < |s|
    ensures r.Some? ==> forall j :: 0 <= j < |r.value.0| ==> In(r.value.0[j], p)
  {
    var k := Run(s, p);
    if k == 0 then None else Some((s[..k], s[k..]))
  }

  lemma PlusOfConcat(a: string, b: string, p: Class)
    requires |a| > 0 && forall j :: 0 <= j < |a| ==> In(a[j], p)
    requires b == [] || !In(b[0], p)
    ensures Plus(a + b, p) == Some((a, b))
  {
    RunOfConcat(a, b, p);
    assert (a + b)[..|a|] == a;
    assert (a + b)[|a|..] == b;
  }

  /** A literal: what follows it, if `s` starts with it. */
  function Lit(s: string, lit: string): (r: Option<string>)
    ensures r.Some? ==> |r.value| == |s| - |lit|
  {
    if StartsWith(s, lit) then Some(s[|lit|..]) else None
  }

  lemma LitOfConcat(lit: string, b: string)
    ensures Lit(lit + b, lit) == Some(b)
  {
    assert (lit + b)[..|lit|] == lit;
    assert (lit + b)[|lit|..] == b;
  }

  /** `\s+`: skips at least one whitespace character. */
  function Spaces(s: string): (r: Option<string>)
    ensures r.Some? ==> |r.value| < |s|
  {
    match Plus(s, Space)
    case None => None
    case Some((_, rest)) => Some(rest)
  }

  lemma SpacesOfConcat(b: string)
    requires b == [] || !IsSpace(b[0])
    ensures Spaces(" " + b) == Some(b)
  {
    PlusOfConcat(" ", b, Space);
  }

  /** `\s+\|\s+`: a column separator. */
  function Bar(s: string): (r: Option<string>)
    ensures r.Some? ==> |r.value| < |s|
  {
    var s1 :- Spaces(s);
    var s2 :- Lit(s1, "|");
    Spaces(s2)
  }

  lemma BarOfConcat(b: string)
    requires b == [] || !IsSpace(b[0])
    ensures Bar(" | " + b) == Some(b)
  {
    assert " | " + b == " " + ("|" + (" " + b));
    SpacesOfConcat("|" + (" " + b));
    LitOfConcat("|", " " + b);
    SpacesOfConcat(b);
  }

  /** `\s+bytes\s+\|\s+`: the unit after a size and the next separator. */
  function BytesBar(s: string): (r: Option<string>)
    ensures r.Some? ==> |r.value| < |s|
  {
    var s1 :- Spaces(s);
    var s2 :- Lit(s1, "bytes");
    Bar(s2)
  }

  lemma BytesBarOfConcat(b: string)
    requires b == [] || !IsSpace(b[0])
    ensures BytesBar(" bytes | " + b) == Some(b)
  {
    assert " bytes | " + b == " " + ("bytes" + (" | " + b));
    SpacesOfConcat("bytes" + (" | " + b));
    LitOfConcat("bytes", " | " + b);
    BarOfConcat(b);
  }

  // ------------------------------------------- the latency script's records

  /** The three groups of a latency record: message id, payload bytes, latency text. */
  datatype LatencyRecord = LatencyRecord(id: string, size: string, latency: string)

  predicate ValidDecimalText(t: string) { |t| > 0 && forall i :: 0 <= i < |t| ==> IsDecimalChar(t[i]) }

  /** What the pattern guarantees of its groups: digits, digits, and digits-and-dots. */
  predicate WellFormed(rec: LatencyRecord)
  {
    |rec.id| > 0 && AllDigits(rec.id) && |rec.size| > 0 && AllDigits(rec.size) && ValidDecimalText(rec.latency)
  }

  /** `\d+ latencies`: the end of a latency record. */
  function CountTail(s: string): (r: Option<string>)
    ensures r.Some? ==> |r.value| < |s|
  {
    var (_, s1) :- Plus(s, Digit);
    Lit(s1, " latencies")
  }

  /** `ID (\d+)\s+\|\s+`: the id column of a latency record. */
  function IdColumn(s: string): (r: Option<(string, string)>)
    ensures r.Some? ==> |r.value.1| < |s| && |r.value.0| > 0 && AllDigits(r.value.0)
  {
    var s1 :- Lit(s, "ID ");
    var (id, s2) :- Plus(s1, Digit);
    var rest :- Bar(s2);
    Some((id, rest))
  }

  /** `(\d+)\s+bytes\s+\|\s+`: a size column. */
  function SizeColumn(s: string): (r: Option<(string, string)>)
    ensures r.Some? ==> |r.value.1| < |s| && |r.value.0| > 0 && AllDigits(r.value.0)
  {
    var (size, s1) :- Plus(s, Digit);
    var rest :- BytesBar(s1);
    Some((size, rest))
  }

  /** `([\d.]+)\s+\|\s+\d+ latencies`: the latency column and the count. */
  function LatencyColumn(s: string): (r: Option<(string, string)>)
    ensures r.Some? ==> |r.value.1| < |s| && ValidDecimalText(r.value.0)
  {
    var (latency, s1) :- Plus(s, Decimal);
    var s2 :- Bar(s1);
    var rest :- CountTail(s2);
    Some((latency, rest))
  }

  /**
   * `ID (\d+)\s+\|\s+(\d+)\s+bytes\s+\|\s+([\d.]+)\s+\|\s+\d+ latencies`
   * matched at the start of `s`; gives the groups and the rest of `s`.
   */
  function MatchLatencyRecord(s: string): (r: Option<(LatencyRecord, string)>)
    ensures r.Some? ==> |r.value.1| < |s| && WellFormed(r.value.0)
  {
    var (id, s1) :- IdColumn(s);
    var (size, s2) :- SizeColumn(s1);
    var (latency, rest) :- LatencyColumn(s2);
    Some((LatencyRecord(id, size, latency), rest))
  }

  /** `re.findall` of the latency pattern: leftmost matches, scanning on after each one. */
  function FindLatencyRecords(s: string): (recs: seq<LatencyRecord>)
    ensures forall k :: 0 <= k < |recs| ==> WellFormed(recs[k])
    decreases |s|
  {
    if s == [] then []
    else match MatchLatencyRecord(s)
      case Some((rec, rest)) => [rec] + FindLatencyRecords(rest)
      case None => FindLatencyRecords(s[1..])
  }


  /** The line the latency script prints for one message. */
  function LatencyLine(id: nat, size: nat, latency: string, count: nat): string
  {
    "ID " + NatToString(id) + " | " + NatToString(size) + " bytes | " + latency + " | "
    + NatToString(count) + " latencies"
  }

  lemma DigitsRun(n: nat, b: string)
    requires b == [] || !IsDigit(b[0])
    ensures Plus(NatToString(n) + b, Digit) == Some((NatToString(n), b))
  {
    PlusOfConcat(NatToString(n), b, Digit);
  }

  lemma IdColumnOf(id: nat, b: string)
    requires b == [] || !IsSpace(b[0])
    ensures IdColumn("ID " + (NatToString(id) + (" | " + b))) == Some((NatToString(id), b))
  {
    LitOfConcat("ID ", NatToString(id) + (" | " + b));
    DigitsRun(id, " | " + b);
    BarOfConcat(b);
  }

  lemma SizeColumnOf(size: nat, b: string)
    requires b == [] || !IsSpace(b[0])
    ensures SizeColumn(NatToString(size) + (" bytes | " + b)) == Some((NatToString(size), b))
  {
    DigitsRun(size, " bytes | " + b);
    BytesBarOfConcat(b);
  }

  lemma LatencyColumnOf(latency: string, count: nat, rest: string)
    requires ValidDecimalText(latency)
    requires rest == [] || rest[0] == '\n'
    ensures LatencyColumn(latency + (" | " + (NatToString(count) + (" latencies" + rest)))) == Some((latency, rest))
  {
    var t := NatToString(count) + (" latencies" + rest);
    PlusOfConcat(latency, " | " + t, Decimal);
    BarOfConcat(t);
    DigitsRun(count, " latencies" + rest);
    LitOfConcat(" latencies", rest);
  }

  lemma LatencyLineParts(id: nat, size: nat, latency: string, count: nat, rest: string)
    ensures LatencyLine(id, size, latency, count) + rest
      == "ID " + (NatToString(id) + (" | " + (NatToString(size) + (" bytes | " + (latency + (" | " + (NatToString(count) + (" latencies" + rest))))))))
  {
    RightAssoc("ID ", NatToString(id), " | ", NatToString(size), " bytes | ", latency, " | ", NatToString(count), " latencies", rest);
  }

  /** Regrouping a concatenation to the right. */
  lemma RightAssoc<T>(a: seq<T>, b: seq<T>, c: seq<T>, d: seq<T>, e: seq<T>, f: seq<T>, g: seq<T>, h: seq<T>, i: seq<T>, r: seq<T>)
    ensures a + b + c + d + e + f + g + h + i + r == a + (b + (c + (d + (e + (f + (g + (h + (i + r))))))))
  {
  }

  lemma MatchLatencyLine(id: nat, size: nat, latency: string, count: nat, rest: string)
    requires ValidDecimalText(latency)
    requires rest == [] || rest[0] == '\n'
    ensures MatchLatencyRecord(LatencyLine(id, size, latency, count) + rest)
      == Some((LatencyRecord(NatToString(id), NatToString(size), latency), rest))
  {
    var t3 := latency + (" | " + (NatToString(count) + (" latencies" + rest)));
    var t2 := NatToString(size) + (" bytes | " + t3);
    LatencyLineParts(id, size, latency, count, rest);
    IdColumnOf(id, t2);
    SizeColumnOf(size, t3);
    LatencyColumnOf(latency, count, rest);
  }

  lemma FindAfterNewline(rest: string)
    ensures FindLatencyRecords("\n" + rest) == FindLatencyRecords(rest)
  {
    var s := "\n" + rest;
    assert s[1..] == rest;
    if |s| >= 3 {
      assert s[..3][0] == '\n';
    }
    assert Lit(s, "ID ").None?;
    assert MatchLatencyRecord(s).None?;
  }

  function RenderLatencyLines(recs: seq<(nat, nat, string, nat)>): seq<string>
  {
    seq(|recs|, k requires 0 <= k < |recs| => LatencyLine(recs[k].0, recs[k].1, recs[k].2, recs[k].3))
  }

  /** The record the latency pattern reads back from one printed line. */
  function PrintedRecord(r: (nat, nat, string, nat)): LatencyRecord
  {
    LatencyRecord(NatToString(r.0), NatToString(r.1), r.2)
  }

  /** One printed line, then a newline: its record, then whatever follows. */
  lemma FindLatencyLine(id: nat, size: nat, latency: string, count: nat, tail: string)
    requires ValidDecimalText(latency)
    ensures FindLatencyRecords(LatencyLine(id, size, latency, count) + ("\n" + tail))
      == [LatencyRecord(NatToString(id), NatToString(size), latency)] + FindLatencyRecords(tail)
  {
    MatchLatencyLine(id, size, latency, count, "\n" + tail);
    FindAfterNewline(tail);
  }

  lemma TerminatedCons(lines: seq<string>)
    requires lines != []
    ensures Terminated(lines) == lines[0] + ("\n" + Terminated(lines[1..]))
  {
  }

  /**
   * Reading back what the latency script prints: one record per line, in
   * order, with the id, size and latency text that were printed.
   */
  lemma {:induction false} FindRenderedRecords(recs: seq<(nat, nat, string, nat)>)
    requires forall k :: 0 <= k < |recs| ==> ValidDecimalText(recs[k].2)
    ensures var found := FindLatencyRecords(Terminated(RenderLatencyLines(recs)));
      && |found| == |recs|
      && forall k :: 0 <= k < |recs| ==> found[k] == PrintedRecord(recs[k])
    decreases |recs|
  {
    if recs != [] {
      var lines := RenderLatencyLines(recs);
      var r := recs[0];
      assert lines[1..] == RenderLatencyLines(recs[1..]);
      TerminatedCons(lines);
      FindLatencyLine(r.0, r.1, r.2, r.3, Terminated(lines[1..]));
      FindRenderedRecords(recs[1..]);
      var found := FindLatencyRecords(Terminated(lines));
      var rest := FindLatencyRecords(Terminated(lines[1..]));
      assert found == [PrintedRecord(r)] + rest;
      forall k | 0 <= k < |recs|
        ensures found[k] == PrintedRecord(recs[k])
      {
        if k > 0 {
          assert found[k] == rest[k - 1];
          assert recs[1..][k - 1] == recs[k];
        }
      }
    }
  }

  // ----------------------------------------------------------- decimal text

  function CountDots(t: string): nat
  {
    if t == [] then 0 else (if t[0] == '.' then 1 else 0) + CountDots(t[1..])
  }

  function Pow10(k: nat): (p: nat)
    ensures p >= 1
  {
    if k == 0 then 1 else 10 * Pow10(k - 1)
  }

  /** Index of the first dot of `t`, or `|t|`. */
  function DotIndex(t: string): (k: nat)
    ensures k <= |t| && (k < |t| ==> t[k] == '.') && forall j :: 0 <= j < k ==> t[j] != '.'
  {
    if t == [] || t[0] == '.' then 0
    else
      var k := 1 + DotIndex(t[1..]);
      assert forall j :: 1 <= j < k ==> t[j] == t[1..][j - 1];
      k
  }

  lemma NoDotDigits(t: string)
    requires forall i :: 0 <= i < |t| ==> IsDecimalChar(t[i])
    requires CountDots(t) == 0
    ensures AllDigits(t)
  {
    if t != [] {
      NoDotDigits(t[1..]);
      assert forall i :: 1 <= i < |t| ==> t[i] == t[1..][i - 1];
    }
  }

  lemma NoDotCount(t: string)
    requires forall j :: 0 <= j < |t| ==> t[j] != '.'
    ensures CountDots(t) == 0
  {
    if t != [] {
      NoDotCount(t[1..]);
    }
  }

  lemma CountDotsSplit(t: string, k: nat)
    requires k <= |t|
    ensures CountDots(t) == CountDots(t[..k]) + CountDots(t[k..])
    decreases |t|
  {
    if k > 0 {
      CountDotsSplit(t[1..], k - 1);
      assert t[1..][..k - 1] == t[..k][1..];
      assert t[1..][k - 1..] == t[k..];
    }
  }

  /**
   * Python's `float(t)` for a run of digits and dots: `None` (a
   * `ValueError`) unless there is at most one dot and at least one digit.
   */
  function ParseDecimal(t: string): (r: Option<real>)
    requires forall i :: 0 <= i < |t| ==> IsDecimalChar(t[i])
    ensures r.Some? <==> CountDots(t) <= 1 && CountDots(t) < |t|
    ensures r.Some? ==> r.value >= 0.0
  {
    if CountDots(t) > 1 || CountDots(t) == |t| then None
    else
      var k := DotIndex(t);
      CountDotsSplit(t, k);
      if k == |t| then
        NoDotCount(t);
        NoDotDigits(t);
        Some(DigitsValue(t) as real)
      else
        CountDotsSplit(t[k..], 1);
        assert t[k..][1..] == t[k + 1..];
        assert t[k..][..1] == ['.'];
        NoDotDigits(t[..k]);
        NoDotDigits(t[k + 1..]);
        Some(DigitsValue(t[..k]) as real + (DigitsValue(t[k + 1..]) as real) / (Pow10(|t| - k - 1) as real))
  }

  lemma NatDigitsHaveNoDot(t: string)
    requires AllDigits(t)
    ensures CountDots(t) == 0
  {
    if t != [] {
      assert AllDigits(t[1..]);
      NatDigitsHaveNoDot(t[1..]);
    }
  }

  /** A whole number printed by `str` reads back as itself. */
  lemma ParseDecimalOfNat(n: nat)
    ensures var t := NatToString(n); ParseDecimal(t) == Some(n as real)
  {
    var t := NatToString(n);
    NatDigitsHaveNoDot(t);
    assert DotIndex(t) == |t|;
    DigitsValueOfNatToString(n);
  }

  // ----------------------------------------------- the scripts' log lines

  /** `ID\s+(\d+)\s+\|\s+`: the id field of a log line. */
  function IdField(s: string): (r: Option<(string, string)>)
    ensures r.Some? ==> |r.value.0| > 0 && AllDigits(r.value.0)
  {
    var s1 :- Lit(s, "ID");
    var s2 :- Spaces(s1);
    var (id, s3) :- Plus(s2, Digit);
    var rest :- Bar(s3);
    Some((id, rest))
  }

  lemma IdFieldOf(id: nat, b: string)
    requires b == [] || !IsSpace(b[0])
    ensures IdField("ID " + (NatToString(id) + (" | " + b))) == Some((NatToString(id), b))
  {
    assert "ID " + (NatToString(id) + (" | " + b)) == "ID" + (" " + (NatToString(id) + (" | " + b)));
    LitOfConcat("ID", " " + (NatToString(id) + (" | " + b)));
    SpacesOfConcat(NatToString(id) + (" | " + b));
    DigitsRun(id, " | " + b);
    BarOfConcat(b);
  }

  /** `re.match(r"ID\s+(\d+)\s+\|\s+\d+\s+bytes\s+\|\s+([\d.]+)", line)`: id text and latency text. */
  function MatchIdLine(line: string): (r: Option<(string, string)>)
    ensures r.Some? ==> |r.value.0| > 0 && AllDigits(r.value.0) && ValidDecimalText(r.value.1)
  {
    var (id, s1) :- IdField(line);
    var (_, s2) :- SizeColumn(s1);
    var (latency, _) :- Plus(s2, Decimal);
    Some((id, latency))
  }

  /** A line the latency script prints is one the line pattern reads, with the same id and latency. */
  lemma MatchIdLineRendered(id: nat, size: nat, latency: string, count: nat)
    requires ValidDecimalText(latency)
    ensures MatchIdLine(LatencyLine(id, size, latency, count)) == Some((NatToString(id), latency))
  {
    var t4 := " | " + (NatToString(count) + (" latencies" + []));
    var t3 := latency + t4;
    var t2 := NatToString(size) + (" bytes | " + t3);
    LatencyLineParts(id, size, latency, count, []);
    assert LatencyLine(id, size, latency, count) + [] == LatencyLine(id, size, latency, count);
    IdFieldOf(id, t2);
    SizeColumnOf(size, t3);
    PlusOfConcat(latency, t4, Decimal);
  }

  /** `re.match(r"(\d+) bytes: ([\d.]+) ms", line)`: size text and time text. */
  function MatchSizeLine(line: string): (r: Option<(string, string)>)
    ensures r.Some? ==> |r.value.0| > 0 && AllDigits(r.value.0) && ValidDecimalText(r.value.1)
  {
    var (size, s1) :- Plus(line, Digit);
    var s2 :- Lit(s1, " bytes: ");
    var (time, s3) :- Plus(s2, Decimal);
    var _ :- Lit(s3, " ms");
    Some((size, time))
  }

  lemma MatchSizeLineRendered(size: nat, time: string, rest: string)
    requires ValidDecimalText(time)
    ensures MatchSizeLine(NatToString(size) + " bytes: " + time + " ms" + rest) == Some((NatToString(size), time))
  {
    var t := " bytes: " + (time + (" ms" + rest));
    assert NatToString(size) + " bytes: " + time + " ms" + rest == NatToString(size) + t;
    DigitsRun(size, t);
    LitOfConcat(" bytes: ", time + (" ms" + rest));
    PlusOfConcat(time, " ms" + rest, Decimal);
    LitOfConcat(" ms", rest);
  }

  // ------------------------------------------------------- log file names

  predicate NoNewlineBefore(s: string, p: nat)
    requires p <= |s|
  {
    forall j :: 0 <= j < p ==> s[j] != '\n'
  }

  /** `.*\.log` at the start of `s`: some `.log` not preceded by a newline. */
  predicate DotLogAhead(s: string)
  {
    exists p :: 0 <= p && p + 4 <= |s| && s[p..p + 4] == ".log" && NoNewlineBefore(s, p)
  }

  /** `(true|false)` at the start of `s`. */
  function Flag(s: string): (r: Option<(string, string)>)
    ensures r.Some? ==> |r.value.1| < |s|
  {
    if StartsWith(s, "true") then Some(("true", s[4..]))
    else if StartsWith(s, "false") then Some(("false", s[5..]))
    else None
  }

  /**
   * `_(\d+)_(true|false)_.*\.log` at the start of `s`: the node count and
   * the byzantine flag.
   */
  function FileNameTail(s: string): (r: Option<(string, string)>)
    ensures r.Some? ==> AllDigits(r.value.0)
  {
    var s1 :- Lit(s, "_");
    var (nodes, s2) :- Plus(s1, Digit);
    var s3 :- Lit(s2, "_");
    var (byz, s4) :- Flag(s3);
    var s5 :- Lit(s4, "_");
    if DotLogAhead(s5) then Some((nodes, byz)) else None
  }

  /** The pattern's groups when the protocol is the first `L` characters of `name`. */
  function ParseAt(name: string, L: nat): Option<(string, string, string)>
    requires L <= |name|
  {
    match FileNameTail(name[L..])
    case Some((nodes, byz)) => Some((name[..L], nodes, byz))
    case None => None
  }

  /** The parse for each protocol length `L` from 0 to `top`. */
  function Candidates(name: string, top: nat): (c: seq<Option<(string, string, string)>>)
    requires top <= |name|
    ensures |c| == top + 1 && forall L :: 0 <= L <= top ==> c[L] == ParseAt(name, L)
  {
    seq(top + 1, L requires 0 <= L <= top => ParseAt(name, L))
  }

  /** The candidate with the largest index in `1..top` that parses. */
  function Longest<T>(c: seq<Option<T>>, top: nat): Option<T>
    requires top < |c|
  {
    if top == 0 then None
    else if c[top].Some? then c[top]
    else Longest(c, top - 1)
  }

  /**
   * `re.match(r"(\w+)_(\d+)_(true|false)_.*\.log", name).groups()`: the
   * protocol is the longest run of word characters after which the rest
   * of the pattern matches (the protocol may itself hold underscores and
   * digits).
   */
  function ParseLogFileName(name: string): Option<(string, string, string)>
  {
    var W := Run(name, Word);
    Longest(Candidates(name, W), W)
  }

  lemma {:induction false} LongestSpec<T>(c: seq<Option<T>>, top: nat)
    requires top < |c|
    ensures var r := Longest(c, top);
      && (r.Some? ==> exists L :: 0 < L <= top && r == c[L] && forall L' :: L < L' <= top ==> c[L'].None?)
      && (r.None? <==> forall L :: 0 < L <= top ==> c[L].None?)
    decreases top
  {
    if top > 0 {
      LongestSpec(c, top - 1);
      var r := Longest(c, top);
      if c[top].Some? {
        assert 0 < top <= top && r == c[top];
      } else if r.Some? {
        var L :| 0 < L <= top - 1 && r == c[L] && forall L' :: L < L' <= top - 1 ==> c[L'].None?;
        assert 0 < L <= top && r == c[L];
      }
    }
  }

  lemma ParseAtSpec(name: string, L: nat)
    requires L <= |name|
    ensures var r := ParseAt(name, L);
      (r.Some? <==> FileNameTail(name[L..]).Some?)
      && (r.Some? ==> r.value.0 == name[..L] && FileNameTail(name[L..]) == Some((r.value.1, r.value.2)))
  {
  }

  /**
   * The parsed protocol is the longest non-empty run of word characters
   * that the rest of the pattern follows; there is no parse exactly when
   * no run works.
   */
  lemma ParseLogFileNameSpec(name: string)
    ensures var r := ParseLogFileName(name);
      var W := Run(name, Word);
      && (r.Some? ==> exists L :: 0 < L <= W && r == ParseAt(name, L)
                                  && forall L' :: L < L' <= W ==> ParseAt(name, L').None?)
      && (r.None? <==> forall L :: 0 < L <= W ==> ParseAt(name, L).None?)
  {
    var W := Run(name, Word);
    LongestSpec(Candidates(name, W), W);
  }

  /** The node count the file-name pattern captures is a run of digits. */
  lemma ParseLogFileNameDigits(name: string)
    ensures var r := ParseLogFileName(name); r.Some? ==> AllDigits(r.value.1)
  {
    ParseLogFileNameSpec(name);
    var r := ParseLogFileName(name);
    if r.Some? {
      var L :| 0 < L <= Run(name, Word) && r == ParseAt(name, L);
      ParseAtSpec(name, L);
    }
  }

  /**
   * The two checks both aggregation scripts make on a directory entry:
   * the name ends in `.log` and matches the file-name pattern; then the
   * protocol, the node count as a number, and the byzantine flag.
   */
  function LogName(name: string): Option<(string, nat, string)>
  {
    if !EndsWith(name, ".log") then None
    else
      match ParseLogFileName(name)
      case None => None
      case Some((protocol, nodes, byz)) =>
        ParseLogFileNameDigits(name);
        Some((protocol, DigitsValue(nodes), byz))
  }
}
